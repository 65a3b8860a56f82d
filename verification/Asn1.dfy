/** The ASN.1 length field of lib/libdvben50221/asn_1.c. */
module Asn1 {
  import opened Bytes

  /** A decoded length and the number of octets its field takes. */
  datatype Field = Field(length: u16, size: nat)

  /** The octets asn_1_encode writes for `length`. */
  function LengthField(length: u16): (f: seq<byte>)
    ensures 1 <= |f| <= 3
  {
    if length < 0x80 then [length]
    else if length < 0x100 then [0x81, length]
    else [0x82, High(length), Low(length)]
  }

  /** asn_1_decode: None stands for the error return. */
  function DecodeLength(data: seq<byte>): (r: Option<Field>)
    ensures r.Some? ==> 1 <= r.value.size <= |data|
  {
    if |data| < 1 then None
    else if data[0] < 0x80 then Some(Field(data[0], 1))
    else if data[0] == 0x81 then
      if |data| < 2 then None else Some(Field(data[1], 2))
    else if data[0] == 0x82 then
      if |data| < 3 then None else Some(Field(Word(data[1], data[2]), 3))
    else None
  }

  /** Decoding what was encoded gives the length back, whatever octets follow the field. */
  lemma LengthRoundTrip(length: u16, rest: seq<byte>)
    ensures DecodeLength(LengthField(length) + rest) == Some(Field(length, |LengthField(length)|))
  {
  }

  /** The encoder uses the shortest of all the fields the decoder accepts for that length,
      and the decoder looks at nothing behind the field. */
  lemma EncodingIsShortest(data: seq<byte>, rest: seq<byte>)
    requires DecodeLength(data).Some?
    ensures |LengthField(DecodeLength(data).value.length)| <= DecodeLength(data).value.size
    ensures DecodeLength(data[..DecodeLength(data).value.size] + rest) == DecodeLength(data)
  {
  }

  /** asn_1_encode: writes the field at `at`, where the caller allows `room` octets. */
  method Encode(length: u16, a: array<byte>, at: nat, room: nat) returns (r: int)
    requires at + room <= a.Length
    modifies a
    ensures r == (if room < |LengthField(length)| then -1 else |LengthField(length)|)
    ensures r == -1 ==> a[..] == old(a[..])
    ensures r != -1 ==> a[..] == old(a[..at]) + LengthField(length) + old(a[at + r..])
  {
    if length < 0x80 {
      if room < 1 { return -1; }
      a[at] := length;
      return 1;
    } else if length < 0x100 {
      if room < 2 { return -1; }
      a[at] := 0x81;
      a[at + 1] := length;
      return 2;
    } else {
      if room < 3 { return -1; }
      a[at] := 0x82;
      a[at + 1] := High(length);
      a[at + 2] := Low(length);
      return 3;
    }
  }
}
