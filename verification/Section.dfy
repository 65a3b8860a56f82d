/** MPEG section headers of lib/libucsi/section.h on a little-endian host: byte swapping in place,
    the CRC of extended sections, and the tracker of a table's sections. */
module Section {
  import opened Crc32
  import Bytes

  const CRC_SIZE := 4

  // ---------------------------------------------------------------- layout

  /** bswap16 */
  function Swap16(buf: seq<bv8>, i: nat): (r: seq<bv8>)
    requires i + 1 < |buf|
    ensures |r| == |buf|
  {
    buf[i := buf[i + 1]][i + 1 := buf[i]]
  }

  /** section_length: the length field in host order, and the three octets before it. */
  function SectionLength(buf: seq<bv8>): (n: nat)
    requires |buf| >= 3
    ensures n >= 3
  {
    3 + (buf[2] & 0x0F) as nat * 0x100 + buf[1] as nat
  }

  predicate SyntaxIndicator(buf: seq<bv8>)
    requires |buf| >= 3
  {
    buf[2] & 0x80 != 0
  }

  /** The octets the CRC is taken over: the whole section with its header as transmitted. */
  function Wire(buf: seq<bv8>): (w: seq<bv8>)
    requires |buf| >= 3 && SectionLength(buf) <= |buf|
    ensures |w| == SectionLength(buf)
  {
    Swap16(buf, 1)[..SectionLength(buf)]
  }

  /** A buffer that holds its section, with room for the header fields that get swapped. */
  predicate Holds(buf: seq<bv8>) { |buf| >= 5 && 5 <= SectionLength(buf) <= |buf| }

  // ---------------------------------------------------------------- functions of section.h

  /** section_codec: the header is swapped even when the length turns out wrong. */
  function Codec(buf: seq<bv8>): (seq<bv8>, bool) {
    if |buf| < 3 then (buf, false) else
      var b := Swap16(buf, 1);
      (b, |b| == SectionLength(b))
  }

  /** section_ext_decode */
  function ExtDecode(buf: seq<bv8>, checkCrc: bool): Bytes.Option<seq<bv8>>
    requires Holds(buf)
  {
    if !SyntaxIndicator(buf) || (checkCrc && Crc(CRC32_INIT, Wire(buf)) != 0) then Bytes.None
    else Bytes.Some(Swap16(buf, 3))
  }

  /** section_ext_encode */
  function ExtEncode(buf: seq<bv8>, updateCrc: bool): Bytes.Option<seq<bv8>>
    requires Holds(buf)
  {
    if !SyntaxIndicator(buf) then Bytes.None else
      var b := Swap16(buf, 3);
      if !updateCrc then Bytes.Some(b) else
      var n := SectionLength(buf) - CRC_SIZE;
      Bytes.Some(b[..n] + BigEndian(Crc(CRC32_INIT, Swap16(b, 1)[..n])) + b[n + CRC_SIZE..])
  }

  // ---------------------------------------------------------------- what they promise

  lemma SameHeader(a: seq<bv8>, b: seq<bv8>)
    requires |a| >= 3 && |b| >= 3 && a[1] == b[1] && a[2] == b[2]
    ensures SectionLength(a) == SectionLength(b) && SyntaxIndicator(a) == SyntaxIndicator(b)
  {
  }

  /** The encoded buffer: the swapped one with the CRC of its transmitted form in place. */
  lemma EncodedForm(buf: seq<bv8>, crc: bv32)
    requires Holds(buf) && SectionLength(buf) >= 9
    ensures var n, b := SectionLength(buf), Swap16(buf, 3);
            var e := b[..n - CRC_SIZE] + BigEndian(crc) + b[n..];
            && Holds(e) && |e| == |buf| && SectionLength(e) == n && SyntaxIndicator(e) == SyntaxIndicator(buf)
            && Wire(e) == Swap16(b, 1)[..n - CRC_SIZE] + BigEndian(crc)
            && e[3] == buf[4] && e[4] == buf[3]
            && forall i :: 0 <= i < |buf| && !(n - CRC_SIZE <= i < n) ==> Swap16(e, 3)[i] == buf[i]
  {
    hide Crc;
    hide BigEndian;
    hide SectionLength;
    hide SyntaxIndicator;
    OwnCrcGivesZero(crc);
    var n, b := SectionLength(buf), Swap16(buf, 3);
    var e := b[..n - CRC_SIZE] + BigEndian(crc) + b[n..];
    assert e[1] == buf[1] && e[2] == buf[2] && e[3] == buf[4] && e[4] == buf[3];
    SameHeader(buf, e);
  }

  /** Encoding with a CRC and decoding with a check always succeeds and restores every octet but
      the four of the CRC. The section must be long enough for its CRC not to overlap the header
      fields; every extended section is. */
  lemma EncodeThenDecode(buf: seq<bv8>)
    requires Holds(buf) && SyntaxIndicator(buf) && SectionLength(buf) >= 9
    ensures var n := SectionLength(buf);
            var e := ExtEncode(buf, true);
            && e.Some? && Holds(e.value) && SectionLength(e.value) == n
            && var d := ExtDecode(e.value, true);
            && d.Some? && |d.value| == |buf|
            && forall i :: 0 <= i < |buf| && !(n - CRC_SIZE <= i < n) ==> d.value[i] == buf[i]
  {
    hide Crc;
    hide BigEndian;
    hide SectionLength;
    hide SyntaxIndicator;
    hide Wire;
    hide Swap16;
    var n, b := SectionLength(buf), Swap16(buf, 3);
    var body := Swap16(b, 1)[..n - CRC_SIZE];
    var crc := Crc(CRC32_INIT, body);
    OwnCrcGivesZero(crc);
    EncodedForm(buf, crc);
    ZeroResidue(CRC32_INIT, body, BigEndian(crc));
    assert ExtEncode(buf, true) == Bytes.Some(b[..n - CRC_SIZE] + BigEndian(crc) + b[n..]);
  }

  /** The check accepts a section exactly when its last four octets are the CRC of the rest. */
  lemma CheckAccepts(buf: seq<bv8>)
    requires Holds(buf)
    ensures var n := SectionLength(buf) - CRC_SIZE;
            ExtDecode(buf, true).Some? <==>
            SyntaxIndicator(buf) && Wire(buf)[n..] == BigEndian(Crc(CRC32_INIT, Wire(buf)[..n]))
  {
    hide Crc;
    hide BigEndian;
    var n := SectionLength(buf) - CRC_SIZE;
    assert Wire(buf) == Wire(buf)[..n] + Wire(buf)[n..];
    ZeroResidue(CRC32_INIT, Wire(buf)[..n], Wire(buf)[n..]);
  }

  /** A section that passes the check does not pass it any more after any damage behind its header
      that is confined to four consecutive octets. */
  lemma DamageDetected(good: seq<bv8>, bad: seq<bv8>, at: nat, width: nat)
    requires Holds(good) && Holds(bad) && ExtDecode(good, true).Some?
    requires 3 <= at && width <= 4 && at + width <= SectionLength(good) && |bad| == |good|
    requires forall i :: 0 <= i < |good| && !(at <= i < at + width) ==> bad[i] == good[i]
    ensures ExtDecode(bad, true).Some? ==> bad == good
  {
    hide Crc;
    if ExtDecode(bad, true).Some? {
      WireDiffers(good, bad, at, width);
      var g, b := Wire(good), Wire(bad);
      BurstDetected(CRC32_INIT, g[..at], g[at..at + width], b[at..at + width], g[at + width..]);
      assert good[at..at + width] == bad[at..at + width];
      forall i | 0 <= i < |good| ensures bad[i] == good[i] {
        if at <= i < at + width { assert good[i] == good[at..at + width][i - at] && bad[i] == bad[at..at + width][i - at]; }
      }
    }
  }

  /** Damage behind the header keeps the transmitted form apart from the damaged octets. */
  lemma WireDiffers(good: seq<bv8>, bad: seq<bv8>, at: nat, width: nat)
    requires Holds(good) && |bad| == |good| && 3 <= at && at + width <= SectionLength(good)
    requires forall i :: 0 <= i < |good| && !(at <= i < at + width) ==> bad[i] == good[i]
    ensures Holds(bad) && SectionLength(bad) == SectionLength(good)
    ensures var g, b := Wire(good), Wire(bad);
            && g == g[..at] + g[at..at + width] + g[at + width..]
            && b == g[..at] + b[at..at + width] + g[at + width..]
            && g[at..at + width] == good[at..at + width] && b[at..at + width] == bad[at..at + width]
  {
    hide SectionLength;
    SameHeader(good, bad);
    var g, b := Wire(good), Wire(bad);
    assert b[..at] == g[..at] && b[at + width..] == g[at + width..];
  }

  /** What the two functions make of the octets as received: twelve bits of length, the indicator of the extended
      syntax in front of them, and two fields brought into host order. */
  lemma OctetsDecoded(w: seq<bv8>)
    requires |w| >= 5
    ensures var (b, fits) := Codec(w);
      && (fits <==> |w| == 3 + (w[1] & 0x0F) as int * 256 + w[2] as int)
      && b == [w[0], w[2], w[1]] + w[3..]
      && (fits ==> Holds(b) && ExtDecode(b, false) == if w[1] & 0x80 == 0 then Bytes.None else Bytes.Some([w[0], w[2], w[1], w[4], w[3]] + w[5..]))
  {
    var b := Codec(w).0;
    assert b == [w[0], w[2], w[1]] + w[3..];
    assert Swap16(b, 3) == [w[0], w[2], w[1], w[4], w[3]] + w[5..];
  }

  /** A section too short for its own header is refused as it is. */
  lemma TooShortRefused(w: seq<bv8>)
    requires |w| < 3
    ensures Codec(w) == (w, false)
  {
  }

  /** Encoding without a new CRC brings the third field back into transmitted order. */
  lemma OctetsEncoded(b: seq<bv8>)
    requires Holds(b)
    ensures ExtEncode(b, false) == if b[2] & 0x80 == 0 then Bytes.None else Bytes.Some(b[..3] + [b[4], b[3]] + b[5..])
  {
    assert Swap16(b, 3) == b[..3] + [b[4], b[3]] + b[5..];
  }

  /** A section as received, put through section_codec and then decoded: it is accepted exactly when the
      four octets it ends with are the CRC of those before them, as received. */
  lemma ReceivedSection(w: seq<bv8>)
    requires |w| >= 5 && Codec(w).1
    ensures var b := Codec(w).0;
      && Holds(b) && Wire(b) == w
      && (ExtDecode(b, true).Some? <==> SyntaxIndicator(b) && w[|w| - CRC_SIZE..] == BigEndian(Crc(CRC32_INIT, w[..|w| - CRC_SIZE])))
  {
    hide Crc;
    hide BigEndian;
    var b := Codec(w).0;
    assert Swap16(b, 1) == w && w[..|w|] == w;
    CheckAccepts(b);
  }

  // ---------------------------------------------------------------- in place

  /** section_codec: false stands for the null pointer. */
  method CodecInPlace(buf: array<bv8>) returns (ok: bool)
    modifies buf
    ensures (buf[..], ok) == Codec(old(buf[..]))
  {
    if buf.Length < 3 { return false; }
    Bswap16(buf, 1);
    ok := buf.Length == SectionLength(buf[..]);
  }

  method Bswap16(buf: array<bv8>, i: nat)
    requires i + 1 < buf.Length
    modifies buf
    ensures buf[..] == Swap16(old(buf[..]), i)
  {
    buf[i], buf[i + 1] := buf[i + 1], buf[i];
  }

  /** section_ext_decode with section_check_crc: false stands for the null pointer. */
  method DecodeInPlace(buf: array<bv8>, checkCrc: bool) returns (ok: bool)
    requires Holds(buf[..])
    modifies buf
    ensures ok <==> ExtDecode(old(buf[..]), checkCrc).Some?
    ensures buf[..] == if ok then ExtDecode(old(buf[..]), checkCrc).value else old(buf[..])
  {
    hide Crc;
    if buf[2] & 0x80 == 0 { return false; }
    if checkCrc {
      ghost var before := buf[..];
      var n := SectionLength(buf[..]);
      Bswap16(buf, 1);
      assert buf[..n] == buf[..][..n] == Wire(before);
      var crc := Compute(CRC32_INIT, buf, n);
      Bswap16(buf, 1);
      assert buf[..] == before;
      if crc != 0 { return false; }
    }
    Bswap16(buf, 3);
    return true;
  }

  /** The CRC, stored in host order and swapped by bswap32. */
  method StoreCrc(buf: array<bv8>, n: nat, crc: bv32)
    requires n + CRC_SIZE <= buf.Length
    modifies buf
    ensures buf[..] == old(buf[..n]) + BigEndian(crc) + old(buf[n + CRC_SIZE..])
  {
    hide BigEndian;
    var octets := BigEndian(crc);
    OwnCrcGivesZero(crc);
    buf[n], buf[n + 1], buf[n + 2], buf[n + 3] := octets[0], octets[1], octets[2], octets[3];
  }

  /** section_ext_encode */
  method EncodeInPlace(buf: array<bv8>, updateCrc: bool) returns (ok: bool)
    requires Holds(buf[..])
    modifies buf
    ensures ok <==> ExtEncode(old(buf[..]), updateCrc).Some?
    ensures buf[..] == if ok then ExtEncode(old(buf[..]), updateCrc).value else old(buf[..])
  {
    hide Crc;
    hide SectionLength;
    hide BigEndian;
    if buf[2] & 0x80 == 0 { return false; }
    var n := SectionLength(buf[..]) - CRC_SIZE;
    Bswap16(buf, 3);
    if updateCrc {
      ghost var b := buf[..];
      Bswap16(buf, 1);
      assert buf[..n] == Swap16(b, 1)[..n];
      var crc := Compute(CRC32_INIT, buf, n);
      Bswap16(buf, 1);
      assert buf[..] == b;
      StoreCrc(buf, n, crc);
    }
    return true;
  }
}
