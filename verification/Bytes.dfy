/** What every module may need: octets, 16-bit lengths, optional values and sequences. */
module Bytes {

  type byte = b: int | 0 <= b < 0x100 witness 0
  type u16 = n: int | 0 <= n < 0x1_0000 witness 0

  datatype Option<+T> = None | Some(value: T)

  predicate NoRepeats<T(==)>(s: seq<T>) { forall i, j :: 0 <= i < j < |s| ==> s[i] != s[j] }

  /** The sequences of `parts`, one after the other. */
  function Flatten<T>(parts: seq<seq<T>>): (whole: seq<T>)
    ensures |parts| == 1 ==> whole == parts[0]
  {
    if parts == [] then [] else parts[0] + Flatten(parts[1..])
  }

  /** The high and the low octet of a 16-bit number, as `n >> 8` and `n` stored into a uint8_t. */
  function High(n: nat): byte { n / 0x100 % 0x100 }

  function Low(n: nat): byte { n % 0x100 }

  function Word(high: byte, low: byte): u16 { high * 0x100 + low }

  lemma WordOfHighLow(n: nat)
    ensures n < 0x1_0000 ==> Word(High(n), Low(n)) == n
    ensures Word(High(n), Low(n)) == n % 0x1_0000
  {
    assert n / 0x100 == (n / 0x1_0000) * 0x100 + High(n);
  }
}
