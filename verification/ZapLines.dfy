/** Hand-written channel files: what lib/libdvbcfg/dvbcfg_zapchannel.c reads that it would not write. */
module ZapLines {
  import opened Bytes
  import opened ZapText
  import opened ZapChannel

  // ---------------------------------------------------------------- numbers

  /** The number that digits stand for, the most significant one first. */
  function Value(ds: seq<nat>, base: nat): nat {
    if ds == [] then 0 else Value(ds[..|ds| - 1], base) * base + ds[|ds| - 1]
  }

  predicate AreDigits(ds: seq<nat>, base: nat) { forall i :: 0 <= i < |ds| ==> ds[i] < base }

  /** How digits are written, letters in either case. */
  predicate Writes(s: string, ds: seq<nat>)
    requires AreDigits(ds, 16)
  {
    |s| == |ds| && forall i :: 0 <= i < |s| ==> s[i] == "0123456789abcdef"[ds[i]] || s[i] == "0123456789ABCDEF"[ds[i]]
  }

  /** A character that is no digit, not even a hexadecimal one. */
  predicate NoDigit(c: char) { !('0' <= c <= '9') && !('a' <= c <= 'f') && !('A' <= c <= 'F') }

  predicate Stops(tail: string) { tail == "" || NoDigit(tail[0]) }

  lemma DigitMeans(c: char, d: nat)
    requires d < 16 && (c == "0123456789abcdef"[d] || c == "0123456789ABCDEF"[d])
    ensures DigitValue(c) == d
  {
  }

  lemma {:induction false} ScanMeans(s: string, ds: seq<nat>, base: nat, tail: string)
    requires base <= 16 && AreDigits(ds, base) && Writes(s, ds) && Stops(tail)
    ensures ScanDigits(s + tail, base, 0) == Value(ds, base)
  {
    ScanRest(s, ds, [], base, tail);
    assert [] + ds == ds;
  }

  lemma NoDigitMeans(c: char)
    requires NoDigit(c)
    ensures DigitValue(c) == 99
  {
  }

  lemma {:induction false} ScanRest(s: string, ds: seq<nat>, before: seq<nat>, base: nat, tail: string)
    requires base <= 16 && AreDigits(ds, base) && Writes(s, ds) && Stops(tail)
    ensures ScanDigits(s + tail, base, Value(before, base)) == Value(before + ds, base)
    decreases |ds|
  {
    hide DigitValue;
    if ds == [] {
      assert s + tail == tail && before + ds == before;
      if tail != "" { NoDigitMeans(tail[0]); }
      hide Value;
    } else {
      DigitMeans(s[0], ds[0]);
      ValueOfMore(before, ds[0], base);
      ScanRest(s[1..], ds[1..], before + [ds[0]], base, tail);
      hide Value;
      hide NoDigit;
      assert (s + tail)[1..] == s[1..] + tail && (s + tail)[0] == s[0];
      assert before + [ds[0]] + ds[1..] == before + ds;
    }
  }

  lemma ValueOfMore(before: seq<nat>, d: nat, base: nat)
    ensures Value(before + [d], base) == Value(before, base) * base + d
  {
    assert (before + [d])[..|before|] == before;
  }

  /** What makes the number: its base and the digits, with the prefix in front. */
  predicate Form(prefix: string, s: string, ds: seq<nat>, base: nat, tail: string) {
    && (|| (base == 16 && (prefix == "0x" || prefix == "0X"))
        || (base == 8 && prefix == "0" && (s == "" ==> tail == "" || (tail[0] != 'x' && tail[0] != 'X')))
        || (base == 10 && prefix == "" && ds != [] && ds[0] != 0))
    && AreDigits(ds, base) && Writes(s, ds) && Stops(tail)
  }

  function Signed(sign: string, n: int): int { if sign == "-" then 0 - n else n }

  /** The forms sscanf accepts under %i: white space, a sign, and digits to base 16 behind 0x, to base 8 behind 0,
      and to base 10 otherwise; the value wraps to 32 bits. */
  lemma NumberForms(space: string, sign: string, prefix: string, s: string, ds: seq<nat>, base: nat, tail: string)
    requires forall i :: 0 <= i < |space| ==> space[i] == ' ' || space[i] == '\t' || space[i] == '\n' || space[i] == '\r'
    requires (sign == "" || sign == "+" || sign == "-") && Form(prefix, s, ds, base, tail)
    ensures ScanInt(space + (sign + (prefix + (s + tail)))) == Some(ToSigned(Signed(sign, Value(ds, base))))
  {
    var number := prefix + (s + tail);
    PrefixDecides(prefix, s, ds, base, tail);
    NumberStarts(prefix, s, ds, base, tail);
    hide Form;
    hide Value;
    hide ScanUnsigned;
    SignSplit(sign, number);
    SpaceSkipped(space, sign + number);
    hide SkipSpace;
    hide ToSigned;
    var all := sign + number;
    assert SkipSpace(space + all) == all;
  }

  lemma SignSplit(sign: string, number: string)
    requires (sign == "" || sign == "+" || sign == "-") && number != "" && '0' <= number[0] <= '9'
    ensures var s := sign + number;
      && s != "" && (s[0] == '+' || s[0] == '-' || '0' <= s[0] <= '9')
      && (s[0] == '-' <==> sign == "-") && (if s[0] == '-' || s[0] == '+' then s[1..] else s) == number
  {
    var s := sign + number;
    if sign == "" {
      assert s == number;
    } else {
      assert s[0] == sign[0] && s[1..] == number;
    }
  }

  lemma NumberStarts(prefix: string, s: string, ds: seq<nat>, base: nat, tail: string)
    requires Form(prefix, s, ds, base, tail)
    ensures prefix + (s + tail) != "" && '0' <= (prefix + (s + tail))[0] <= '9'
  {
    if base == 10 { assert 0 < ds[0] < 10; }
    hide Stops;
  }

  lemma PrefixDecides(prefix: string, s: string, ds: seq<nat>, base: nat, tail: string)
    requires Form(prefix, s, ds, base, tail)
    ensures ScanUnsigned(prefix + (s + tail)) == Some(Value(ds, base))
  {
    ScanMeans(s, ds, base, tail);
    if base == 16 { Hexadecimal(prefix, s + tail); }
    else if base == 8 { SecondOfOctal(s, ds, tail); Octal(s + tail); }
    else { DigitMeans(s[0], ds[0]); Decimal(s + tail, ds[0]); assert prefix + (s + tail) == s + tail; }
    hide ScanUnsigned;
    hide ScanDigits;
    hide Value;
  }

  lemma Hexadecimal(prefix: string, rest: string)
    requires prefix == "0x" || prefix == "0X"
    ensures ScanUnsigned(prefix + rest) == Some(ScanDigits(rest, 16, 0))
  {
    assert (prefix + rest)[2..] == rest && DigitValue('0') == 0;
    hide ScanDigits;
  }

  lemma SecondOfOctal(s: string, ds: seq<nat>, tail: string)
    requires AreDigits(ds, 8) && Writes(s, ds) && (s == "" ==> tail == "" || (tail[0] != 'x' && tail[0] != 'X'))
    ensures s + tail == "" || ((s + tail)[0] != 'x' && (s + tail)[0] != 'X')
  {
    if s != "" { assert ds[0] < 8; }
  }

  lemma Octal(rest: string)
    requires rest == "" || (rest[0] != 'x' && rest[0] != 'X')
    ensures ScanUnsigned("0" + rest) == Some(ScanDigits(rest, 8, 0))
  {
    var number := "0" + rest;
    assert number[1..] == rest && DigitValue('0') == 0 && number[0] == '0' && |number| == 1 + |rest|;
    assert rest != "" ==> number[1] == rest[0];
    assert ScanDigits(number, 8, 0) == ScanDigits(rest, 8, 0);
  }

  lemma Decimal(number: string, d: nat)
    requires number != "" && DigitValue(number[0]) == d && 0 < d < 10
    ensures ScanUnsigned(number) == Some(ScanDigits(number, 10, 0))
  {
    hide ScanDigits;
  }

  lemma {:induction false} SpaceSkipped(space: string, s: string)
    requires forall i :: 0 <= i < |space| ==> space[i] == ' ' || space[i] == '\t' || space[i] == '\n' || space[i] == '\r'
    requires s != "" && (s[0] == '+' || s[0] == '-' || '0' <= s[0] <= '9')
    ensures SkipSpace(space + s) == s
  {
    if space == "" {
      assert space + s == s;
    } else {
      assert (space + s)[1..] == space[1..] + s;
      SpaceSkipped(space[1..], s);
    }
  }

  /** Text that does not begin so is no number. */
  lemma NoNumber(s: string)
    requires s == "" || (NoDigit(s[0]) && s[0] != '+' && s[0] != '-' && s[0] != ' ' && !(9 <= s[0] as int <= 13))
    ensures ScanInt(s) == None
  {
  }

  /** Conversions to 32 bits, signed and not. */
  lemma Wraps(n: int)
    ensures ToUnsigned(n) == n % 4294967296
    ensures ToSigned(n) % 4294967296 == n % 4294967296 && -2147483648 <= ToSigned(n) <= 2147483647
  {
  }

  // ---------------------------------------------------------------- lines

  /** What comes behind a hash, a newline or a zero is not looked at. */
  lemma CommentIgnored(s: string, c: char, tail: string)
    requires c == '#' || c == '\n' || c == '\0'
    ensures ParseLine(s + [c] + tail) == ParseLine(s)
  {
    CommentCut(s, c, tail);
    hide ParseBody;
  }

  lemma {:induction false} CommentCut(s: string, c: char, tail: string)
    requires c == '#' || c == '\n' || c == '\0'
    ensures Uncomment(s + [c] + tail) == Uncomment(s)
  {
    if s != "" {
      assert (s + [c] + tail)[1..] == s[1..] + [c] + tail;
      CommentCut(s[1..], c, tail);
    }
  }

  /** A name of 128 characters or more does not fit, and the line is skipped. */
  lemma LongNameSkipped(name: string, tail: string)
    requires |name| >= 128 && forall i :: 0 <= i < |name| ==> name[i] != ':'
    ensures ParseBody(name + ":" + tail) == None
  {
    FieldOf(name, ":" + tail);
    assert name + ":" + tail == name + (":" + tail);
  }

  /** The polarization is one letter of h, v, l and r in either case, and only the first of its field counts. */
  lemma PolarizationLetter(c: char, more: string, tail: string, freq: u32)
    requires c != ':' && forall i :: 0 <= i < |more| ==> more[i] != ':'
    ensures var r := ParseDvbs([c] + more + ":" + tail, freq);
      && (!(c in "hvlrHVLR") ==> r == Lost)
      && (r.Got? ==> r.value.Dvbs? && r.value.polarization in "hvlr" && (r.value.polarization == c || r.value.polarization as int == c as int + 32))
      && (r.Got? ==> r.value.frequency == freq * 1000 % 4294967296 && r.value.inversion == 2 && r.value.fec == 9)
  {
    hide ScanInt;
    hide Field;
    hide Rest;
    var s := [c] + more + ":" + tail;
    FieldOf([c] + more, ":" + tail);
    assert s == [c] + more + (":" + tail);
    assert Field(s)[0] == c;
  }
}
