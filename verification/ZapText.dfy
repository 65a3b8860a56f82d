/** The text of a channel file of lib/libdvbcfg/dvbcfg_zapchannel.c: numbers as printf and sscanf treat
    them under `%i`, and fields between colons. */
module ZapText {
  import opened Bytes

  type i32 = n: int | -0x8000_0000 <= n < 0x8000_0000 witness 0
  type u32 = n: int | 0 <= n < 0x1_0000_0000 witness 0

  /** Conversion to int and to uint32_t, which wrap. */
  function ToUnsigned(n: int): u32 { n % 0x1_0000_0000 }

  function ToSigned(n: int): i32 {
    var u := ToUnsigned(n);
    if u < 0x8000_0000 then u else u - 0x1_0000_0000
  }

  // ---------------------------------------------------------------- numbers

  function DigitChar(d: nat): char
    requires d < 10
  {
    "0123456789"[d]
  }

  function Digits(n: nat): (s: string)
    ensures |s| > 0
  {
    if n < 10 then [DigitChar(n)] else Digits(n / 10) + [DigitChar(n % 10)]
  }

  /** printf with `%i` */
  function PrintInt(n: int): string { if n < 0 then "-" + Digits(-n) else Digits(n) }

  /** The value of a digit, or 99. */
  function DigitValue(c: char): nat {
    if '0' <= c <= '9' then c as int - '0' as int
    else if 'a' <= c <= 'f' then c as int - 'a' as int + 10
    else if 'A' <= c <= 'F' then c as int - 'A' as int + 10
    else 99
  }

  /** The digits `s` starts with, behind those that gave `acc`. */
  function ScanDigits(s: string, base: nat, acc: nat): nat {
    if s == "" || DigitValue(s[0]) >= base then acc else ScanDigits(s[1..], base, acc * base + DigitValue(s[0]))
  }

  predicate IsSpace(c: char) { c == ' ' || 0x09 <= c as int <= 0x0d }

  function SkipSpace(s: string): string { if s != "" && IsSpace(s[0]) then SkipSpace(s[1..]) else s }

  /** Behind the sign: the prefix decides on the base. */
  function ScanUnsigned(s: string): Option<nat> {
    if s == "" || DigitValue(s[0]) >= 10 then None
    else if s[0] != '0' then Some(ScanDigits(s, 10, 0))
    else if |s| > 1 && (s[1] == 'x' || s[1] == 'X') then Some(ScanDigits(s[2..], 16, 0))
    else Some(ScanDigits(s, 8, 0))
  }

  /** sscanf with `%i` */
  function ScanInt(text: string): Option<i32> {
    var s := SkipSpace(text);
    var signed := s != "" && (s[0] == '-' || s[0] == '+');
    match ScanUnsigned(if signed then s[1..] else s)
    case None => None
    case Some(n) => Some(ToSigned((if signed && s[0] == '-' then -1 else 1) * n))
  }

  predicate AllDigits(s: string) { forall i :: 0 <= i < |s| ==> '0' <= s[i] <= '9' }

  lemma {:induction false} ScanAppend(a: string, c: char, acc: nat)
    requires AllDigits(a) && '0' <= c <= '9'
    ensures ScanDigits(a + [c], 10, acc) == ScanDigits(a, 10, acc) * 10 + DigitValue(c)
  {
    if a == "" {
      assert a + [c] == [c] && [c][1..] == "";
      assert ScanDigits([c][1..], 10, acc * 10 + DigitValue(c)) == acc * 10 + DigitValue(c);
    } else {
      assert (a + [c])[1..] == a[1..] + [c];
      ScanAppend(a[1..], c, acc * 10 + DigitValue(a[0]));
    }
  }

  lemma DigitCharMeans(d: nat)
    requires d < 10
    ensures '0' <= DigitChar(d) <= '9' && DigitValue(DigitChar(d)) == d && (DigitChar(d) == '0' <==> d == 0)
  {
  }

  lemma {:induction false} DigitsMean(n: nat)
    ensures AllDigits(Digits(n)) && ScanDigits(Digits(n), 10, 0) == n && (Digits(n)[0] == '0' <==> n == 0)
  {
    DigitCharMeans(n % 10);
    if n < 10 {
      assert Digits(n)[1..] == "";
      assert ScanDigits(Digits(n)[1..], 10, n) == n;
    } else {
      DigitsMean(n / 10);
      ScanAppend(Digits(n / 10), DigitChar(n % 10), 0);
      assert Digits(n)[0] == Digits(n / 10)[0];
    }
  }

  /** A printed number scans back to itself. */
  lemma IntRoundTrip(n: i32)
    ensures ScanInt(PrintInt(n)) == Some(n)
  {
    var u: int := n;
    u := if n < 0 then 0 - u else u;
    var s, d := PrintInt(n), Digits(u);
    DigitsMean(u);
    assert '0' <= d[0] <= '9';
    assert SkipSpace(s) == s;
    if n < 0 { assert s[1..] == d; }
    if u == 0 {
      assert d == "0" && d[1..] == "";
      assert ScanDigits(d[1..], 8, 0) == 0;
    }
  }

  /** Numbers are printed without a leading zero, with a sign only if they are negative. */
  lemma PrintMeans(n: int)
    ensures n >= 0 ==> AllDigits(PrintInt(n)) && PrintInt(n) != "" && (PrintInt(n)[0] == '0' <==> n == 0)
    ensures n < 0 ==> PrintInt(n) == "-" + PrintInt(0 - n)
    ensures PrintInt(0) == "0"
  {
    var u: int := if n < 0 then 0 - n else n;
    DigitsMean(u);
  }

  lemma SignsCancel(n: u32)
    ensures ToUnsigned(ToSigned(n)) == n
  {
  }

  // ---------------------------------------------------------------- fields

  predicate NoColon(s: string) { forall i :: 0 <= i < |s| ==> s[i] != ':' }

  /** The text up to the next colon, and the text behind that colon. */
  function Field(s: string): (f: string)
    ensures NoColon(f) && |f| <= |s| && f == s[..|f|] && (|f| < |s| ==> s[|f|] == ':')
  {
    if s == "" || s[0] == ':' then "" else [s[0]] + Field(s[1..])
  }

  function Rest(s: string): string {
    if |Field(s)| < |s| then s[|Field(s)| + 1..] else ""
  }

  function Join(fields: seq<string>): string {
    if fields == [] then "" else if |fields| == 1 then fields[0] else fields[0] + ":" + Join(fields[1..])
  }

  predicate Colonless(fields: seq<string>) { forall i :: 0 <= i < |fields| ==> NoColon(fields[i]) }

  lemma {:induction false} FieldOf(f: string, tail: string)
    requires NoColon(f) && (tail == "" || tail[0] == ':')
    ensures Field(f + tail) == f
  {
    if f != "" {
      assert (f + tail)[1..] == f[1..] + tail;
      FieldOf(f[1..], tail);
    } else {
      assert f + tail == tail;
    }
  }

  /** Reading a field off joined fields. */
  lemma TakeField(fields: seq<string>)
    requires fields != [] && Colonless(fields)
    ensures Field(Join(fields)) == fields[0] && Rest(Join(fields)) == Join(fields[1..])
  {
    var f := fields[0];
    if |fields| == 1 {
      FieldOf(f, "");
      assert f + "" == f;
    } else {
      var tail := ":" + Join(fields[1..]);
      FieldOf(f, tail);
      assert Join(fields) == f + tail;
    }
  }

  predicate OccursAt(s: string, p: string, i: nat) {
    i + |p| <= |s| && forall k :: 0 <= k < |p| ==> p[k] == s[i + k]
  }

  predicate StartsWith(s: string, p: string) { OccursAt(s, p, 0) }

  predicate EndsWith(s: string, p: string) { |p| <= |s| && OccursAt(s, p, |s| - |p|) }

  /** strstr */
  predicate Contains(s: string, p: string) { exists i :: 0 <= i <= |s| && OccursAt(s, p, i) }

  lemma StartOfFirst(f: string, tail: string, p: string)
    requires NoColon(f) && NoColon(p)
    ensures StartsWith(f + ":" + tail, p) <==> StartsWith(f, p)
  {
    var s := f + ":" + tail;
    assert s[|f|] == ':' && forall k :: 0 <= k < |f| ==> s[k] == f[k];
    assert |p| > |f| ==> p[|f|] != ':';
  }

  lemma ColonFirst(f: string, tail: string, p: string, i: nat)
    requires NoColon(f) && NoColon(p)
    ensures OccursAt(f + ":" + tail, ":" + p, i) <==>
      (i == |f| && OccursAt(tail, p, 0)) || (i > |f| && OccursAt(tail, ":" + p, i - |f| - 1))
  {
    var s, a, n := f + ":" + tail, ":" + p, |f| + 1;
    assert forall k :: 0 <= k < |tail| ==> tail[k] == s[n + k];
    assert forall k :: 0 <= k < |p| ==> p[k] == a[k + 1];
    if OccursAt(s, a, i) {
      assert a[0] == s[i + 0];
      if i == |f| {
        forall k | 0 <= k < |p| ensures p[k] == tail[0 + k] { assert a[k + 1] == s[i + (k + 1)]; }
      } else {
        forall k | 0 <= k < |a| ensures a[k] == tail[i - n + k] { assert a[k] == s[i + k]; }
      }
    }
    if i == |f| && OccursAt(tail, p, 0) {
      forall k | 0 <= k < |a| ensures a[k] == s[i + k] { if k > 0 { assert p[k - 1] == tail[0 + (k - 1)]; } }
    }
    if i > |f| && OccursAt(tail, a, i - n) {
      forall k | 0 <= k < |a| ensures a[k] == s[i + k] { assert a[k] == tail[i - n + k]; }
    }
  }

  lemma ColonLast(f: string, tail: string, p: string, i: nat)
    requires NoColon(f) && NoColon(p)
    ensures OccursAt(f + ":" + tail, p + ":", i) <==>
      (i + |p| == |f| && OccursAt(f, p, i)) || (i > |f| && OccursAt(tail, p + ":", i - |f| - 1))
  {
    var s, b, n := f + ":" + tail, p + ":", |f| + 1;
    assert 0 <= |f| - i < |p| ==> b[|f| - i] == p[|f| - i] != s[i + (|f| - i)];
    assert forall k :: 0 <= k < |tail| ==> tail[k] == s[n + k];
    if OccursAt(s, b, i) {
      assert b[|p|] == s[i + |p|];
      if i + |p| == |f| {
        forall k | 0 <= k < |p| ensures p[k] == f[i + k] { assert b[k] == s[i + k]; }
      } else {
        forall k | 0 <= k < |b| ensures b[k] == tail[i - n + k] { assert b[k] == s[i + k]; }
      }
    }
    if i + |p| == |f| && OccursAt(f, p, i) {
      forall k | 0 <= k < |b| ensures b[k] == s[i + k] { if k < |p| { assert p[k] == f[i + k]; } }
    }
    if i > |f| && OccursAt(tail, b, i - n) {
      forall k | 0 <= k < |b| ensures b[k] == s[i + k] { assert b[k] == tail[i - n + k]; }
    }
  }

  lemma ContainsStep(f: string, tail: string, p: string)
    requires NoColon(f) && NoColon(p)
    ensures Contains(f + ":" + tail, ":" + p) <==> StartsWith(tail, p) || Contains(tail, ":" + p)
    ensures Contains(f + ":" + tail, p + ":") <==> EndsWith(f, p) || Contains(tail, p + ":")
  {
    var s, a, b, n := f + ":" + tail, ":" + p, p + ":", |f| + 1;
    forall i: nat
      ensures OccursAt(s, a, i) <==> (i == |f| && OccursAt(tail, p, 0)) || (i > |f| && OccursAt(tail, a, i - n))
      ensures OccursAt(s, b, i) <==> (i + |p| == |f| && OccursAt(f, p, i)) || (i > |f| && OccursAt(tail, b, i - n))
    {
      ColonFirst(f, tail, p, i);
      ColonLast(f, tail, p, i);
    }
    hide OccursAt;
    if StartsWith(tail, p) { assert OccursAt(s, a, |f|); }
    if i :| 0 <= i <= |tail| && OccursAt(tail, a, i) { assert OccursAt(s, a, i + n); }
    if EndsWith(f, p) { assert OccursAt(s, b, |f| - |p|); }
    if i :| 0 <= i <= |tail| && OccursAt(tail, b, i) { assert OccursAt(s, b, i + n); }
  }

  /** A text with a colon at its start occurs in joined fields exactly when a field behind the first
      starts with the rest of it; one with a colon at its end, when a field before the last ends so. */
  lemma {:induction false} ContainsMeans(fields: seq<string>, p: string)
    requires fields != [] && Colonless(fields) && NoColon(p)
    ensures Contains(Join(fields), ":" + p) <==> exists k :: 1 <= k < |fields| && StartsWith(fields[k], p)
    ensures Contains(Join(fields), p + ":") <==> exists k :: 0 <= k < |fields| - 1 && EndsWith(fields[k], p)
  {
    if |fields| == 1 {
      var s, a, b := Join(fields), ":" + p, p + ":";
      assert a[0] == ':' && b[|p|] == ':';
    } else {
      var more := fields[1..];
      ContainsMeans(more, p);
      ContainsStep(fields[0], Join(more), p);
      if |more| > 1 { StartOfFirst(more[0], Join(more[1..]), p); }
      assert StartsWith(Join(more), p) <==> StartsWith(fields[1], p);
      assert forall k :: 0 <= k < |more| ==> more[k] == fields[k + 1];
      if k :| 1 <= k < |fields| && StartsWith(fields[k], p) { assert k > 1 ==> StartsWith(more[k - 1], p); }
      if k :| 0 <= k < |fields| - 1 && EndsWith(fields[k], p) { assert k > 0 ==> EndsWith(more[k - 1], p); }
      if k :| 1 <= k < |more| && StartsWith(more[k], p) { assert StartsWith(fields[k + 1], p); }
      if k :| 0 <= k < |more| - 1 && EndsWith(more[k], p) { assert EndsWith(fields[k + 1], p); }
    }
  }
}
