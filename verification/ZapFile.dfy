/** The reader and the writer of channel files (lib/libdvbcfg/dvbcfg_zapchannel.c, lines 119-216 and
    230-499): the reader cuts its line buffer into fields in place. */
module ZapFile {
  import opened Bytes
  import opened ZapText
  import opened ZapChannel
  import opened ZapRoundTrip

  /** The C string at the start of an array. */
  function CString(s: seq<char>): (t: string)
    ensures |t| <= |s| && t == s[..|t|] && (|t| < |s| ==> s[|t|] == '\0') && forall i :: 0 <= i < |t| ==> t[i] != '\0'
  {
    if s == [] || s[0] == '\0' then [] else [s[0]] + CString(s[1..])
  }

  lemma CStringIs(s: seq<char>, n: nat)
    requires n < |s| && s[n] == '\0' && forall i :: 0 <= i < n ==> s[i] != '\0'
    ensures CString(s) == s[..n]
  {
  }

  lemma TailString(s: seq<char>, n: nat)
    requires n <= |CString(s)| < |s|
    ensures CString(s[n..]) == CString(s)[n..]
  {
    var t, k := CString(s), |CString(s)| - n;
    assert forall i :: 0 <= i < k ==> s[n..][i] == t[n + i];
    CStringIs(s[n..], k);
    assert s[n..][..k] == t[n..];
  }

  lemma FieldIs(s: string, n: nat)
    requires n <= |s| && NoColon(s[..n]) && (n == |s| || s[n] == ':')
    ensures Field(s) == s[..n] && Rest(s) == if n < |s| then s[n + 1..] else ""
  {
    FieldOf(s[..n], s[n..]);
    assert s[..n] + s[n..] == s;
  }

  /** The first colon of the text, or its end. */
  lemma CutAt(s: seq<char>, n: nat)
    requires n < |s| && s[|s| - 1] == '\0' && (s[n] == '\0' || s[n] == ':')
    requires forall i :: 0 <= i < n ==> s[i] != '\0' && s[i] != ':'
    ensures Field(CString(s)) == s[..n]
    ensures Rest(CString(s)) == if s[n] == ':' then CString(s[n + 1..]) else ""
  {
    hide CString;
    hide Field;
    hide Rest;
    var t := CString(s);
    assert t[..n] == s[..n];
    if s[n] == ':' {
      assert n < |t| && t[n] == s[n];
      TailString(s, n + 1);
    } else {
      CStringIs(s, n);
    }
    FieldIs(t, n);
  }

  /** What writing a terminator at the end of a field leaves of it and behind it. */
  lemma CutDone(was: seq<char>, n: nat, tail: seq<char>)
    requires n < |was| && was[|was| - 1] == '\0' && (was[n] == '\0' || was[n] == ':')
    requires forall i :: 0 <= i < n ==> was[i] != '\0' && was[i] != ':'
    requires tail == if was[n] == ':' then was[n + 1..] else was[n..]
    ensures CString(was[n := '\0']) == Field(CString(was)) && CString(tail) == Rest(CString(was))
  {
    CutAt(was, n);
    CStringIs(was[n := '\0'], n);
    if was[n] == '\0' { CStringIs(tail, 0); }
  }

  /** line_buf, line_pos and whether line_pos is null. */
  class Line {
    const buf: array<char>
    var pos: nat
    var lost: bool

    ghost predicate Valid()
      reads this, buf
    {
      pos < buf.Length && buf[buf.Length - 1] == '\0'
    }

    /** The text the cursor stands in front of. */
    ghost function Text(): string
      reads this, buf
      requires pos <= buf.Length
    {
      CString(buf[pos..])
    }

    constructor (line: string)
      ensures Valid() && fresh(buf) && pos == 0 && !lost && buf[..] == line + "\0"
    {
      buf := new char[|line| + 1](i requires 0 <= i <= |line| => if i < |line| then line[i] else '\0');
      pos := 0;
      lost := false;
    }

    /** The loop that removes newline and comment. */
    method Strip(ghost line: string)
      requires Valid() && pos == 0 && buf[..] == line + "\0"
      modifies buf
      ensures Valid() && Text() == Uncomment(line)
    {
      ghost var s := Uncomment(line);
      var n := 0;
      while !Ends(buf[n])
        invariant n <= |line| && buf[..] == line + "\0"
        invariant forall i :: 0 <= i < n ==> !Ends(line[i])
        decreases |line| - n
      {
        n := n + 1;
      }
      assert s == line[..|s|];
      buf[n] := '\0';
      CStringIs(buf[..], n);
      assert buf[0..] == buf[..] && buf[..][..n] == line[..n];
    }

    /** The loop every dvbcfg_parse function starts with. */
    method FindEnd() returns (stop: nat)
      requires Valid()
      ensures pos <= stop < buf.Length && (buf[stop] == '\0' || buf[stop] == ':')
      ensures forall i :: pos <= i < stop ==> buf[i] != '\0' && buf[i] != ':'
    {
      stop := pos;
      while buf[stop] != '\0' && buf[stop] != ':'
        invariant pos <= stop < buf.Length
        invariant forall i :: pos <= i < stop ==> buf[i] != '\0' && buf[i] != ':'
        decreases buf.Length - stop
      {
        stop := stop + 1;
      }
    }

    /** Ends the field at its colon and returns the position behind it. */
    method Cut() returns (stop: nat)
      requires Valid()
      modifies buf
      ensures Valid() && stop < buf.Length
      ensures Text() == Field(old(Text())) && CString(buf[stop..]) == Rest(old(Text()))
    {
      stop := FindEnd();
      hide CString;
      hide Field;
      hide Rest;
      ghost var was, n := buf[pos..], stop - pos;
      ghost var tail := if buf[stop] == ':' then was[n + 1..] else was[n..];
      CutDone(was, n, tail);
      if buf[stop] == ':' {
        buf[stop] := '\0';
        stop := stop + 1;
      }
      assert buf[pos..] == was[n := '\0'];
      assert buf[stop..] == tail;
    }

    /** dvbcfg_parse_int */
    method TakeInt() returns (value: i32)
      requires Valid() && !lost
      modifies this`pos, this`lost, buf
      ensures Valid()
      ensures match ZapChannel.TakeInt(old(Text())) case Lost => lost case Got(v, rest) => !lost && value == v && Text() == rest
    {
      var stop := Cut();
      match ScanInt(CString(buf[pos..]))
      case Some(v) =>
        pos := stop;
        value := v;
      case None =>
        lost := true;
        value := -1;
    }

    /** dvbcfg_parse_char; -1 stands as any character. */
    method TakeChar() returns (value: char)
      requires Valid() && !lost
      modifies this`pos, this`lost, buf
      ensures Valid()
      ensures match ZapChannel.TakeChar(old(Text())) case Lost => lost case Got(c, rest) => !lost && value == c && Text() == rest
    {
      var stop := Cut();
      value := buf[pos];
      if value != '\0' {
        pos := stop;
      } else {
        lost := true;
      }
    }

    /** dvbcfg_parse_setting */
    method TakeSetting(t: seq<Setting>) returns (value: nat)
      requires Valid() && !lost
      modifies this`pos, this`lost, buf
      ensures Valid()
      ensures match ZapChannel.TakeSetting(old(Text()), t) case Lost => lost case Got(v, rest) => !lost && value == v && Text() == rest
    {
      var stop := Cut();
      var name := CString(buf[pos..]);
      var i := 0;
      while i < |t|
        invariant i <= |t| && ValueOf(name, t[i..]) == ValueOf(name, t)
      {
        assert t[i..][1..] == t[i + 1..];
        if t[i].name == name {
          pos := stop;
          return t[i].value;
        }
        i := i + 1;
      }
      lost := true;
      value := 0;
    }

    /** dvbcfg_parse_string into the name, an array of 128 characters. */
    method TakeName() returns (name: string)
      requires Valid() && !lost
      modifies this`pos, this`lost, buf
      ensures Valid()
      ensures match ZapChannel.TakeName(old(Text())) case Lost => lost case Got(n, rest) => !lost && name == n && Text() == rest
    {
      hide CString;
      hide Field;
      hide Rest;
      var stop := FindEnd();
      name := buf[pos..stop];
      CutAt(buf[pos..], stop - pos);
      assert buf[pos..][..stop - pos] == name;
      if stop - pos + 1 <= 128 {
        pos := Cut();
      } else {
        lost := true;
      }
    }

    /** The cursor after a successful step of the parser, which gave `r`. */
    ghost predicate Took<T>(got: Got<T>, r: Option<T>)
      reads this, buf
    {
      Valid() && match got case Lost => r == None case Got(v, rest) => r == Some(v) && !lost && Text() == rest
    }

    method ParseAtsc(freq: u32) returns (r: Option<Frontend>)
      requires Valid() && !lost
      modifies this`pos, this`lost, buf
      ensures Valid() && Took(ZapChannel.ParseAtsc(old(Text()), freq), r)
    {
      hide ZapChannel.TakeSetting;
      var modulation := TakeSetting(ATSC_MODULATIONS);
      if lost { return None; }
      return Some(Atsc(freq, INVERSION_AUTO, modulation));
    }

    method ParseDvbc(freq: u32) returns (r: Option<Frontend>)
      requires Valid() && !lost
      modifies this`pos, this`lost, buf
      ensures Valid() && Took(ZapChannel.ParseDvbc(old(Text()), freq), r)
    {
      hide ZapChannel.TakeSetting;
      hide ZapChannel.TakeInt;
      var inversion := TakeSetting(INVERSIONS);
      if lost { return None; }
      var rate := TakeInt();
      if lost { return None; }
      var fec := TakeSetting(FECS);
      if lost { return None; }
      var modulation := TakeSetting(DVBC_MODULATIONS);
      if lost { return None; }
      return Some(Dvbc(freq, inversion, ToUnsigned(rate), fec, modulation));
    }

    method ParseDvbs(freq: u32) returns (r: Option<Frontend>)
      requires Valid() && !lost
      modifies this`pos, this`lost, buf
      ensures Valid() && Took(ZapChannel.ParseDvbs(old(Text()), freq), r)
    {
      hide ZapChannel.TakeChar;
      hide ZapChannel.TakeInt;
      var c := TakeChar();
      if lost { return None; }
      if !Polarization(ToLower(c)) { return None; }
      var diseqc := TakeInt();
      if lost { return None; }
      var rate := TakeInt();
      if lost { return None; }
      return Some(Dvbs(ToUnsigned(freq as int * 1000), INVERSION_AUTO, ToUnsigned(rate as int * 1000), FEC_AUTO, ToLower(c), diseqc));
    }

    method ParseDvbt(freq: u32) returns (r: Option<Frontend>)
      requires Valid() && !lost
      modifies this`pos, this`lost, buf
      ensures Valid() && Took(ZapChannel.ParseDvbt(old(Text()), freq), r)
    {
      hide Line.Text;
      hide ZapChannel.TakeSetting;
      var inversion := TakeSetting(INVERSIONS);
      if lost { return None; }
      var bandwidth := TakeSetting(BANDWIDTHS);
      if lost { return None; }
      var high := TakeSetting(FECS);
      if lost { return None; }
      var low := TakeSetting(FECS);
      if lost { return None; }
      var constellation := TakeSetting(CONSTELLATIONS);
      if lost { return None; }
      var transmission := TakeSetting(TRANSMISSION_MODES);
      if lost { return None; }
      var guard := TakeSetting(GUARD_INTERVALS);
      if lost { return None; }
      var hierarchy := TakeSetting(HIERARCHIES);
      if lost { return None; }
      return Some(Dvbt(freq, inversion, bandwidth, high, low, constellation, transmission, guard, hierarchy));
    }

    /** The frontend type from strstr, and the settings that belong to it. */
    method ParseFrontend(freq: u32) returns (r: Option<Frontend>)
      requires Valid() && !lost
      modifies this`pos, this`lost, buf
      ensures Valid() && Took(ZapChannel.ParseFrontend(old(Text()), freq), r)
    {
      hide KindOf;
      hide ZapChannel.ParseAtsc;
      hide ZapChannel.ParseDvbc;
      hide ZapChannel.ParseDvbs;
      hide ZapChannel.ParseDvbt;
      match KindOf(CString(buf[pos..]))
      case ATSC => r := ParseAtsc(freq);
      case DVBC => r := ParseDvbc(freq);
      case DVBS => r := ParseDvbs(freq);
      case DVBT => r := ParseDvbt(freq);
    }

    /** One turn of the loop of dvbcfg_zapchannel_parse, up to the callback. */
    method ParseRecord(ghost line: string) returns (r: Option<Channel>)
      requires Valid() && !lost && pos == 0 && buf[..] == line + "\0"
      modifies this`pos, this`lost, buf
      ensures r == ParseLine(line)
    {
      hide Uncomment;
      hide CString;
      hide ZapChannel.TakeName;
      hide ZapChannel.TakeInt;
      hide ZapChannel.ParseFrontend;
      Strip(line);
      var name := TakeName();
      if lost { return None; }
      var freq := TakeInt();
      if lost { return None; }
      var frontend := ParseFrontend(ToUnsigned(freq));
      if frontend == None { return None; }
      var video := TakeInt();
      if lost { return None; }
      var audio := TakeInt();
      if lost { return None; }
      var service := TakeInt();
      if lost { service := 0; }
      return Some(Channel(name, video, audio, service, frontend.value));
    }
  }

  method ParseText(line: string) returns (r: Option<Channel>)
    ensures r == ParseLine(line)
  {
    var l := new Line(line);
    r := l.ParseRecord(line);
  }

  lemma ParseNothing()
    ensures ParseFile("") == []
  {
  }

  lemma ParseStep(done: seq<Channel>, rest: string)
    requires rest != ""
    ensures done + ParseFile(rest) ==
      (match ParseLine(rest[..LineLength(rest)]) case None => done case Some(c) => done + [c]) + ParseFile(rest[LineLength(rest)..])
  {
    hide ParseLine;
  }

  /** dvbcfg_zapchannel_parse: `answers` are what the callback returns. The channels of the file are
      delivered in order up to the first one that is not answered with zero. */
  method Parse(text: string, answers: nat -> int) returns (delivered: seq<Channel>, result: int)
    ensures delivered <= ParseFile(text)
    ensures forall k :: 0 <= k < |delivered| - 1 ==> answers(k) == 0
    ensures |delivered| < |ParseFile(text)| ==> delivered != [] && answers(|delivered| - 1) != 0
    ensures result == if delivered != [] && answers(|delivered| - 1) > 0 then answers(|delivered| - 1) else 0
  {
    hide ParseLine;
    hide ParseFile;
    var rest := text;
    delivered, result := [], 0;
    while rest != ""
      invariant ParseFile(text) == delivered + ParseFile(rest)
      invariant result == 0 && forall k :: 0 <= k < |delivered| ==> answers(k) == 0
      decreases |rest|
    {
      var n := LineLength(rest);
      ParseStep(delivered, rest);
      var c := ParseText(rest[..n]);
      rest := rest[n..];
      if c.Some? {
        result := answers(|delivered|);
        delivered := delivered + [c.value];
        if result != 0 {
          if result < 0 { result := 0; }
          return;
        }
      }
    }
    assert ParseFile("") == [] by { ParseNothing(); }
  }

  /** Fields with a colon behind each. */
  function Colons(fields: seq<string>): string { if fields == [] then "" else fields[0] + ":" + Colons(fields[1..]) }

  lemma {:induction false} ColonsJoin(a: seq<string>, b: seq<string>)
    requires b != []
    ensures Join(a + b) == Colons(a) + Join(b)
  {
    if a == [] {
      assert a + b == b;
    } else {
      assert (a + b)[1..] == a[1..] + b;
      ColonsJoin(a[1..], b);
    }
  }

  lemma {:induction false} ColonsSnoc(a: seq<string>, f: string)
    ensures Colons(a + [f]) == Colons(a) + f + ":"
  {
    if a == [] {
      assert a + [f] == [f] && Colons([f][1..]) == "";
    } else {
      assert (a + [f])[1..] == a[1..] + [f];
      ColonsSnoc(a[1..], f);
    }
  }

  /** The fprintf calls for one channel. */
  method SaveRecord(c: Channel) returns (line: string)
    ensures line == SaveLine(c)
  {
    hide FrontendFields;
    hide PrintInt;
    line := c.name + ":";
    var own := FrontendFields(c.frontend);
    var i := 0;
    while i < |own|
      invariant i <= |own| && line == Colons([c.name] + own[..i])
    {
      ColonsSnoc([c.name] + own[..i], own[i]);
      assert [c.name] + own[..i + 1] == [c.name] + own[..i] + [own[i]];
      line := line + own[i] + ":";
      i := i + 1;
    }
    assert own[..i] == own;
    ColonsJoin([c.name] + own, Pids(c));
    JoinOfThree(PrintInt(c.video), PrintInt(c.audio), PrintInt(c.service));
    line := line + (PrintInt(c.video) + ":" + PrintInt(c.audio) + ":" + PrintInt(c.service)) + "\n";
  }

  lemma JoinOfThree(a: string, b: string, c: string)
    ensures Join([a, b, c]) == a + ":" + b + ":" + c
  {
    assert [a, b, c][1..] == [b, c] && [b, c][1..] == [c];
    assert Join([b, c]) == b + ":" + c;
  }

  lemma {:induction false} SaveFileAppend(a: seq<Channel>, c: Channel)
    ensures SaveFile(a + [c]) == SaveFile(a) + SaveLine(c)
  {
    hide SaveLine;
    if a == [] {
      assert a + [c] == [c] && SaveFile([c][1..]) == "";
    } else {
      assert (a + [c])[1..] == a[1..] + [c];
      SaveFileAppend(a[1..], c);
    }
  }

  /** dvbcfg_zapchannel_save: the callback supplies `cs` and then returns `end`. */
  method Save(cs: seq<Channel>, end: int) returns (text: string, result: int)
    requires end != 0
    ensures text == SaveFile(cs) && result == if end < 0 then 0 else end
  {
    hide SaveLine;
    text := "";
    var i := 0;
    while i < |cs|
      invariant i <= |cs| && text == SaveFile(cs[..i])
    {
      var line := SaveRecord(cs[i]);
      SaveFileAppend(cs[..i], cs[i]);
      assert cs[..i + 1] == cs[..i] + [cs[i]];
      text := text + line;
      i := i + 1;
    }
    assert cs[..i] == cs;
    result := if end < 0 then 0 else end;
  }
}
