/** The CA_PMT object of EN 50221 section 8.4.3.4 as lib/libdvben50221/en50221_app_ca.c builds it from a
    program map table, and a decoder for the object written from the syntax table of the standard. */
module CaPmt {
  import opened Bytes

  const CA_DESCRIPTOR: byte := 0x09

  datatype Tlv = Tlv(tag: byte, body: seq<byte>)

  type Descriptor = d: Tlv | |d.body| < 0x100 witness Tlv(0, [])
  type Pid = n: int | 0 <= n < 0x2000 witness 0
  type Version = n: int | 0 <= n < 0x20 witness 0
  type Bit = n: int | 0 <= n < 2 witness 0

  datatype Stream = Stream(streamType: byte, pid: Pid, descriptors: seq<Descriptor>)

  datatype Pmt = Pmt(program: u16, version: Version, current: Bit, descriptors: seq<Descriptor>, streams: seq<Stream>)

  /** What goes into the object: the CA descriptors of the programme and of each stream. */
  datatype Chosen = Chosen(program: seq<Descriptor>, streams: seq<Stream>)

  function CaOf(ds: seq<Descriptor>): seq<Descriptor> {
    if ds == [] then [] else (if ds[0].tag == CA_DESCRIPTOR then [ds[0]] else []) + CaOf(ds[1..])
  }

  /** CaOf leaves the descriptors with tag 9 in place and drops the others. */
  lemma {:induction false} CaOfMeans(a: seq<Descriptor>, d: Descriptor, b: seq<Descriptor>)
    ensures CaOf(a + [d] + b) == CaOf(a) + (if d.tag == 9 then [d] else []) + CaOf(b) && CaOf([]) == []
    decreases |a|
  {
    if a == [] {
      assert ([] + [d] + b)[1..] == b && [] + (if d.tag == 9 then [d] else []) + CaOf(b) == (if d.tag == 9 then [d] else []) + CaOf(b);
    } else {
      assert (a + [d] + b)[0] == a[0] && (a + [d] + b)[1..] == a[1..] + [d] + b;
      CaOfMeans(a[1..], d, b);
    }
  }

  function CaStreams(ss: seq<Stream>): (r: seq<Stream>)
    ensures |r| == |ss| && forall i :: 0 <= i < |ss| ==> r[i] == ss[i].(descriptors := CaOf(ss[i].descriptors))
  {
    if ss == [] then [] else [ss[0].(descriptors := CaOf(ss[0].descriptors))] + CaStreams(ss[1..])
  }

  function Bare(ss: seq<Stream>): (r: seq<Stream>)
    ensures |r| == |ss| && forall i :: 0 <= i < |ss| ==> r[i] == ss[i].(descriptors := [])
  {
    if ss == [] then [] else [ss[0].(descriptors := [])] + Bare(ss[1..])
  }

  predicate Alike(ss: seq<Stream>) { forall i :: 0 <= i < |ss| ==> ss[i].descriptors == ss[0].descriptors }

  /** en50221_ca_try_move_pmt_descriptors */
  function Hoisted(ss: seq<Stream>): Chosen {
    if ss != [] && Alike(ss) then Chosen(ss[0].descriptors, Bare(ss)) else Chosen([], ss)
  }

  function Choose(pmt: Pmt, move: bool): Chosen {
    var program, streams := CaOf(pmt.descriptors), CaStreams(pmt.streams);
    if program == [] && move then Hoisted(streams) else Chosen(program, streams)
  }

  // ---------------------------------------------------------------- octets

  function DescriptorBytes(d: Descriptor): seq<byte> { [d.tag, |d.body|] + d.body }

  function LoopBody(ds: seq<Descriptor>): (b: seq<byte>)
    ensures b == [] <==> ds == []
  {
    if ds == [] then [] else DescriptorBytes(ds[0]) + LoopBody(ds[1..])
  }

  /** The length field of a descriptor loop: the command identifier is counted with the descriptors. */
  function LoopLength(ds: seq<Descriptor>): nat { if ds == [] then 0 else |LoopBody(ds)| + 1 }

  function LengthBytes(n: nat): seq<byte> { [n / 0x100 % 0x10, n % 0x100] }

  function LoopBytes(ds: seq<Descriptor>, cmd: byte): (b: seq<byte>)
    ensures |b| == 2 + LoopLength(ds)
  {
    LengthBytes(LoopLength(ds)) + if ds == [] then [] else [cmd] + LoopBody(ds)
  }

  function StreamHead(s: Stream): (b: seq<byte>)
    ensures |b| == 3
  {
    [s.streamType, s.pid / 0x100 % 0x20, s.pid % 0x100]
  }

  function StreamBytes(s: Stream, cmd: byte): (b: seq<byte>)
    ensures |b| == 5 + LoopLength(s.descriptors)
  {
    StreamHead(s) + LoopBytes(s.descriptors, cmd)
  }

  function StreamsBytes(ss: seq<Stream>, cmd: byte): seq<byte> {
    if ss == [] then [] else StreamBytes(ss[0], cmd) + StreamsBytes(ss[1..], cmd)
  }

  function HeaderBytes(pmt: Pmt, management: byte): seq<byte> {
    [management, High(pmt.program), Low(pmt.program), pmt.version * 2 + pmt.current]
  }

  /** The octets en50221_ca_format_pmt writes. */
  function ObjectBytes(pmt: Pmt, c: Chosen, management: byte, cmd: byte): seq<byte> {
    HeaderBytes(pmt, management) + LoopBytes(c.program, cmd) + StreamsBytes(c.streams, cmd)
  }

  function StreamsLength(ss: seq<Stream>): nat {
    if ss == [] then 0 else 5 + LoopLength(ss[0].descriptors) + StreamsLength(ss[1..])
  }

  /** en50221_ca_calculate_length */
  function RequiredLength(c: Chosen): nat { 6 + LoopLength(c.program) + StreamsLength(c.streams) }

  lemma {:induction false} StreamsLengthIsExact(ss: seq<Stream>, cmd: byte)
    ensures |StreamsBytes(ss, cmd)| == StreamsLength(ss)
  {
    if ss != [] { StreamsLengthIsExact(ss[1..], cmd); }
  }

  /** The space asked for is the space written. */
  lemma LengthIsExact(pmt: Pmt, c: Chosen, management: byte, cmd: byte)
    ensures |ObjectBytes(pmt, c, management, cmd)| == RequiredLength(c)
  {
    StreamsLengthIsExact(c.streams, cmd);
  }

  // ---------------------------------------------------------------- hoisting

  /** The CA descriptors in force for a stream: those of the programme and its own. */
  function Effective(c: Chosen, i: nat): seq<Descriptor>
    requires i < |c.streams|
  {
    c.program + c.streams[i].descriptors
  }

  lemma {:induction false} BareLength(ss: seq<Stream>)
    ensures StreamsLength(Bare(ss)) == 5 * |ss|
    ensures StreamsLength(ss) >= 5 * |ss| + if ss == [] then 0 else LoopLength(ss[0].descriptors)
  {
    if ss != [] { BareLength(ss[1..]); }
  }

  /** There are streams, and the same CA descriptors, at least one, are in force for all of them. */
  predicate OneForAll(c: Chosen) {
    && c.streams != [] && Effective(c, 0) != []
    && forall i, k :: 0 <= i < |c.streams| && 0 <= k < |c.streams| ==> Effective(c, i) == Effective(c, k)
  }

  /** Moving descriptors to the programme level keeps every stream and the CA descriptors in force for
      it, and never makes the object longer. Descriptors move exactly when the programme has none and all
      streams have the same, at least one; otherwise nothing changes. */
  lemma HoistingKeepsMeaning(pmt: Pmt)
    ensures var c, m := Choose(pmt, false), Choose(pmt, true);
      && |m.streams| == |c.streams| == |pmt.streams|
      && (forall i :: 0 <= i < |m.streams| ==>
        && m.streams[i].streamType == pmt.streams[i].streamType && m.streams[i].pid == pmt.streams[i].pid
        && Effective(m, i) == Effective(c, i) == CaOf(pmt.descriptors) + CaOf(pmt.streams[i].descriptors))
      && RequiredLength(m) <= RequiredLength(c)
      && (m != c <==> CaOf(pmt.descriptors) == [] && OneForAll(c))
      && (m != c ==> forall i :: 0 <= i < |m.streams| ==> m.streams[i].descriptors == [])
      && (CaOf(pmt.descriptors) == [] && (forall i, k :: 0 <= i < |c.streams| && 0 <= k < |c.streams| ==> Effective(c, i) == Effective(c, k))
        ==> forall i :: 0 <= i < |m.streams| ==> m.streams[i].descriptors == [])
  {
    hide CaOf;
    hide StreamsLength;
    hide LoopLength;
    var ss := CaStreams(pmt.streams);
    var c := Choose(pmt, false);
    BareLength(ss);
    if CaOf(pmt.descriptors) == [] {
      assert forall i :: 0 <= i < |ss| ==> Effective(c, i) == ss[i].descriptors;
    }
  }

  // ---------------------------------------------------------------- decoding

  /** A descriptor loop as received: the command identifier is there when the loop is not empty. */
  datatype Loop = Loop(cmd: Option<byte>, descriptors: seq<Descriptor>)

  datatype Component = Component(streamType: byte, pid: Pid, loop: Loop)

  datatype Object = Object(management: byte, program: u16, version: Version, current: Bit, loop: Loop, components: seq<Component>)

  function Length12(high: byte, low: byte): nat { (high as int) % 0x10 * 0x100 + low as int }

  function Pid13(high: byte, low: byte): Pid { (high as int) % 0x20 * 0x100 + low as int }

  function DescriptorEnd(length: byte): nat { 2 + length as int }

  /** Back to back descriptors that fill the octets exactly. */
  function DecodeDescriptors(b: seq<byte>): Option<seq<Descriptor>> {
    if b == [] then Some([])
    else if |b| < 2 || |b| < DescriptorEnd(b[1]) then None
    else
      match DecodeDescriptors(b[DescriptorEnd(b[1])..])
      case None => None
      case Some(rest) => Some([Tlv(b[0], b[2..DescriptorEnd(b[1])])] + rest)
  }

  /** A loop and the octets behind it. */
  function DecodeLoop(b: seq<byte>): (r: Option<(Loop, seq<byte>)>)
    ensures r.Some? ==> |r.value.1| < |b|
  {
    if |b| < 2 then None else
      var n := Length12(b[0], b[1]);
      if |b| < 2 + n then None
      else if n == 0 then Some((Loop(None, []), b[2..]))
      else
        match DecodeDescriptors(b[3..2 + n])
        case None => None
        case Some(ds) => Some((Loop(Some(b[2]), ds), b[2 + n..]))
  }

  function DecodeComponents(b: seq<byte>): Option<seq<Component>>
    decreases |b|
  {
    if b == [] then Some([])
    else if |b| < 3 then None
    else
      match DecodeLoop(b[3..])
      case None => None
      case Some((loop, rest)) =>
        match DecodeComponents(rest)
        case None => None
        case Some(more) => Some([Component(b[0], Pid13(b[1], b[2]), loop)] + more)
  }

  function Decode(b: seq<byte>): Option<Object> {
    if |b| < 4 then None else
      match DecodeLoop(b[4..])
      case None => None
      case Some((loop, rest)) =>
        match DecodeComponents(rest)
        case None => None
        case Some(cs) => Some(Object(b[0], Word(b[1], b[2]), b[3] / 2 % 0x20, b[3] % 2, loop, cs))
  }

  /** What the object is meant to say. */
  function LoopMeant(ds: seq<Descriptor>, cmd: byte): Loop { Loop(if ds == [] then None else Some(cmd), ds) }

  function ComponentsMeant(ss: seq<Stream>, cmd: byte): seq<Component> {
    if ss == [] then [] else [Component(ss[0].streamType, ss[0].pid, LoopMeant(ss[0].descriptors, cmd))] + ComponentsMeant(ss[1..], cmd)
  }

  function ObjectMeant(pmt: Pmt, c: Chosen, management: byte, cmd: byte): Object {
    Object(management, pmt.program, pmt.version, pmt.current, LoopMeant(c.program, cmd), ComponentsMeant(c.streams, cmd))
  }

  /** The length field of a loop has 12 bits. */
  predicate LoopFits(ds: seq<Descriptor>) { LoopLength(ds) < 0x1000 }

  predicate Fits(c: Chosen) {
    LoopFits(c.program) && forall i :: 0 <= i < |c.streams| ==> LoopFits(c.streams[i].descriptors)
  }

  lemma {:induction false} DescriptorsRoundTrip(ds: seq<Descriptor>)
    ensures DecodeDescriptors(LoopBody(ds)) == Some(ds)
  {
    if ds != [] {
      var b, rest := LoopBody(ds), LoopBody(ds[1..]);
      assert b == [ds[0].tag, |ds[0].body|] + (ds[0].body + rest);
      var end := DescriptorEnd(b[1]);
      assert b[2..end] == ds[0].body && b[end..] == rest;
      DescriptorsRoundTrip(ds[1..]);
      assert Tlv(b[0], b[2..end]) == ds[0] && [ds[0]] + ds[1..] == ds;
    }
  }

  lemma Length12Means(n: nat)
    requires n < 0x1000
    ensures Length12(LengthBytes(n)[0], LengthBytes(n)[1]) == n
  {
  }

  lemma Pid13Means(pid: Pid)
    ensures Pid13(pid / 0x100 % 0x20, pid % 0x100) == pid
  {
  }

  lemma LoopRoundTrip(ds: seq<Descriptor>, cmd: byte, tail: seq<byte>)
    requires LoopFits(ds)
    ensures DecodeLoop(LoopBytes(ds, cmd) + tail) == Some((LoopMeant(ds, cmd), tail))
  {
    var b, n := LoopBytes(ds, cmd) + tail, LoopLength(ds);
    Length12Means(n);
    assert Length12(b[0], b[1]) == n;
    hide LengthBytes;
    hide Length12;
    assert b[2 + n..] == tail;
    if ds != [] {
      assert b[2] == cmd && b[3..2 + n] == LoopBody(ds);
      DescriptorsRoundTrip(ds);
    }
  }

  lemma {:induction false} ComponentsRoundTrip(ss: seq<Stream>, cmd: byte)
    requires forall i :: 0 <= i < |ss| ==> LoopFits(ss[i].descriptors)
    ensures DecodeComponents(StreamsBytes(ss, cmd)) == Some(ComponentsMeant(ss, cmd))
  {
    if ss != [] {
      ComponentsRoundTrip(ss[1..], cmd);
      FirstComponent(ss[0], cmd, StreamsBytes(ss[1..], cmd));
      hide DecodeComponents;
      hide StreamBytes;
    }
  }

  /** The component in front is decoded, then those behind it. */
  lemma FirstComponent(s: Stream, cmd: byte, tail: seq<byte>)
    requires LoopFits(s.descriptors) && DecodeComponents(tail).Some?
    ensures DecodeComponents(StreamBytes(s, cmd) + tail) ==
      Some([Component(s.streamType, s.pid, LoopMeant(s.descriptors, cmd))] + DecodeComponents(tail).value)
  {
    hide LoopBytes;
    hide DecodeLoop;
    hide LoopFits;
    hide LoopMeant;
    LoopRoundTrip(s.descriptors, cmd, tail);
    HeadMeans(s);
    hide StreamHead;
    hide Pid13;
    var b := StreamBytes(s, cmd) + tail;
    assert b == StreamHead(s) + (LoopBytes(s.descriptors, cmd) + tail);
    assert b[..3] == StreamHead(s) && b[3..] == LoopBytes(s.descriptors, cmd) + tail;
  }

  lemma HeadMeans(s: Stream)
    ensures StreamHead(s)[0] == s.streamType && Pid13(StreamHead(s)[1], StreamHead(s)[2]) == s.pid
  {
    Pid13Means(s.pid);
  }

  // A decoded loop is never longer than its 12-bit length field says.

  lemma {:induction false} DecodedDescriptorsFill(b: seq<byte>)
    requires DecodeDescriptors(b).Some?
    ensures |LoopBody(DecodeDescriptors(b).value)| == |b|
  {
    if b != [] { DecodedDescriptorsFill(b[DescriptorEnd(b[1])..]); }
  }

  lemma DecodedLoopFits(b: seq<byte>)
    requires DecodeLoop(b).Some?
    ensures LoopFits(DecodeLoop(b).value.0.descriptors)
  {
    var n := Length12(b[0], b[1]);
    if n > 0 { DecodedDescriptorsFill(b[3..2 + n]); }
  }

  lemma {:induction false} DecodedComponentsFit(b: seq<byte>)
    requires DecodeComponents(b).Some?
    ensures forall c :: c in DecodeComponents(b).value ==> LoopFits(c.loop.descriptors)
    decreases |b|
  {
    if b != [] {
      DecodedLoopFits(b[3..]);
      DecodedComponentsFit(DecodeLoop(b[3..]).value.1);
    }
  }

  lemma {:induction false} MeantAt(ss: seq<Stream>, cmd: byte, i: nat)
    requires i < |ss|
    ensures |ComponentsMeant(ss, cmd)| == |ss|
    ensures ComponentsMeant(ss, cmd)[i] == Component(ss[i].streamType, ss[i].pid, LoopMeant(ss[i].descriptors, cmd))
  {
    if |ss| > 1 { MeantAt(ss[1..], cmd, if i > 0 then i - 1 else 0); }
  }

  lemma ObjectFields(pmt: Pmt, c: Chosen, management: byte, cmd: byte)
    ensures var b := ObjectBytes(pmt, c, management, cmd);
      && |b| >= 4 && b[4..] == LoopBytes(c.program, cmd) + StreamsBytes(c.streams, cmd)
      && b[0] == management && Word(b[1], b[2]) == pmt.program && b[3] / 2 % 0x20 == pmt.version && b[3] % 2 == pmt.current
  {
    var h, rest := HeaderBytes(pmt, management), LoopBytes(c.program, cmd) + StreamsBytes(c.streams, cmd);
    HeaderMeans(pmt, management);
    assert ObjectBytes(pmt, c, management, cmd) == h + rest;
    hide HeaderBytes;
    hide ObjectBytes;
    hide Word;
    assert (h + rest)[..4] == h && (h + rest)[4..] == rest;
  }

  lemma HeaderMeans(pmt: Pmt, management: byte)
    ensures var h := HeaderBytes(pmt, management);
      && |h| == 4 && h[0] == management && Word(h[1], h[2]) == pmt.program && h[3] / 2 % 0x20 == pmt.version && h[3] % 2 == pmt.current
  {
    WordOfHighLow(pmt.program);
    hide High;
    hide Low;
    hide Word;
  }

  /** The object decodes to what it was made from exactly when every loop, command identifier included,
      is shorter than 4096 octets. */
  lemma ObjectRoundTrip(pmt: Pmt, c: Chosen, management: byte, cmd: byte)
    ensures Decode(ObjectBytes(pmt, c, management, cmd)) == Some(ObjectMeant(pmt, c, management, cmd)) <==> Fits(c)
  {
    var b := ObjectBytes(pmt, c, management, cmd);
    ObjectFields(pmt, c, management, cmd);
    hide ObjectBytes;
    hide LoopBytes;
    hide DecodeLoop;
    hide LoopFits;
    hide Word;
    if Fits(c) {
      LoopRoundTrip(c.program, cmd, StreamsBytes(c.streams, cmd));
      ComponentsRoundTrip(c.streams, cmd);
    }
    if Decode(b) == Some(ObjectMeant(pmt, c, management, cmd)) {
      DecodedLoopFits(b[4..]);
      DecodedComponentsFit(DecodeLoop(b[4..]).value.1);
      forall i | 0 <= i < |c.streams| ensures LoopFits(c.streams[i].descriptors) {
        MeantAt(c.streams, cmd, i);
        assert LoopFits(ComponentsMeant(c.streams, cmd)[i].loop.descriptors);
      }
    }
  }
}
