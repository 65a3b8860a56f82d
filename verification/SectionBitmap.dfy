/** parse_section and read_sections of util/scan/scan.c (lines 1100-1280) on values: which sections of a table have been seen,
    for each segment of a segmented table, and which are handed to a table parser. */
module SectionBitmap {
  import opened Bytes

  /** The header fields of a section that the function looks at. */
  datatype Header = Header(tableId: byte, length: nat, ext: u16, version: nat, number: byte, last: byte)

  function HeaderOf(buf: seq<byte>): Header
    requires |buf| >= 8
  {
    Header(buf[0], (buf[1] as int) % 0x10 * 0x100 + buf[2] as int, Word(buf[3], buf[4]), (buf[5] as int) / 2 % 0x20, buf[6], buf[7])
  }

  /** The record of one segment: what it currently collects (-1 at first), the section numbers recorded,
      and sectionfilter_done. */
  datatype Segment = Segment(ext: int, version: int, done: set<byte>, complete: bool)

  /** A filter with its chain of segments, the filter itself first. */
  datatype Filter = Filter(tableId: int, segmented: bool, segments: seq<Segment>)

  /** setup_filter; `ext` is -1 for any. */
  function SetUp(tableId: int, segmented: bool, ext: int): Filter { Filter(tableId, segmented, [Segment(ext, -1, {}, false)]) }

  datatype Answer = Unknown | Expecting | AllRead

  /** The position of a segment in a chain, or the length of the chain. */
  function Find(segments: seq<Segment>, ext: u16): (k: nat)
    ensures k <= |segments| && (k < |segments| ==> segments[k].ext == ext) && forall i :: 0 <= i < k ==> segments[i].ext != ext
  {
    if segments == [] || segments[0].ext == ext then 0 else 1 + Find(segments[1..], ext)
  }

  /** The chain, lengthened if need be, and the position of the segment a section belongs to. */
  function Select(f: Filter, h: Header): (r: (seq<Segment>, nat))
    requires f.segments != []
    ensures r.1 < |r.0|
  {
    if !f.segmented || f.segments[0].ext == -1 then (f.segments, 0)
    else if Find(f.segments, h.ext) < |f.segments| then (f.segments, Find(f.segments, h.ext))
    else (f.segments + [Segment(h.ext, h.version, {}, false)], |f.segments|)
  }

  /** A new version or extension starts over. */
  function Restarted(s: Segment, h: Header): Segment {
    if s.version != h.version || s.ext != h.ext then Segment(h.ext, h.version, {}, false) else s
  }

  predicate AllDone(done: set<byte>, last: byte) { forall i: byte :: i <= last ==> i in done }

  function Recorded(s: Segment, h: Header): Segment {
    var done := s.done + {h.number};
    s.(done := done, complete := s.complete || AllDone(done, h.last))
  }

  lemma NotAllDone(done: set<byte>, last: byte, i: byte)
    requires i <= last && i !in done
    ensures !AllDone(done, last)
  {
  }

  predicate Truncated(h: Header) { h.length < 9 }

  /** parse_section: the new state, the answer, and whether the section goes to a table parser. */
  function Parse(f: Filter, h: Header): (Filter, Answer, bool)
    requires f.segments != []
  {
    if f.tableId != h.tableId then (f, Unknown, false) else
      var (chain, k) := Select(f, h);
      var s := Restarted(chain[k], h);
      if Truncated(h) then (f.(segments := chain[k := s]), Expecting, false) else
        var t := if h.number in s.done then s else Recorded(s, h);
        (f.(segments := chain[k := t]), if !f.segmented && t.complete then AllRead else Expecting, h.number !in s.done)
  }

  /** An unsegmented filter that is complete takes no further section. */
  predicate Closed(f: Filter) { !f.segmented && f.segments != [] && f.segments[0].complete }

  /** read_sections on a section that is read in one piece: an unknown table is answered like a section
      with more to come. */
  function Read(f: Filter, h: Header): (Filter, Answer, bool)
    requires f.segments != []
  {
    if Closed(f) then (f, AllRead, false) else
      var (g, answer, dispatched) := Parse(f, h);
      (g, if answer.AllRead? then AllRead else Expecting, dispatched)
  }

  const BUFFER_SIZE := 1024

  /** What read() leaves in the buffer; octets behind a short section are those that were there before. */
  function Overwritten(buf: seq<byte>, octets: seq<byte>): (r: seq<byte>)
    requires |octets| <= |buf|
    ensures |r| == |buf|
  {
    octets + buf[|octets|..]
  }

  /** The section read() brings, if it brings exactly one. */
  function Received(buf: seq<byte>, incoming: Option<seq<byte>>): Option<Header>
    requires |buf| == BUFFER_SIZE && (incoming.Some? ==> |incoming.value| <= BUFFER_SIZE)
  {
    if incoming.None? || |incoming.value| < 4 then None else
      var h := HeaderOf(Overwritten(buf, incoming.value));
      if |incoming.value| == h.length + 3 then Some(h) else None
  }

  /** read_sections: the filter, its buffer, the answer, and whether a section goes to a table parser. */
  function ReadSections(f: Filter, buf: seq<byte>, incoming: Option<seq<byte>>): (r: (Filter, seq<byte>, Answer, bool))
    requires f.segments != [] && |buf| == BUFFER_SIZE && (incoming.Some? ==> |incoming.value| <= BUFFER_SIZE)
    ensures r.0.segments != [] && |r.1| == BUFFER_SIZE
  {
    if Closed(f) then (f, buf, AllRead, false)
    else if incoming.None? then (f, buf, Unknown, false)
    else
      var filled := Overwritten(buf, incoming.value);
      match Received(buf, incoming)
      case None => (f, filled, Unknown, false)
      case Some(h) => var (g, answer, dispatched) := Read(f, h); (g, filled, answer, dispatched)
  }

  /** The answer is 1 exactly when the filter is complete. */
  lemma AllReadExactly(f: Filter, h: Header)
    requires Sound(f) && !f.segmented
    ensures Read(f, h).1 == AllRead <==> Closed(Read(f, h).0)
  {
  }

  // ---------------------------------------------------------------- runs

  function After(f: Filter, hs: seq<Header>): (g: Filter)
    requires f.segments != []
    ensures g.segments != []
    decreases |hs|
  {
    if hs == [] then f else After(Read(f, hs[0]).0, hs[1..])
  }

  /** Segments have pairwise distinct extensions, and only a segmented filter has several. */
  predicate Sound(f: Filter) {
    && f.segments != []
    && (forall i, j :: 0 <= i < j < |f.segments| ==> f.segments[i].ext != f.segments[j].ext)
    && (!f.segmented || f.segments[0].ext == -1 ==> |f.segments| == 1)
    && (forall i :: 0 < i < |f.segments| ==> f.segments[i].ext != -1)
  }

  lemma SelectSound(f: Filter, h: Header)
    requires Sound(f)
    ensures var (chain, k) := Select(f, h);
      && (forall i, j :: 0 <= i < j < |chain| ==> chain[i].ext != chain[j].ext)
      && (forall i :: 0 <= i < |chain| && i != k ==> chain[i].ext != h.ext)
      && (!f.segmented ==> |chain| == 1) && (forall i :: 0 < i < |chain| ==> chain[i].ext != -1)
      && |f.segments| <= |chain| && chain[..|f.segments|] == f.segments
  {
  }

  lemma ParseSound(f: Filter, h: Header)
    requires Sound(f)
    ensures Sound(Parse(f, h).0)
  {
    SelectSound(f, h);
    hide Select;
  }

  lemma ReadSound(f: Filter, h: Header)
    requires Sound(f)
    ensures Sound(Read(f, h).0)
  {
    ParseSound(f, h);
  }

  lemma {:induction false} RunSound(f: Filter, hs: seq<Header>)
    requires Sound(f)
    ensures Sound(After(f, hs))
    decreases |hs|
  {
    if hs != [] {
      ReadSound(f, hs[0]);
      RunSound(Read(f, hs[0]).0, hs[1..]);
    }
  }

  // ---------------------------------------------------------------- each section once

  /** A section of the filter's table that starts an epoch other than `h`'s on the same segment. */
  predicate Ends(f: Filter, h: Header, other: Header) {
    other.tableId == f.tableId && (other.version != h.version || other.ext != h.ext) && (f.segmented ==> other.ext == h.ext)
  }

  /** The segment of `h` collects its epoch and has the section on record. */
  predicate Has(f: Filter, h: Header) {
    exists k :: 0 <= k < |f.segments| && f.segments[k].ext == h.ext && f.segments[k].version == h.version && h.number in f.segments[k].done
  }

  lemma DispatchedIsRecorded(f: Filter, h: Header)
    requires Sound(f) && Read(f, h).2
    ensures Has(Read(f, h).0, h)
  {
    var (chain, k) := Select(f, h);
    var g := Read(f, h).0;
    assert g.segments[k].ext == h.ext && g.segments[k].version == h.version && h.number in g.segments[k].done;
  }

  lemma RecordedIsSkipped(f: Filter, h: Header)
    requires Sound(f) && Has(f, h)
    ensures !Read(f, h).2
  {
    var k :| 0 <= k < |f.segments| && f.segments[k].ext == h.ext && f.segments[k].version == h.version && h.number in f.segments[k].done;
    SelectSound(f, h);
    var (chain, j) := Select(f, h);
    assert chain[k] == f.segments[k];
  }

  lemma RecordStays(f: Filter, h: Header, other: Header)
    requires Sound(f) && Has(f, h) && !Ends(f, h, other)
    ensures Has(Read(f, other).0, h)
  {
    var k :| 0 <= k < |f.segments| && f.segments[k].ext == h.ext && f.segments[k].version == h.version && h.number in f.segments[k].done;
    SelectSound(f, other);
    var (chain, j) := Select(f, other);
    var g := Read(f, other).0;
    if f.tableId == other.tableId {
      assert chain[k] == f.segments[k];
      if k != j {
        assert g.segments[k] == f.segments[k];
      } else {
        assert g.segments[k].ext == h.ext && g.segments[k].version == h.version && h.number in g.segments[k].done;
      }
    }
  }

  lemma {:induction false} RecordStaysRun(f: Filter, h: Header, hs: seq<Header>)
    requires Sound(f) && Has(f, h) && forall i :: 0 <= i < |hs| ==> !Ends(f, h, hs[i])
    ensures Has(After(f, hs), h) && Sound(After(f, hs))
    decreases |hs|
  {
    if hs != [] {
      RecordStays(f, h, hs[0]);
      ReadSound(f, hs[0]);
      RecordStaysRun(Read(f, hs[0]).0, h, hs[1..]);
    }
  }

  lemma {:induction false} AfterAppend(f: Filter, a: seq<Header>, b: seq<Header>)
    requires f.segments != []
    ensures After(f, a + b) == After(After(f, a), b)
    decreases |a|
  {
    if a == [] {
      assert a + b == b;
    } else {
      assert (a + b)[0] == a[0] && (a + b)[1..] == a[1..] + b;
      AfterAppend(Read(f, a[0]).0, a[1..], b);
    }
  }

  lemma NotAgain(g: Filter, h: Header, between: seq<Header>, again: Header)
    requires Sound(g) && again.ext == h.ext && again.version == h.version && again.number == h.number
    requires Read(g, h).2 && forall i :: 0 <= i < |between| ==> !Ends(g, h, between[i])
    ensures !Read(After(Read(g, h).0, between), again).2
  {
    var t := Read(g, h).0;
    ReadSound(g, h);
    DispatchedIsRecorded(g, h);
    assert t.tableId == g.tableId && t.segmented == g.segmented;
    hide Read;
    hide Has;
    hide After;
    assert forall i :: 0 <= i < |between| ==> !Ends(t, h, between[i]);
    RecordStaysRun(t, h, between);
    SameRecord(After(t, between), h, again);
    RecordedIsSkipped(After(t, between), again);
  }

  /** Between two sections with the same extension, version and number that are both handed to a table
      parser there is one of another version, or of another extension on an unsegmented filter. */
  lemma EachSectionOnce(f: Filter, before: seq<Header>, h: Header, between: seq<Header>, again: Header)
    requires Sound(f) && again.ext == h.ext && again.version == h.version && again.number == h.number
    requires Read(After(f, before), h).2
    ensures Read(After(f, before + [h] + between), again).2 ==> exists i :: 0 <= i < |between| && Ends(f, h, between[i])
  {
    var g := After(f, before);
    RunSound(f, before);
    AfterAppend(f, before, [h]);
    AfterAppend(f, before + [h], between);
    AfterOne(g, h);
    TableStays(f, before);
    hide Read;
    hide After;
    assert forall i :: 0 <= i < |between| ==> (Ends(f, h, between[i]) <==> Ends(g, h, between[i]));
    if forall i :: 0 <= i < |between| ==> !Ends(g, h, between[i]) { NotAgain(g, h, between, again); }
  }

  lemma SameRecord(f: Filter, h: Header, again: Header)
    requires Has(f, h) && again.ext == h.ext && again.version == h.version && again.number == h.number
    ensures Has(f, again)
  {
  }

  lemma AfterOne(f: Filter, h: Header)
    requires f.segments != []
    ensures After(f, [h]) == Read(f, h).0
  {
  }

  lemma {:induction false} TableStays(f: Filter, hs: seq<Header>)
    requires f.segments != []
    ensures After(f, hs).tableId == f.tableId && After(f, hs).segmented == f.segmented
    decreases |hs|
  {
    if hs != [] { TableStays(Read(f, hs[0]).0, hs[1..]); }
  }

  /** A truncated section is answered with "more to come" and not recorded, though it may start over. */
  lemma TruncatedIsNotRecorded(f: Filter, h: Header)
    requires Sound(f) && f.tableId == h.tableId && Truncated(h)
    ensures Parse(f, h).1 == Expecting && !Parse(f, h).2
    ensures Has(Parse(f, h).0, h) <==> Has(f, h)
  {
    SelectSound(f, h);
    var (chain, k) := Select(f, h);
    var g := Parse(f, h).0;
    if i :| 0 <= i < |f.segments| && f.segments[i].ext == h.ext && f.segments[i].version == h.version && h.number in f.segments[i].done {
      assert chain[i] == f.segments[i] && g.segments[i] == f.segments[i];
    }
    if i :| 0 <= i < |g.segments| && g.segments[i].ext == h.ext && g.segments[i].version == h.version && h.number in g.segments[i].done {
      assert i == k && g.segments[k] == chain[k] && k < |f.segments| && f.segments[k] == chain[k];
    }
  }
}
