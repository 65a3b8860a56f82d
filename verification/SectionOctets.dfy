/** Sections as ISO/IEC 13818-1 section 2.4.4 lays them out, octet by octet, and what read_sections of
    util/scan/scan.c makes of them. */
module SectionOctets {
  import opened Bytes
  import opened SectionBitmap

  /** The eight octets in front: `flags` are section_syntax_indicator and the three bits behind it, `reserved` the
      two bits in front of the version. */
  function Front(tableId: byte, flags: nat, length: nat, ext: u16, reserved: nat, version: nat, current: nat, number: byte, last: byte): seq<byte>
    requires flags < 16 && length < 4096 && reserved < 4 && version < 32 && current < 2
  {
    [tableId, 16 * flags + length / 256, length % 256, ext / 256, ext % 256, 64 * reserved + 2 * version + current, number, last]
  }

  /** They are read back, whatever comes behind them. */
  lemma FrontReads(tableId: byte, flags: nat, length: nat, ext: u16, reserved: nat, version: nat, current: nat, number: byte, last: byte,
                   tail: seq<byte>)
    requires flags < 16 && length < 4096 && reserved < 4 && version < 32 && current < 2
    ensures HeaderOf(Front(tableId, flags, length, ext, reserved, version, current, number, last) + tail) ==
      Header(tableId, length, ext, version, number, last)
  {
    var w := Front(tableId, flags, length, ext, reserved, version, current, number, last) + tail;
    assert w[1] as int % 16 == length / 256;
    assert w[5] as int / 2 == 32 * reserved + version;
    assert w[5] as int / 2 % 32 == version;
  }

  datatype Table = Table(tableId: byte, ext: u16, version: nat, last: byte)

  /** What else there is in a section; the body ends with the CRC and fits the buffer. */
  datatype Other = Other(flags: nat, reserved: nat, current: nat, body: seq<byte>)

  predicate MadeOf(w: seq<byte>, t: Table, number: byte, o: Other) {
    && o.flags < 16 && o.reserved < 4 && o.current < 2 && 4 <= |o.body| <= BUFFER_SIZE - 8 && t.version < 32
    && w == Front(t.tableId, o.flags, |o.body| + 5, t.ext, o.reserved, t.version, o.current, number, t.last) + o.body
  }

  /** Section `number` of a table. */
  ghost predicate IsSectionOf(w: seq<byte>, t: Table, number: byte) { exists o :: MadeOf(w, t, number, o) }

  lemma SectionReceived(w: seq<byte>, t: Table, number: byte, buf: seq<byte>)
    requires IsSectionOf(w, t, number) && |buf| == BUFFER_SIZE
    ensures 12 <= |w| <= BUFFER_SIZE
    ensures Received(buf, Some(w)) == Some(Header(t.tableId, |w| - 3, t.ext, t.version, number, t.last))
  {
    var o :| MadeOf(w, t, number, o);
    var front := Front(t.tableId, o.flags, |o.body| + 5, t.ext, o.reserved, t.version, o.current, number, t.last);
    assert Overwritten(buf, w) == front + (o.body + buf[|w|..]);
    FrontReads(t.tableId, o.flags, |o.body| + 5, t.ext, o.reserved, t.version, o.current, number, t.last, o.body + buf[|w|..]);
    hide HeaderOf;
  }

  /** Reads that bring no section: a complete filter is not read at all, a failed read leaves everything, and octets that
      are fewer than four or not as many as they announce are left in the buffer and answered -1. */
  lemma NothingReceived(f: Filter, buf: seq<byte>, incoming: Option<seq<byte>>)
    requires f.segments != [] && |buf| == 1024 && (incoming.Some? ==> |incoming.value| <= 1024)
    ensures !f.segmented && f.segments[0].complete ==> ReadSections(f, buf, incoming) == (f, buf, AllRead, false)
    ensures (f.segmented || !f.segments[0].complete) && incoming.None? ==> ReadSections(f, buf, incoming) == (f, buf, Unknown, false)
    ensures (f.segmented || !f.segments[0].complete) && incoming.Some? ==>
      var w := incoming.value;
      (|w| < 4 || |w| != 3 + w[1] as int % 16 * 256 + w[2] as int ==> ReadSections(f, buf, incoming) == (f, w + buf[|w|..], Unknown, false))
  {
    if incoming.Some? && |incoming.value| >= 4 {
      var w := incoming.value;
      var filled := w + buf[|w|..];
      assert Overwritten(buf, w) == filled && filled[1] == w[1] && filled[2] == w[2];
    }
  }

  /** A section of four to eleven octets is received, answered 0 and given to no table parser; from twelve on the first
      of its number is. */
  lemma ShortestSection(f: Filter, buf: seq<byte>, w: seq<byte>)
    requires Sound(f) && (f.segmented || !f.segments[0].complete) && |buf| == 1024 && 4 <= |w| <= 1024
    requires |w| == 3 + w[1] as int % 16 * 256 + w[2] as int && w[0] as int == f.tableId
    ensures var (g, filled, answer, dispatched) := ReadSections(f, buf, Some(w));
      && filled == w + buf[|w|..]
      && (|w| < 12 ==> answer == Expecting && !dispatched)
      && (|w| >= 12 && (forall i :: 0 <= i < |f.segments| ==> w[6] !in f.segments[i].done) ==> dispatched)
  {
    var filled := w + buf[|w|..];
    var h := HeaderOf(filled);
    assert Overwritten(buf, w) == filled && filled[0] == w[0] && filled[1] == w[1] && filled[2] == w[2];
    assert Received(buf, Some(w)) == Some(h) && h.length == |w| - 3;
    if |w| >= 12 { assert h.number == w[6]; }
    SelectSound(f, h);
    hide HeaderOf;
    hide AllDone;
  }

  /** A section of another table is answered -1 by parse_section and 0 by read_sections, and changes nothing. */
  lemma OtherTable(f: Filter, buf: seq<byte>)
    requires f.segments != [] && |buf| >= 8 && buf[0] as int != f.tableId
    ensures Parse(f, HeaderOf(buf)) == (f, Unknown, false)
    ensures f.segmented || !f.segments[0].complete ==> Read(f, HeaderOf(buf)) == (f, Expecting, false)
  {
  }

  // ---------------------------------------------------------------- a table in order

  /** The answers of read_sections to one read after the other. */
  function Answers(f: Filter, buf: seq<byte>, ws: seq<seq<byte>>): seq<(Answer, bool)>
    requires f.segments != [] && |buf| == BUFFER_SIZE && forall i :: 0 <= i < |ws| ==> |ws[i]| <= BUFFER_SIZE
    decreases |ws|
  {
    if ws == [] then [] else
      var (g, filled, answer, dispatched) := ReadSections(f, buf, Some(ws[0]));
      [(answer, dispatched)] + Answers(g, filled, ws[1..])
  }

  /** The numbers below `n` and no others. */
  predicate Below(done: set<byte>, n: nat) { forall i: byte :: i in done <==> i < n }

  /** An unsegmented filter that has read the sections before `n` of a table and no other. */
  predicate Collecting(f: Filter, t: Table, n: nat) {
    && !f.segmented && f.tableId == t.tableId && |f.segments| == 1 && !f.segments[0].complete
    && if n == 0 then f.segments[0].version == -1
       else f.segments[0].ext == t.ext && f.segments[0].version == t.version && Below(f.segments[0].done, n)
  }

  lemma CollectingFirst(t: Table, ext: int)
    ensures Collecting(SetUp(t.tableId, false, ext), t, 0)
  {
  }

  lemma NextSection(f: Filter, t: Table, n: byte, length: nat)
    requires Collecting(f, t, n) && n <= t.last && length >= 9
    ensures var (g, answer, dispatched) := Read(f, Header(t.tableId, length, t.ext, t.version, n, t.last));
      && dispatched && (answer == AllRead <==> n == t.last)
      && (n < t.last ==> answer == Expecting && Collecting(g, t, n + 1))
  {
    var done := Restarted(f.segments[0], Header(t.tableId, length, t.ext, t.version, n, t.last)).done;
    assert Below(done, n) && Below(done + {n}, n + 1);
    if n < t.last { NotAllDone(done + {n}, t.last, n + 1); }
  }

  /** The sections of a table from the first to the last, in order: each goes to a table parser, and the answer is 1
      exactly at the last. */
  lemma {:induction false} TableInOrder(f: Filter, buf: seq<byte>, t: Table, n: byte, ws: seq<seq<byte>>)
    requires Collecting(f, t, n) && |buf| == BUFFER_SIZE && n + |ws| == t.last + 1 && ws != []
    requires forall i :: 0 <= i < |ws| ==> IsSectionOf(ws[i], t, n + i)
    ensures forall i :: 0 <= i < |ws| ==> |ws[i]| <= BUFFER_SIZE
    ensures Answers(f, buf, ws) == seq(|ws|, i requires 0 <= i < |ws| => (if n + i == t.last then AllRead else Expecting, true))
    decreases |ws|
  {
    forall i | 0 <= i < |ws| ensures |ws[i]| <= BUFFER_SIZE { SectionReceived(ws[i], t, n + i, buf); }
    hide IsSectionOf;
    assert IsSectionOf(ws[0], t, n + 0);
    SectionReceived(ws[0], t, n, buf);
    NextSection(f, t, n, |ws[0]| - 3);
    var (g, filled, answer, dispatched) := ReadSections(f, buf, Some(ws[0]));
    if n < t.last {
      var rest := ws[1..];
      assert forall i :: 0 <= i < |rest| ==> rest[i] == ws[i + 1] && IsSectionOf(ws[i + 1], t, n + (i + 1));
      TableInOrder(g, filled, t, n + 1, rest);
    }
  }
}
