/** When sectionfilter_done of util/scan/scan.c (lines 1143-1218) tells the truth: that all sections from 0 to
    the last section number have been recorded. */
module SectionCompleteness {
  import opened Bytes
  import opened SectionBitmap

  // ---------------------------------------------------------------- one section

  /** What a section does to the segment it belongs to. */
  function Taken(s: Segment, h: Header): Segment {
    var r := Restarted(s, h);
    if Truncated(h) || h.number in r.done then r else Recorded(r, h)
  }

  /** The flag is set exactly when the sections 0 to `last` are recorded. */
  predicate Truthful(s: Segment, last: byte) { s.complete <==> AllDone(s.done, last) }

  /** What goes wrong with a section: a complete segment is told of a last number beyond what it has, or
      a section that is on record comes with a last number that leaves nothing missing, which is not
      looked at again. */
  predicate Misses(s: Segment, h: Header) {
    || (s.complete && !AllDone(s.done + {h.number}, h.last))
    || (!s.complete && h.number in s.done && AllDone(s.done, h.last))
  }

  lemma TakenTruthful(s: Segment, h: Header)
    requires !Truncated(h)
    ensures Truthful(Taken(s, h), h.last) <==> !Misses(Restarted(s, h), h)
  {
    var r := Restarted(s, h);
    if h.number in r.done { assert r.done + {h.number} == r.done; }
  }

  /** A section that is on record comes again, and with its last number nothing is missing. */
  predicate Repeats(recorded: set<byte>, h: Header) { h.number in recorded && AllDone(recorded, h.last) }

  /** After a section the flag of its segment is right, measured by that section's last number, exactly
      unless the section is one that goes wrong; on an unsegmented filter, which takes nothing more once it
      is complete, only a repeated section does. */
  lemma FlagIsRight(f: Filter, h: Header)
    requires Sound(f) && !Closed(f) && f.tableId == h.tableId && !Truncated(h)
    ensures var (chain, k) := Select(f, h);
      var r := Restarted(chain[k], h);
      && (Truthful(Read(f, h).0.segments[k], h.last) <==> !Misses(r, h))
      && (!f.segmented ==> (Misses(r, h) <==> Repeats(r.done, h)))
  {
    var (chain, k) := Select(f, h);
    TakenTruthful(chain[k], h);
  }

  // ---------------------------------------------------------------- one epoch

  function Numbers(es: seq<Header>): set<byte> { set i | 0 <= i < |es| :: es[i].number }

  /** The section at `i` was new when it came, and nothing was missing up to its last number. */
  predicate Fills(es: seq<Header>, i: nat)
    requires i < |es|
  {
    es[i].number !in Numbers(es[..i]) && AllDone(Numbers(es[..i + 1]), es[i].last)
  }

  /** What a segment collects: its extension and version and the sections of the current epoch, truncated
      ones left out. */
  datatype Epoch = Epoch(ext: int, version: int, sections: seq<Header>)

  function Enter(e: Epoch, h: Header): Epoch {
    var r := if e.version != h.version || e.ext != h.ext then Epoch(h.ext, h.version, []) else e;
    if Truncated(h) then r else r.(sections := r.sections + [h])
  }

  predicate Flagged(es: seq<Header>) { exists i :: 0 <= i < |es| && Fills(es, i) }

  /** The segment has on record what the epoch contains. */
  predicate Records(s: Segment, e: Epoch) {
    s == Segment(e.ext, e.version, Numbers(e.sections), Flagged(e.sections))
  }

  lemma NumbersSnoc(es: seq<Header>, h: Header)
    ensures Numbers(es + [h]) == Numbers(es) + {h.number}
  {
    var all := es + [h];
    forall x | x in Numbers(es) + {h.number} ensures x in Numbers(all) {
      if x in Numbers(es) {
        var i :| 0 <= i < |es| && es[i].number == x;
        assert all[i].number == x;
      } else {
        assert all[|es|].number == x;
      }
    }
  }

  lemma FlaggedSnoc(es: seq<Header>, h: Header)
    ensures Flagged(es + [h]) <==> Flagged(es) || (h.number !in Numbers(es) && AllDone(Numbers(es) + {h.number}, h.last))
  {
    var all := es + [h];
    NumbersSnoc(es, h);
    assert all[..|es|] == es && all[..|es| + 1] == all;
    forall i | 0 <= i < |es| ensures Fills(all, i) <==> Fills(es, i) {
      assert all[..i] == es[..i] && all[..i + 1] == es[..i + 1];
    }
    assert Fills(all, |es|) <==> h.number !in Numbers(es) && AllDone(Numbers(es) + {h.number}, h.last);
  }

  lemma TakenRecords(s: Segment, e: Epoch, h: Header)
    requires Records(s, e)
    ensures Records(Taken(s, h), Enter(e, h))
  {
    var r := if e.version != h.version || e.ext != h.ext then Epoch(h.ext, h.version, []) else e;
    assert Records(Restarted(s, h), r);
    NumbersSnoc(r.sections, h);
    FlaggedSnoc(r.sections, h);
    hide Flagged;
    hide Numbers;
    if h.number in Numbers(r.sections) { assert Numbers(r.sections) + {h.number} == Numbers(r.sections); }
  }

  // ---------------------------------------------------------------- runs

  /** The segment for an extension: the filter itself if it is not segmented, a blank one if there is none. */
  function View(f: Filter, n: u16): Segment
    requires f.segments != []
  {
    if !f.segmented then f.segments[0]
    else if Find(f.segments, n) < |f.segments| then f.segments[Find(f.segments, n)]
    else Segment(-1, -1, {}, false)
  }

  predicate Concerns(f: Filter, n: u16, h: Header) { h.tableId == f.tableId && (f.segmented ==> h.ext == n) }

  lemma FoundAt(segments: seq<Segment>, n: u16, k: nat)
    requires k < |segments| && segments[k].ext == n && forall i, j :: 0 <= i < j < |segments| ==> segments[i].ext != segments[j].ext
    ensures Find(segments, n) == k
  {
  }

  lemma NotFound(segments: seq<Segment>, n: u16)
    requires forall i :: 0 <= i < |segments| ==> segments[i].ext != n
    ensures Find(segments, n) == |segments|
  {
  }

  /** A section changes the segment it concerns and no other. */
  lemma ReadTakes(f: Filter, h: Header, n: u16)
    requires Sound(f)
    ensures View(Read(f, h).0, n) == if Concerns(f, n, h) && !Closed(f) then Taken(View(f, n), h) else View(f, n)
  {
    if f.tableId == h.tableId && f.segmented { SegmentTakes(f, h, n); }
  }

  lemma SegmentTakes(f: Filter, h: Header, n: u16)
    requires Sound(f) && f.tableId == h.tableId && f.segmented
    ensures View(Parse(f, h).0, n) == if n == h.ext then Taken(View(f, n), h) else View(f, n)
  {
    var g := Parse(f, h).0;
    var (chain, k) := Select(f, h);
    SelectSound(f, h);
    ParseSound(f, h);
    assert g.segments[k] == Taken(chain[k], h) == Taken(View(f, h.ext), h);
    hide Taken;
    hide Restarted;
    hide Recorded;
    if n == h.ext {
      FoundAt(g.segments, n, k);
    } else if Find(f.segments, n) < |f.segments| {
      var j := Find(f.segments, n);
      assert chain[j] == f.segments[j];
      FoundAt(g.segments, n, j);
    } else {
      NotFound(g.segments, n);
    }
  }

  /** Sections enter the epoch of their extension, on an unsegmented filter until it is complete. */
  function EpochAfter(f: Filter, n: u16, e: Epoch, h: Header): Epoch {
    if Concerns(f, n, h) && (f.segmented || !Flagged(e.sections)) then Enter(e, h) else e
  }

  /** The epoch an extension has reached. */
  function Reached(f: Filter, n: u16, e: Epoch, hs: seq<Header>): Epoch
    decreases |hs|
  {
    if hs == [] then e else Reached(f, n, EpochAfter(f, n, e, hs[0]), hs[1..])
  }

  /** Over every run, and whatever comes for other segments and tables: a segment has recorded exactly the
      numbers of its epoch, and its flag is set exactly if one of its sections was new when it came and
      left nothing missing up to its own last number. */
  lemma {:induction false} RunRecords(f: Filter, hs: seq<Header>, n: u16, e: Epoch)
    requires Sound(f) && Records(View(f, n), e)
    ensures Records(View(After(f, hs), n), Reached(f, n, e, hs))
    decreases |hs|
  {
    if hs != [] {
      var g := Read(f, hs[0]).0;
      ReadTakes(f, hs[0], n);
      ReadSound(f, hs[0]);
      TakenRecords(View(f, n), e, hs[0]);
      var next := EpochAfter(f, n, e, hs[0]);
      assert g.tableId == f.tableId && g.segmented == f.segmented;
      hide Flagged;
      RunRecords(g, hs[1..], n, next);
      SameReach(f, g, n, next, hs[1..]);
    }
  }

  lemma {:induction false} SameReach(f: Filter, g: Filter, n: u16, e: Epoch, hs: seq<Header>)
    requires f.tableId == g.tableId && f.segmented == g.segmented
    ensures Reached(f, n, e, hs) == Reached(g, n, e, hs)
    decreases |hs|
  {
    if hs != [] { SameReach(f, g, n, EpochAfter(f, n, e, hs[0]), hs[1..]); }
  }

  /** A filter as setup_filter leaves it has an empty epoch. */
  lemma FreshRecords(tableId: int, segmented: bool, ext: int, n: u16)
    ensures var f := SetUp(tableId, segmented, ext);
      Sound(f) && Records(View(f, n), Epoch(View(f, n).ext, -1, []))
  {
  }

  /** No section came after the one that completed the epoch. */
  predicate EndsComplete(es: seq<Header>) { forall j :: 0 <= j < |es| ==> !Flagged(es[..j]) }

  lemma {:induction false} ReachedEndsComplete(f: Filter, n: u16, e: Epoch, hs: seq<Header>)
    requires !f.segmented && EndsComplete(e.sections)
    ensures EndsComplete(Reached(f, n, e, hs).sections)
    decreases |hs|
  {
    if hs != [] {
      var es := EpochAfter(f, n, e, hs[0]).sections;
      forall j | 0 <= j < |es| ensures !Flagged(es[..j]) {
        assert es[..j] == [] || es[..j] == e.sections || es[..j] == e.sections[..j];
      }
      ReachedEndsComplete(f, n, EpochAfter(f, n, e, hs[0]), hs[1..]);
    }
  }

  // ---------------------------------------------------------------- the exact condition

  /** The numbers recorded so far, the last number heard, and the next section: the last number may only
      grow while something is missing, or by the section that comes with it, and may only shrink to what
      is recorded with a section that is new. */
  predicate Fits(recorded: set<byte>, last: byte, h: Header) {
    && (AllDone(recorded, last) ==> AllDone(recorded + {h.number}, h.last))
    && (Repeats(recorded, h) ==> AllDone(recorded, last))
  }

  predicate Steady(es: seq<Header>) { forall j :: 1 <= j < |es| ==> Fits(Numbers(es[..j]), es[j - 1].last, es[j]) }

  /** The flag is right after the first `j` sections of an epoch. */
  predicate RightAfter(es: seq<Header>, j: nat)
    requires 1 <= j <= |es|
  {
    Flagged(es[..j]) <==> AllDone(Numbers(es[..j]), es[j - 1].last)
  }

  lemma FirstIsRight(es: seq<Header>)
    requires es != []
    ensures RightAfter(es, 1)
  {
    assert es[..1] == [] + [es[0]];
    FlaggedSnoc([], es[0]);
    NumbersSnoc([], es[0]);
  }

  lemma NextIsRight(es: seq<Header>, j: nat)
    requires 1 <= j < |es| && RightAfter(es, j)
    ensures RightAfter(es, j + 1) <==> Fits(Numbers(es[..j]), es[j - 1].last, es[j])
  {
    assert es[..j + 1] == es[..j] + [es[j]];
    FlaggedSnoc(es[..j], es[j]);
    NumbersSnoc(es[..j], es[j]);
    hide Flagged;
    hide Numbers;
    if es[j].number in Numbers(es[..j]) { assert Numbers(es[..j]) + {es[j].number} == Numbers(es[..j]); }
  }

  /** In an epoch the flag is right after every section exactly if each section fits those before it. */
  lemma {:induction false} RightThroughout(es: seq<Header>)
    ensures (forall j :: 1 <= j <= |es| ==> RightAfter(es, j)) <==> Steady(es)
  {
    if es != [] {
      FirstIsRight(es);
      if forall j :: 1 <= j <= |es| ==> RightAfter(es, j) {
        forall j | 1 <= j < |es| ensures Fits(Numbers(es[..j]), es[j - 1].last, es[j]) {
          assert RightAfter(es, j) && RightAfter(es, j + 1);
          NextIsRight(es, j);
        }
      }
      if Steady(es) { RightUpTo(es, |es|); }
    }
  }

  lemma {:induction false} RightUpTo(es: seq<Header>, n: nat)
    requires Steady(es) && 1 <= n <= |es|
    ensures forall j :: 1 <= j <= n ==> RightAfter(es, j)
  {
    FirstIsRight(es);
    if n > 1 {
      RightUpTo(es, n - 1);
      NextIsRight(es, n - 1);
    }
  }

  /** No section comes again with a last number that leaves nothing missing. */
  predicate NeverRepeats(es: seq<Header>) { forall j :: 1 <= j < |es| ==> !Repeats(Numbers(es[..j]), es[j]) }

  /** On an unsegmented filter the first half of the condition cannot fail. */
  lemma SteadyMeans(es: seq<Header>)
    requires EndsComplete(es)
    ensures Steady(es) <==> NeverRepeats(es)
  {
    if Steady(es) {
      RightThroughout(es);
      forall j | 1 <= j < |es| ensures !Repeats(Numbers(es[..j]), es[j]) {
        assert RightAfter(es, j) && !Flagged(es[..j]) && Fits(Numbers(es[..j]), es[j - 1].last, es[j]);
      }
    }
    if NeverRepeats(es) && es != [] { NeverRepeatsIsRight(es, |es|); }
  }

  lemma {:induction false} NeverRepeatsIsRight(es: seq<Header>, n: nat)
    requires EndsComplete(es) && NeverRepeats(es) && 1 <= n <= |es|
    ensures forall j :: 1 <= j < n ==> Fits(Numbers(es[..j]), es[j - 1].last, es[j])
    ensures RightAfter(es, n)
  {
    FirstIsRight(es);
    if n > 1 {
      NeverRepeatsIsRight(es, n - 1);
      assert !Flagged(es[..n - 1]) && !Repeats(Numbers(es[..n - 1]), es[n - 1]);
      NextIsRight(es, n - 1);
    }
  }

  /** Over every run from a fresh epoch: the flag of a segment is right at its every section of the epoch
      it has reached exactly if those sections fit one another. */
  lemma CompleteExactly(f: Filter, hs: seq<Header>, n: u16, e: Epoch)
    requires Sound(f) && Records(View(f, n), e)
    ensures var s, es := View(After(f, hs), n), Reached(f, n, e, hs).sections;
      && s.done == Numbers(es) && (s.complete <==> Flagged(es))
      && ((forall j :: 1 <= j <= |es| ==> RightAfter(es, j)) <==> Steady(es))
      && (es != [] && Steady(es) ==> Truthful(s, es[|es| - 1].last))
  {
    var es := Reached(f, n, e, hs).sections;
    RunRecords(f, hs, n, e);
    RightThroughout(es);
    if es != [] && Steady(es) {
      assert RightAfter(es, |es|) && es[..|es|] == es;
    }
  }

  /** A filter as the program sets it up, over every run of read_sections. If it is unsegmented, what it
      says is right throughout exactly if no section comes again with a last number that leaves nothing
      missing: it may wait too long, and it is never complete too early. */
  lemma SetUpExactly(tableId: int, segmented: bool, ext: int, hs: seq<Header>, n: u16)
    ensures var f := SetUp(tableId, segmented, ext);
      var s, es := View(After(f, hs), n), Reached(f, n, Epoch(View(f, n).ext, -1, []), hs).sections;
      && s.done == Numbers(es) && (s.complete <==> Flagged(es))
      && ((forall j :: 1 <= j <= |es| ==> RightAfter(es, j)) <==> if segmented then Steady(es) else NeverRepeats(es))
      && (!segmented && s.complete ==> AllDone(s.done, es[|es| - 1].last))
  {
    var f := SetUp(tableId, segmented, ext);
    var e := Epoch(View(f, n).ext, -1, []);
    var es := Reached(f, n, e, hs).sections;
    FreshRecords(tableId, segmented, ext, n);
    CompleteExactly(f, hs, n, e);
    assert EndsComplete(e.sections);
    hide EndsComplete;
    hide Flagged;
    hide Numbers;
    hide Steady;
    hide NeverRepeats;
    hide RightAfter;
    hide After;
    hide Reached;
    if !segmented {
      ReachedEndsComplete(f, n, e, hs);
      SteadyMeans(es);
      if Flagged(es) { CompletedByLast(es); }
    }
  }

  lemma CompletedByLast(es: seq<Header>)
    requires EndsComplete(es) && Flagged(es)
    ensures es != [] && AllDone(Numbers(es), es[|es| - 1].last)
  {
    var i :| 0 <= i < |es| && Fills(es, i);
    if i < |es| - 1 {
      var part := es[..i + 1];
      assert part[..i] == es[..i] && part[..i + 1] == part;
      assert Fills(part, i) && Flagged(part);
    }
    assert es[..i + 1] == es;
  }

  // ---------------------------------------------------------------- a constant last number, and two that are not

  predicate Exact(f: Filter, last: byte) {
    forall i :: 0 <= i < |f.segments| ==> (f.segments[i].complete <==> AllDone(f.segments[i].done, last))
  }

  lemma ParseExact(f: Filter, h: Header)
    requires Sound(f) && Exact(f, h.last)
    ensures Exact(Parse(f, h).0, h.last)
  {
    NotAllDone({}, h.last, 0);
  }

  /** As long as the last section number stays the same, a segment counts as complete exactly when all
      its sections from 0 to that number have been recorded. */
  lemma {:induction false} CompleteMeansAll(f: Filter, hs: seq<Header>, last: byte)
    requires Sound(f) && Exact(f, last) && forall i :: 0 <= i < |hs| ==> hs[i].last == last || hs[i].tableId != f.tableId
    ensures Exact(After(f, hs), last)
    decreases |hs|
  {
    if hs != [] {
      if hs[0].tableId == f.tableId { ParseExact(f, hs[0]); }
      ReadSound(f, hs[0]);
      CompleteMeansAll(Read(f, hs[0]).0, hs[1..], last);
    }
  }

  /** If the last section number of a segment grows within an epoch after the segment was complete, the
      segment stays complete too early. */
  lemma GrowingLastIsMissed()
    ensures var f := SetUp(0x41, true, -1);
      var g := After(f, [Header(0x41, 20, 7, 1, 0, 0), Header(0x41, 20, 7, 1, 2, 3)]);
      g.segments[0].complete && !AllDone(g.segments[0].done, 3)
  {
    var f := SetUp(0x41, true, -1);
    var a, b := Header(0x41, 20, 7, 1, 0, 0), Header(0x41, 20, 7, 1, 2, 3);
    var g := Read(f, a).0;
    assert AllDone({0}, 0);
    assert g.segments == [Segment(7, 1, {0}, true)] by { assert {} + {0} == {0}; }
    var t := Read(g, b).0;
    assert t.segments[0].complete && t.segments[0].done == {0, 2};
    assert After(f, [a, b]) == t by { assert [a, b][1..] == [b] && [b][1..] == []; assert After(t, []) == t; }
    NotAllDone({0, 2}, 3, 1);
  }

  /** If it shrinks, and the section that says so is on record, the filter waits for sections it has. */
  lemma ShrinkingLastIsMissed()
    ensures var f := SetUp(0x40, false, -1);
      var g := After(f, [Header(0x40, 20, 7, 1, 1, 3), Header(0x40, 20, 7, 1, 0, 3), Header(0x40, 20, 7, 1, 0, 1)]);
      !g.segments[0].complete && AllDone(g.segments[0].done, 1)
  {
    var f := SetUp(0x40, false, -1);
    var a, b, c := Header(0x40, 20, 7, 1, 1, 3), Header(0x40, 20, 7, 1, 0, 3), Header(0x40, 20, 7, 1, 0, 1);
    NotAllDone({1}, 3, 0);
    NotAllDone({0, 1}, 3, 2);
    var g := Read(f, a).0;
    assert g.segments == [Segment(7, 1, {1}, false)] by { assert {} + {1} == {1}; }
    var t := Read(g, b).0;
    assert t.segments == [Segment(7, 1, {0, 1}, false)] by { assert {1} + {0} == {0, 1}; }
    assert Read(t, c).0 == t;
    assert After(f, [a, b, c]) == t by {
      assert [a, b, c][1..] == [b, c] && [b, c][1..] == [c] && [c][1..] == [];
      assert After(t, []) == t;
      assert After(t, [c]) == t;
      assert After(g, [b, c]) == t;
    }
  }
}
