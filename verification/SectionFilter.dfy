/** get_bit, set_bit, parse_section and read_sections of util/scan/scan.c (lines 1084-1280) with their bitmaps,
    chains and buffer. */
module SectionFilterObject {
  import opened Bytes
  import opened SectionBitmap

  const BITMAP_SIZE := 32

  /** Bit `i` of an octet. */
  function BitOf(x: bv8, i: nat): bool
    requires i < 8
  {
    (x >> i) & 1 == 1
  }

  /** 1 << i */
  function Mask(i: nat): bv8
    requires i < 8
  {
    if i == 0 then 1 else if i == 1 then 2 else if i == 2 then 4 else if i == 3 then 8
    else if i == 4 then 16 else if i == 5 then 32 else if i == 6 then 64 else 128
  }

  lemma ShiftIsMask(i: nat)
    requires i < 8
    ensures (1 as bv8) << i == Mask(i)
  {
    if i == 0 { } else if i == 1 { } else if i == 2 { } else if i == 3 { }
    else if i == 4 { } else if i == 5 { } else if i == 6 { } else { }
  }

  /** BitOf, by a mask instead of a shift. */
  lemma BitIsMasked(x: bv8, i: nat)
    requires i < 8
    ensures BitOf(x, i) <==> x & Mask(i) != 0
  {
    if i == 0 { } else if i == 1 { } else if i == 2 { } else if i == 3 { }
    else if i == 4 { } else if i == 5 { } else if i == 6 { } else { }
  }

  lemma OrMask(x: bv8, i: nat, j: nat)
    requires i < 8 && j < 8
    ensures (x | Mask(i)) & Mask(j) != 0 <==> i == j || x & Mask(j) != 0
  {
    var other := Mask(i) & Mask(j);
    assert (x | Mask(i)) & Mask(j) == (x & Mask(j)) | other;
    MasksDiffer(i, j);
  }

  lemma MasksDiffer(i: nat, j: nat)
    requires i < 8 && j < 8
    ensures Mask(i) & Mask(j) == if i == j then Mask(i) else 0
    ensures Mask(i) != 0
  {
  }

  lemma OrSetsBit(x: bv8, i: nat, j: nat)
    requires i < 8 && j < 8
    ensures BitOf(x | (1 << i), j) <==> i == j || BitOf(x, j)
  {
    hide BitOf;
    hide Mask;
    ShiftIsMask(i);
    BitIsMasked(x | Mask(i), j);
    BitIsMasked(x, j);
    OrMask(x, i, j);
  }

  function Bit(field: seq<bv8>, bit: int): bool
    requires |field| == BITMAP_SIZE && 0 <= bit < 0x100
  {
    BitOf(field[bit / 8], bit % 8)
  }

  function Numbers(field: seq<bv8>): (r: set<byte>)
    requires |field| == BITMAP_SIZE
    ensures forall i: byte :: i in r <==> Bit(field, i)
  {
    set i: byte | 0 <= i < 0x100 && Bit(field, i)
  }

  /** set_bit adds one number to those a bitmap stands for. */
  lemma BitmapSet(field: seq<bv8>, bit: byte)
    requires |field| == BITMAP_SIZE
    ensures Numbers(field[bit / 8 := field[bit / 8] | (1 << (bit % 8))]) == Numbers(field) + {bit}
  {
    var after := field[bit / 8 := field[bit / 8] | (1 << (bit % 8))];
    hide BitOf;
    forall i: byte ensures Bit(after, i) <==> i == bit || Bit(field, i) {
      OrSetsBit(field[bit / 8], bit % 8, i % 8);
      assert i / 8 == bit / 8 && i % 8 == bit % 8 ==> i == bit;
    }
    hide Bit;
    assert forall i: byte :: i in Numbers(after) <==> i in Numbers(field) + {bit};
  }

  lemma BitmapClear(field: seq<bv8>)
    requires |field| == BITMAP_SIZE && forall i :: 0 <= i < BITMAP_SIZE ==> field[i] == 0
    ensures Numbers(field) == {}
  {
  }

  /** The fields of struct section_buf that parse_section keeps for one segment. */
  class SegmentRecord {
    var ext: int
    var version: int
    const done: array<bv8>
    var complete: bool

    constructor (ext: int, version: int)
      ensures fresh(done) && done.Length == BITMAP_SIZE && ToSegment() == Segment(ext, version, {}, false)
    {
      this.ext := ext;
      this.version := version;
      done := new bv8[BITMAP_SIZE](_ => 0);
      complete := false;
      new;
      BitmapClear(done[..]);
    }

    ghost function ToSegment(): Segment
      reads this, done
    {
      Segment(ext, version, if done.Length == BITMAP_SIZE then Numbers(done[..]) else {}, complete)
    }

    /** get_bit */
    method GetBit(bit: byte) returns (b: bool)
      requires done.Length == BITMAP_SIZE
      ensures b <==> bit in ToSegment().done
    {
      b := (done[bit / 8] >> (bit % 8)) & 1 == 1;
      assert b == Bit(done[..], bit);
    }

    /** set_bit */
    method SetBit(bit: byte)
      requires done.Length == BITMAP_SIZE
      modifies done
      ensures ToSegment() == old(ToSegment()).(done := old(ToSegment()).done + {bit})
    {
      ghost var was := done[..];
      BitmapSet(was, bit);
      done[bit / 8] := done[bit / 8] | (1 << (bit % 8));
      assert done[..] == was[bit / 8 := was[bit / 8] | (1 << (bit % 8))];
    }

    /** The start of an epoch, if the section is of another version or extension. */
    method Restart(h: Header)
      requires done.Length == BITMAP_SIZE
      modifies this, done
      ensures ToSegment() == Restarted(old(ToSegment()), h)
    {
      if version != h.version || ext != h.ext {
        ext := h.ext;
        version := h.version;
        complete := false;
        forall i | 0 <= i < done.Length { done[i] := 0; }
        BitmapClear(done[..]);
      }
    }

    /** The recording of a section and the loop that looks for one that is missing. */
    method Record(h: Header)
      requires done.Length == BITMAP_SIZE
      modifies this, done
      ensures ToSegment() == Recorded(old(ToSegment()), h)
    {
      SetBit(h.number);
      ghost var marked := ToSegment();
      var i := 0;
      var found := true;
      while i <= h.last as int && found
        invariant 0 <= i <= h.last as int + 1 && ToSegment() == marked
        invariant forall k: byte :: k < i - (if found then 0 else 1) ==> k in marked.done
        invariant !found ==> i > 0 && (i - 1) as byte !in marked.done
      {
        found := GetBit(i);
        i := i + 1;
      }
      if found {
        assert AllDone(marked.done, h.last);
        complete := true;
      } else {
        NotAllDone(marked.done, h.last, i - 1);
      }
    }

    /** The rest of parse_section once the segment is found. */
    method Accept(h: Header) returns (dispatched: bool)
      requires done.Length == BITMAP_SIZE
      modifies this, done
      ensures var s := Restarted(old(ToSegment()), h);
        && dispatched == (!Truncated(h) && h.number !in s.done)
        && ToSegment() == if dispatched then Recorded(s, h) else s
    {
      hide Restarted;
      hide Recorded;
      Restart(h);
      if h.length - (5 + 4) < 0 { return false; }
      var seen := GetBit(h.number);
      if !seen {
        Record(h);
      }
      dispatched := !seen;
    }
  }

  ghost function Segments(records: seq<SegmentRecord>): (r: seq<Segment>)
    reads records, set o | o in records :: o.done
    ensures |r| == |records| && forall i :: 0 <= i < |r| ==> r[i] == records[i].ToSegment()
  {
    if records == [] then [] else [records[0].ToSegment()] + Segments(records[1..])
  }

  lemma FirstIs(s: seq<Segment>, ext: u16, k: nat)
    requires k <= |s| && (k < |s| ==> s[k].ext == ext) && forall i :: 0 <= i < k ==> s[i].ext != ext
    ensures SectionBitmap.Find(s, ext) == k
  {
  }

  /** A section filter with its chain of segments, the filter itself first. */
  class SectionFilter {
    const tableId: int
    const segmented: bool
    const buf: array<byte>
    var chain: seq<SegmentRecord>

    ghost predicate Valid()
      reads this, chain, set o | o in chain :: o.done
    {
      && chain != [] && buf.Length == BUFFER_SIZE
      && (forall i :: 0 <= i < |chain| ==> chain[i].done.Length == BITMAP_SIZE)
      && (forall i, j :: 0 <= i < j < |chain| ==> chain[i] != chain[j] && chain[i].done != chain[j].done)
    }

    ghost function ToFilter(): Filter
      reads this, chain, set o | o in chain :: o.done
    {
      Filter(tableId, segmented, Segments(chain))
    }

    /** setup_filter; `ext` is -1 for any. */
    constructor (tableId: int, ext: int, segmented: bool)
      ensures Valid() && ToFilter() == SetUp(tableId, segmented, ext) && fresh(buf)
      ensures Sound(ToFilter())
    {
      var first := new SegmentRecord(ext, -1);
      this.tableId := tableId;
      this.segmented := segmented;
      buf := new byte[BUFFER_SIZE](_ => 0);
      chain := [first];
    }

    /** The search along next_seg, and a new segment at its end if none fits. */
    method Choose(h: Header) returns (k: nat)
      requires Valid()
      modifies this`chain
      ensures Valid() && (Segments(chain), k) == Select(old(ToFilter()), h) && k < |chain|
      ensures forall o :: o in chain ==> o in old(chain) || (fresh(o) && fresh(o.done))
    {
      hide Segments;
      k := 0;
      if segmented && chain[0].ext != -1 {
        while k < |chain| && chain[k].ext != h.ext
          invariant k <= |chain| && forall i :: 0 <= i < k ==> chain[i].ext != h.ext
        {
          k := k + 1;
        }
        FirstIs(Segments(chain), h.ext, k);
        if k == |chain| {
          ghost var was := Segments(chain);
          var added := new SegmentRecord(h.ext, h.version);
          chain := chain + [added];
          assert Segments(chain) == was + [Segment(h.ext, h.version, {}, false)];
        }
      }
    }

    /** What happens to one segment leaves the others alone. */
    lemma Others(k: nat, was: seq<Segment>)
      requires Valid() && k < |chain| && |was| == |chain|
      requires forall i :: 0 <= i < |chain| && i != k ==> chain[i].ToSegment() == was[i]
      ensures Segments(chain) == was[k := chain[k].ToSegment()]
    {
    }

    /** parse_section; `dispatched` tells whether a table parser is called. */
    method Parse() returns (answer: Answer, dispatched: bool)
      requires Valid()
      modifies this`chain, chain, set o | o in chain :: o.done
      ensures Valid() && (ToFilter(), answer, dispatched) == SectionBitmap.Parse(old(ToFilter()), HeaderOf(buf[..]))
    {
      hide Segments;
      hide Select;
      hide Restarted;
      hide Recorded;
      var h := HeaderOf(buf[..]);
      if tableId != h.tableId { return Unknown, false; }
      var k := Choose(h);
      var s := chain[k];
      assert s in chain;
      ghost var was := Segments(chain);
      dispatched := s.Accept(h);
      Others(k, was);
      answer := if !segmented && s.complete && h.length - (5 + 4) >= 0 then AllRead else Expecting;
    }

    /** read() into the buffer. */
    method Fill(octets: seq<byte>)
      requires buf.Length == BUFFER_SIZE && |octets| <= BUFFER_SIZE
      modifies buf
      ensures buf[..] == Overwritten(old(buf[..]), octets)
    {
      forall i | 0 <= i < |octets| { buf[i] := octets[i]; }
    }

    /** read_sections; `incoming` is what read() brings, None if it fails. */
    method ReadSections(incoming: Option<seq<byte>>) returns (answer: Answer, dispatched: bool)
      requires Valid() && (incoming.Some? ==> |incoming.value| <= BUFFER_SIZE)
      modifies this`chain, chain, set o | o in chain :: o.done, buf
      ensures Valid() && (ToFilter(), buf[..], answer, dispatched) == SectionBitmap.ReadSections(old(ToFilter()), old(buf[..]), incoming)
    {
      hide Segments;
      hide SectionBitmap.Parse;
      assert ToFilter().segments[0] == chain[0].ToSegment();
      if chain[0].complete && !segmented { return AllRead, false; }
      if incoming.None? { return Unknown, false; }
      Fill(incoming.value);
      assert ToFilter() == old(ToFilter());
      if |incoming.value| < 4 { return Unknown, false; }
      var length := HeaderOf(buf[..]).length;
      if |incoming.value| != length + 3 { return Unknown, false; }
      answer, dispatched := Parse();
      if answer != AllRead { answer := Expecting; }
    }
  }
}
