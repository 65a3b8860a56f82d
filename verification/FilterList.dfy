/** The circular doubly linked lists of util/scan/list.h. The list node embedded in a section filter
    and the filter are one object here; the two list heads are such objects used for their links only. */
module FilterList {
  import opened Bytes

  class Filter {
    var next: Filter
    var prev: Filter
    var fd: int
    const runOnce: bool
    var startTime: int
    var done: bool
    const timeout: int

    /** setup_filter with INIT_LIST_HEAD, and LIST_HEAD for the heads. */
    constructor (runOnce: bool, timeout: int)
      ensures Ring([this]) && fd == -1 && this.runOnce == runOnce && this.timeout == timeout
    {
      next := this;
      prev := this;
      fd := -1;
      this.runOnce := runOnce;
      this.startTime := 0;
      done := false;
      this.timeout := timeout;
    }
  }

  function Succ(i: nat, n: nat): nat { if i + 1 < n then i + 1 else 0 }

  function Pred(i: nat, n: nat): nat
    requires i < n
  {
    if i > 0 then i - 1 else n - 1
  }

  /** The objects of `ring` are linked in this order and back to the start; the head comes first.
      A filter in no list is a ring of its own. */
  ghost predicate Ring(ring: seq<Filter>)
    reads ring`next, ring`prev
  {
    && |ring| > 0
    && NoRepeats(ring)
    && (forall i {:trigger ring[i].next} :: 0 <= i < |ring| ==> ring[i].next == ring[Succ(i, |ring|)])
    && (forall i {:trigger ring[i].prev} :: 0 <= i < |ring| ==> ring[i].prev == ring[Pred(i, |ring|)])
  }

  function Inserted<T>(s: seq<T>, p: nat, x: T): (r: seq<T>)
    requires p <= |s|
    ensures |r| == |s| + 1 && forall i :: 0 <= i < |r| ==> r[i] == if i < p then s[i] else if i == p then x else s[i - 1]
  {
    s[..p] + [x] + s[p..]
  }

  function Removed<T>(s: seq<T>, p: nat): (r: seq<T>)
    requires p < |s|
    ensures |r| == |s| - 1 && forall i :: 0 <= i < |r| ==> r[i] == if i < p then s[i] else s[i + 1]
  {
    s[..p] + s[p + 1..]
  }

  lemma InsertedNoRepeats<T>(s: seq<T>, p: nat, x: T)
    requires p <= |s| && x !in s && NoRepeats(s)
    ensures NoRepeats(Inserted(s, p, x))
  {
  }

  lemma RemovedNoRepeats<T>(s: seq<T>, p: nat)
    requires p < |s| && NoRepeats(s)
    ensures NoRepeats(Removed(s, p)) && s[p] !in Removed(s, p)
  {
  }

  /** __list_add: links `entry` in between two neighbours. */
  method AddBetween(entry: Filter, prev: Filter, next: Filter, ghost ring: seq<Filter>, ghost p: nat)
    requires Ring(ring) && 0 < p <= |ring| && entry !in ring
    requires prev == ring[p - 1] && next == ring[if p < |ring| then p else 0]
    modifies entry`next, entry`prev, ring`next, ring`prev
    ensures Ring(Inserted(ring, p, entry))
  {
    next.prev := entry;
    entry.next := next;
    entry.prev := prev;
    prev.next := entry;
    Relinked(ring, p, if p < |ring| then p else 0, entry);
  }

  /** What the four writes of __list_add leave is a ring with the new element. */
  lemma Relinked(ring: seq<Filter>, p: nat, q: nat, entry: Filter)
    requires 0 < p <= |ring| && q == (if p < |ring| then p else 0) && NoRepeats(ring) && entry !in ring
    requires ring[p - 1].next == entry && entry.prev == ring[p - 1] && entry.next == ring[q] && ring[q].prev == entry
    requires forall i {:trigger ring[i].next} :: 0 <= i < |ring| && i != p - 1 ==> ring[i].next == ring[Succ(i, |ring|)]
    requires forall i {:trigger ring[i].prev} :: 0 <= i < |ring| && i != q ==> ring[i].prev == ring[Pred(i, |ring|)]
    ensures Ring(Inserted(ring, p, entry))
  {
    var after, n := Inserted(ring, p, entry), |ring|;
    InsertedNoRepeats(ring, p, entry);
    forall i | 0 <= i <= n
      ensures after[i].next == after[Succ(i, n + 1)] && after[i].prev == after[Pred(i, n + 1)]
    {
      if i != p {
        var k := if i < p then i else i - 1;
        assert k != p - 1 ==> ring[k].next == ring[Succ(k, n)];
        assert k != q ==> ring[k].prev == ring[Pred(k, n)];
      }
    }
  }

  /** list_add: right after the head. */
  method Add(entry: Filter, head: Filter, ghost ring: seq<Filter>)
    requires Ring(ring) && entry !in ring && head == ring[0]
    modifies entry`next, entry`prev, ring`next, ring`prev
    ensures Ring(Inserted(ring, 1, entry))
  {
    assert ring[0].next == ring[Succ(0, |ring|)];
    AddBetween(entry, head, head.next, ring, 1);
  }

  /** list_add_tail: right before the head. */
  method AddTail(entry: Filter, head: Filter, ghost ring: seq<Filter>)
    requires Ring(ring) && entry !in ring && head == ring[0]
    modifies entry`next, entry`prev, ring`next, ring`prev
    ensures Ring(Inserted(ring, |ring|, entry))
  {
    assert ring[0].prev == ring[Pred(0, |ring|)];
    AddBetween(entry, head.prev, head, ring, |ring|);
  }

  /** list_del: the neighbours are linked to each other, the entry keeps its stale links. An entry
      in no list, a ring of its own, stays one. */
  method Del(entry: Filter, ghost ring: seq<Filter>, ghost p: nat)
    requires Ring(ring) && p < |ring| && entry == ring[p] && (p > 0 || |ring| == 1)
    modifies ring`next, ring`prev
    ensures if |ring| == 1 then Ring(ring) else Ring(Removed(ring, p))
    ensures entry.next == old(entry.next) && entry.prev == old(entry.prev)
  {
    ghost var n := |ring|;
    assert ring[p].next == ring[Succ(p, n)] && ring[p].prev == ring[Pred(p, n)];
    entry.next.prev := entry.prev;
    entry.prev.next := entry.next;
    if n > 1 { Unlinked(ring, p, Succ(p, n)); }
  }

  /** What the two writes of __list_del leave is a ring without the element. */
  lemma Unlinked(ring: seq<Filter>, p: nat, q: nat)
    requires 0 < p < |ring| && q == Succ(p, |ring|) && NoRepeats(ring)
    requires ring[p - 1].next == ring[q] && ring[q].prev == ring[p - 1]
    requires forall i {:trigger ring[i].next} :: 0 <= i < |ring| && i != p - 1 ==> ring[i].next == ring[Succ(i, |ring|)]
    requires forall i {:trigger ring[i].prev} :: 0 <= i < |ring| && i != q ==> ring[i].prev == ring[Pred(i, |ring|)]
    ensures Ring(Removed(ring, p))
  {
    var after, n := Removed(ring, p), |ring|;
    RemovedNoRepeats(ring, p);
    forall i | 0 <= i < n - 1
      ensures after[i].next == after[Succ(i, n - 1)] && after[i].prev == after[Pred(i, n - 1)]
    {
      var k := if i < p then i else i + 1;
      assert k != p - 1 ==> ring[k].next == ring[Succ(k, n)];
      assert k != q ==> ring[k].prev == ring[Pred(k, n)];
    }
  }

  /** list_del_init */
  method DelInit(entry: Filter, ghost ring: seq<Filter>, ghost p: nat)
    requires Ring(ring) && p < |ring| && entry == ring[p] && (p > 0 || |ring| == 1)
    modifies ring`next, ring`prev
    ensures |ring| > 1 ==> Ring(Removed(ring, p))
    ensures Ring([entry])
  {
    RemovedNoRepeats(ring, p);
    Del(entry, ring, p);
    entry.next := entry;
    entry.prev := entry;
  }

  /** list_empty */
  method IsEmpty(head: Filter, ghost ring: seq<Filter>) returns (empty: bool)
    requires Ring(ring) && head == ring[0]
    ensures empty <==> |ring| == 1
    ensures !empty ==> head.next == ring[1]
  {
    assert ring[0].next == ring[Succ(0, |ring|)];
    return head.next == head;
  }
}
