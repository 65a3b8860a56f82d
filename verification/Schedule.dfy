/** The filter scheduler of util/scan/scan.c (lines 1283-1465) on values: which filters run, which
    wait, and in which order they were added and started. */
module Schedule {
  import opened Bytes

  const MAX_RUNNING := 27

  /** `added` and `started` are history variables. */
  datatype Sched<F> = Sched(running: seq<F>, waiting: seq<F>, added: seq<F>, started: seq<F>)

  function Empty<F>(): Sched<F> { Sched([], [], [], []) }

  function Without<T(==)>(s: seq<T>, x: T): (r: seq<T>)
    ensures forall y {:trigger y in r} | y in r :: y in s
  {
    if s == [] then [] else if s[0] == x then s[1..] else [s[0]] + Without(s[1..], x)
  }

  lemma {:induction false} WithoutAt<T>(s: seq<T>, k: nat)
    requires NoRepeats(s) && k < |s|
    ensures Without(s, s[k]) == s[..k] + s[k + 1..]
  {
    if k > 0 {
      assert s[0] != s[k];
      WithoutAt(s[1..], k - 1);
      assert s[..k] == [s[0]] + s[1..][..k - 1];
    }
  }

  lemma {:induction false} WithoutKeepsOthers<T>(s: seq<T>, x: T)
    ensures forall y {:trigger y in s} :: y in s && y != x ==> y in Without(s, x)
  {
    if s != [] {
      WithoutKeepsOthers(s[1..], x);
      forall y {:trigger y in s} | y in s && y != x ensures y in Without(s, x) {
        if y != s[0] { assert y in s[1..]; }
      }
    }
  }

  lemma {:induction false} WithoutLength<T>(s: seq<T>, k: nat)
    requires k < |s|
    ensures |Without(s, s[k])| == |s| - 1
  {
    if s[0] != s[k] { WithoutLength(s[1..], k - 1); }
  }

  /** start_filter: to the front of the running list, and out of the waiting list if it heads it. */
  function Start<F(==)>(s: Sched<F>, f: F, opens: bool): (Sched<F>, bool) {
    if |s.running| >= MAX_RUNNING || !opens then (s, false)
    else
      var rest := if s.waiting != [] && s.waiting[0] == f then s.waiting[1..] else s.waiting;
      (s.(running := [f] + s.running, waiting := rest, started := s.started + [f]), true)
  }

  /** add_filter */
  function Add<F(==)>(s: Sched<F>, f: F, opens: bool): Sched<F> {
    var noted := s.(added := s.added + [f]);
    var (t, ok) := Start(noted, f, opens);
    if ok then t else noted.(waiting := s.waiting + [f])
  }

  /** The loop of remove_filter: start waiting filters from the head until one fails. */
  function Refill<F(==)>(s: Sched<F>, opens: nat -> bool, k: nat): Sched<F>
    decreases |s.waiting|
  {
    if s.waiting == [] then s else
      var (t, ok) := Start(s, s.waiting[0], opens(k));
      if ok then Refill(t, opens, k + 1) else s
  }

  /** One turn of the loop. */
  lemma RefillStep<F>(s: Sched<F>, opens: nat -> bool, k: nat)
    ensures s.waiting == [] ==> Refill(s, opens, k) == s
    ensures s.waiting != [] ==>
      var (t, ok) := Start(s, s.waiting[0], opens(k));
      if ok then |t.waiting| < |s.waiting| && Refill(s, opens, k) == Refill(t, opens, k + 1)
      else t == s == Refill(s, opens, k)
  {
  }

  /** remove_filter */
  function Remove<F(==)>(s: Sched<F>, f: F, opens: nat -> bool): Sched<F> {
    Refill(s.(running := Without(s.running, f)), opens, 0)
  }

  // ---------------------------------------------------------------- runs

  /** `opens` are the outcomes of opening and setting the demultiplexer filters. */
  datatype Event<F> = Added(f: F, open: bool) | Finished(f: F, opens: nat -> bool)

  /** Only a filter in no list is added, only a running filter is removed. */
  predicate Enabled<F(==)>(s: Sched<F>, e: Event<F>) {
    match e
    case Added(f, _) => f !in s.running && f !in s.waiting
    case Finished(f, _) => f in s.running
  }

  function Next<F(==)>(s: Sched<F>, e: Event<F>): Sched<F> {
    match e
    case Added(f, open) => Add(s, f, open)
    case Finished(f, opens) => Remove(s, f, opens)
  }

  predicate Possible<F(==)>(s: Sched<F>, events: seq<Event<F>>)
    decreases |events|
  {
    events == [] || (Enabled(s, events[0]) && Possible(Next(s, events[0]), events[1..]))
  }

  function Run<F(==)>(s: Sched<F>, events: seq<Event<F>>): Sched<F>
    decreases |events|
  {
    if events == [] then s else Run(Next(s, events[0]), events[1..])
  }

  lemma OneEvent<F>(s: Sched<F>, e: Event<F>)
    requires Enabled(s, e)
    ensures Possible(s, [e]) && Run(s, [e]) == Next(s, e)
    ensures e.Finished? ==> Next(s, e) == Remove(s, e.f, e.opens)
  {
  }

  lemma {:induction false} RunAppend<F>(s: Sched<F>, a: seq<Event<F>>, b: seq<Event<F>>)
    requires Possible(s, a) && Possible(Run(s, a), b)
    ensures Possible(s, a + b) && Run(s, a + b) == Run(Run(s, a), b)
    decreases |a|
  {
    if a == [] {
      assert a + b == b;
    } else {
      assert (a + b)[0] == a[0] && (a + b)[1..] == a[1..] + b;
      RunAppend(Next(s, a[0]), a[1..], b);
    }
  }

  /** No filter is listed twice, in one list or in both, and at most 27 run. */
  predicate Sound<F(==)>(s: Sched<F>) { NoRepeats(s.running + s.waiting) && |s.running| <= MAX_RUNNING }

  /** Filters start in the order they were added, and nothing waits while there is room. */
  predicate Fair<F(==)>(s: Sched<F>) {
    s.started + s.waiting == s.added && (s.waiting != [] ==> |s.running| == MAX_RUNNING)
  }

  ghost predicate AlwaysOpens<F>(e: Event<F>) {
    match e
    case Added(_, open) => open
    case Finished(_, opens) => forall k: nat :: opens(k)
  }

  lemma DistinctParts<T>(a: seq<T>, b: seq<T>)
    ensures NoRepeats(a + b) <==> NoRepeats(a) && NoRepeats(b) && forall x :: x in a ==> x !in b
  {
    var s := a + b;
    if NoRepeats(s) {
      forall x | x in a ensures x !in b {
        var i :| 0 <= i < |a| && a[i] == x;
        forall j | 0 <= j < |b| ensures b[j] != x { assert s[i] != s[|a| + j]; }
      }
      forall i, j | 0 <= i < j < |b| ensures b[i] != b[j] { assert s[|a| + i] != s[|a| + j]; }
      forall i, j | 0 <= i < j < |a| ensures a[i] != a[j] { assert s[i] != s[j]; }
      assert NoRepeats(a) && NoRepeats(b);
    } else if NoRepeats(a) && NoRepeats(b) && forall x :: x in a ==> x !in b {
      forall i, j | 0 <= i < j < |s| ensures s[i] != s[j] {
        if i < |a| <= j { assert s[i] in a && s[j] in b; }
      }
    }
  }

  /** A filter that starts was fresh or the first to wait. */
  lemma StartSound<F>(s: Sched<F>, f: F, opens: bool)
    requires Sound(s) && f !in s.running && (f !in s.waiting || (s.waiting != [] && s.waiting[0] == f))
    ensures Sound(Start(s, f, opens).0)
  {
    DistinctParts(s.running, s.waiting);
    var t := Start(s, f, opens).0;
    DistinctParts(t.running, t.waiting);
  }

  lemma {:induction false} RefillSound<F>(s: Sched<F>, opens: nat -> bool, k: nat)
    requires Sound(s)
    ensures Sound(Refill(s, opens, k))
    decreases |s.waiting|
  {
    if s.waiting != [] {
      DistinctParts(s.running, s.waiting);
      StartSound(s, s.waiting[0], opens(k));
      var (t, ok) := Start(s, s.waiting[0], opens(k));
      if ok { RefillSound(t, opens, k + 1); }
    }
  }

  lemma AddSound<F>(s: Sched<F>, f: F, opens: bool)
    requires Sound(s) && f !in s.running && f !in s.waiting
    ensures Sound(Add(s, f, opens))
  {
    var noted := s.(added := s.added + [f]);
    StartSound(noted, f, opens);
    DistinctParts(s.running, s.waiting);
    DistinctParts(s.waiting, [f]);
    DistinctParts(s.running, s.waiting + [f]);
  }

  lemma {:induction false} WithoutKeepsNoRepeats<T>(s: seq<T>, x: T)
    requires NoRepeats(s)
    ensures NoRepeats(Without(s, x))
  {
    if s != [] && s[0] != x {
      var rest := Without(s[1..], x);
      WithoutKeepsNoRepeats(s[1..], x);
      forall i | 0 <= i < |rest| ensures rest[i] != s[0] { assert rest[i] in rest; }
    }
  }

  lemma WithoutSound<F>(s: Sched<F>, f: F)
    requires Sound(s) && f in s.running
    ensures Sound(s.(running := Without(s.running, f)))
  {
    var k :| 0 <= k < |s.running| && s.running[k] == f;
    DistinctParts(s.running, s.waiting);
    DistinctParts(Without(s.running, f), s.waiting);
    WithoutKeepsNoRepeats(s.running, f);
    WithoutLength(s.running, k);
    hide NoRepeats;
  }

  lemma NextSound<F>(s: Sched<F>, e: Event<F>)
    requires Sound(s) && Enabled(s, e)
    ensures Sound(Next(s, e))
  {
    hide Sound;
    match e
    case Added(f, open) => AddSound(s, f, open);
    case Finished(f, opens) =>
      WithoutSound(s, f);
      RefillSound(s.(running := Without(s.running, f)), opens, 0);
  }

  /** The device opens when it matters: for a filter that is added while there is room, and for the first of
      those that wait when a filter finishes. */
  predicate Served<F(==)>(s: Sched<F>, e: Event<F>) {
    match e
    case Added(_, open) => open || |s.running| == MAX_RUNNING
    case Finished(_, opens) => opens(0) || s.waiting == []
  }

  /** First come, first served survives an event exactly if the device opens when it matters. */
  lemma NextFair<F>(s: Sched<F>, e: Event<F>)
    requires Sound(s) && Fair(s) && Enabled(s, e)
    ensures Fair(Next(s, e)) <==> Served(s, e)
  {
    match e
    case Added(f, _) =>
      assert |s.running| < MAX_RUNNING ==> s.started + [f] + [] == s.added + [f];
      assert s.started + (s.waiting + [f]) == s.added + [f];
    case Finished(f, opens) =>
      var k :| 0 <= k < |s.running| && s.running[k] == f;
      WithoutLength(s.running, k);
      var left := s.(running := Without(s.running, f));
      RefillStep(left, opens, 0);
      if s.waiting != [] && opens(0) {
        var t := Start(left, s.waiting[0], true).0;
        RefillStep(t, opens, 1);
        assert t.started + t.waiting == s.started + s.waiting;
      }
  }

  // ---------------------------------------------------------------- single calls

  /** add_filter: with fewer than 27 running and a device that opens, to the front of the running list,
      otherwise to the end of the waiting list. */
  lemma AddMeans<F>(s: Sched<F>, f: F, open: bool)
    requires f !in s.waiting
    ensures var r := Add(s, f, open);
      && r.added == s.added + [f]
      && (if |s.running| < 27 && open then r.running == [f] + s.running && r.waiting == s.waiting && r.started == s.started + [f]
          else r.running == s.running && r.waiting == s.waiting + [f] && r.started == s.started)
  {
  }

  /** remove_filter: the filters that are started are the first of the waiting ones, as many as there is room for
      and as the device opens without refusing one; each goes to the front of the running list. */
  lemma {:induction false} RefillMeans<F>(s: Sched<F>, opens: nat -> bool, k: nat, n: nat)
    requires n <= |s.waiting| && |s.running| + n <= 27 && forall i :: k <= i < k + n ==> opens(i)
    requires n == |s.waiting| || |s.running| + n == 27 || !opens(k + n)
    ensures var r := Refill(s, opens, k);
      && r.waiting == s.waiting[n..] && r.added == s.added && r.started == s.started + s.waiting[..n]
      && r.running == Reversed(s.waiting[..n]) + s.running
    decreases n
  {
    RefillStep(s, opens, k);
    if n == 0 {
      assert s.started + [] == s.started && [] + s.running == s.running;
    } else {
      var first, rest := s.waiting[0], s.waiting[1..];
      var t := Start(s, first, true).0;
      assert opens(k) && Start(s, first, opens(k)) == (t, true);
      assert t == s.(running := [first] + s.running, waiting := rest, started := s.started + [first]);
      hide Refill;
      hide Start;
      RefillMeans(t, opens, k + 1, n - 1);
      Regroup(s, rest[..n - 1], first);
      assert s.waiting[..n] == [first] + rest[..n - 1];
    }
  }

  lemma Regroup<F>(s: Sched<F>, more: seq<F>, first: F)
    ensures s.started + [first] + more == s.started + ([first] + more)
    ensures Reversed(more) + ([first] + s.running) == Reversed([first] + more) + s.running
  {
    assert ([first] + more)[1..] == more;
  }

  function Reversed<T>(s: seq<T>): seq<T> { if s == [] then [] else Reversed(s[1..]) + [s[0]] }

  // ---------------------------------------------------------------- no filter is lost

  /** What the two lists hold. */
  function Held<F(==)>(s: Sched<F>): multiset<F> { multiset(s.running) + multiset(s.waiting) }

  function In<F(==)>(events: seq<Event<F>>): multiset<F> {
    if events == [] then multiset{} else (if events[0].Added? then multiset{events[0].f} else multiset{}) + In(events[1..])
  }

  function Out<F(==)>(events: seq<Event<F>>): multiset<F> {
    if events == [] then multiset{} else (if events[0].Finished? then multiset{events[0].f} else multiset{}) + Out(events[1..])
  }

  /** Whatever the device says, what was held and what was added is what is held and what has finished. */
  predicate Conserved<F(==)>(s: Sched<F>, events: seq<Event<F>>, r: Sched<F>) {
    Held(r) + Out(events) == Held(s) + In(events)
  }

  lemma {:induction false} WithoutBag<T>(s: seq<T>, x: T)
    requires x in s
    ensures multiset(Without(s, x)) + multiset{x} == multiset(s)
  {
    assert s == [s[0]] + s[1..];
    if s[0] != x { WithoutBag(s[1..], x); }
  }

  /** A filter that starts comes to the lists, unless it headed the waiting list. */
  lemma StartBag<F>(s: Sched<F>, f: F, opens: bool)
    ensures var (t, ok) := Start(s, f, opens);
      Held(t) == if ok && !(s.waiting != [] && s.waiting[0] == f) then Held(s) + multiset{f} else Held(s)
  {
    BagOfMore(f, s.running);
    if s.waiting != [] {
      BagOfMore(s.waiting[0], s.waiting[1..]);
      assert s.waiting == [s.waiting[0]] + s.waiting[1..];
    }
  }

  lemma BagOfMore<T>(x: T, s: seq<T>)
    ensures multiset([x] + s) == multiset(s) + multiset{x}
  {
  }

  lemma {:induction false} RefillBag<F>(s: Sched<F>, opens: nat -> bool, k: nat)
    ensures Held(Refill(s, opens, k)) == Held(s)
    decreases |s.waiting|
  {
    if s.waiting != [] {
      StartBag(s, s.waiting[0], opens(k));
      var (t, ok) := Start(s, s.waiting[0], opens(k));
      if ok { RefillBag(t, opens, k + 1); }
    }
  }

  lemma NextBag<F>(s: Sched<F>, e: Event<F>)
    requires Enabled(s, e)
    ensures Held(Next(s, e)) == if e.Added? then Held(s) + multiset{e.f} else Held(s) - multiset{e.f}
  {
    match e
    case Added(f, open) =>
      StartBag(s.(added := s.added + [f]), f, open);
    case Finished(f, opens) =>
      WithoutBag(s.running, f);
      RefillBag(s.(running := Without(s.running, f)), opens, 0);
  }

  lemma Counted<F>(before: multiset<F>, after: multiset<F>, end: multiset<F>, came: multiset<F>, went: multiset<F>, e: Event<F>)
    requires end + went == after + came
    requires after == if e.Added? then before + multiset{e.f} else before - multiset{e.f}
    requires e.Finished? ==> e.f in before
    ensures end + ((if e.Finished? then multiset{e.f} else multiset{}) + went) == before + ((if e.Added? then multiset{e.f} else multiset{}) + came)
  {
    if e.Finished? {
      assert after + multiset{e.f} == before;
      assert end + (multiset{e.f} + went) == after + came + multiset{e.f};
    } else {
      assert multiset{} + went == went;
      assert end + went == before + multiset{e.f} + came;
    }
  }

  /** No filter is lost or doubled, whether the device opens or not. */
  lemma {:induction false} RunConserves<F>(s: Sched<F>, events: seq<Event<F>>)
    requires Possible(s, events)
    ensures Conserved(s, events, Run(s, events))
    decreases |events|
  {
    if events != [] {
      var next, rest := Next(s, events[0]), events[1..];
      NextBag(s, events[0]);
      RunConserves(next, rest);
      Counted(Held(s), Held(next), Held(Run(next, rest)), In(rest), Out(rest), events[0]);
    }
  }

  // ---------------------------------------------------------------- those who wait stand in line

  /** `w` comes from `a` by leaving elements out. */
  predicate Subsequence<T(==)>(w: seq<T>, a: seq<T>)
    decreases |a|
  {
    w == [] || (a != [] &&
      if w[|w| - 1] == a[|a| - 1] then Subsequence(w[..|w| - 1], a[..|a| - 1]) else Subsequence(w, a[..|a| - 1]))
  }

  lemma {:induction false} SubsequenceOfLonger<T>(w: seq<T>, a: seq<T>, x: T)
    requires Subsequence(w, a)
    ensures Subsequence(w, a + [x]) && (w != [] ==> Subsequence(w[..|w| - 1], a))
    decreases |a|
  {
    assert (a + [x])[..|a|] == a;
    if w != [] {
      var last := a[|a| - 1];
      assert a[..|a| - 1] + [last] == a;
      if w[|w| - 1] == last {
        SubsequenceOfLonger(w[..|w| - 1], a[..|a| - 1], last);
      } else {
        SubsequenceOfLonger(w, a[..|a| - 1], last);
        SubsequenceOfLonger(w[..|w| - 1], a[..|a| - 1], last);
      }
    }
  }

  lemma {:induction false} SubsequenceTail<T>(w: seq<T>, a: seq<T>)
    requires Subsequence(w, a) && w != []
    ensures Subsequence(w[1..], a)
    decreases |a|
  {
    var shorter := a[..|a| - 1];
    if w[|w| - 1] != a[|a| - 1] {
      SubsequenceTail(w, shorter);
      SubsequenceOfLonger(w[1..], shorter, a[|a| - 1]);
      assert shorter + [a[|a| - 1]] == a;
    } else if |w| > 1 {
      SubsequenceTail(w[..|w| - 1], shorter);
      assert w[..|w| - 1][1..] == w[1..][..|w| - 2];
    }
  }

  lemma {:induction false} RefillInLine<F>(s: Sched<F>, opens: nat -> bool, k: nat)
    requires Subsequence(s.waiting, s.added)
    ensures var r := Refill(s, opens, k); Subsequence(r.waiting, r.added)
    decreases |s.waiting|
  {
    if s.waiting != [] {
      SubsequenceTail(s.waiting, s.added);
      var (t, ok) := Start(s, s.waiting[0], opens(k));
      if ok { RefillInLine(t, opens, k + 1); }
    }
  }

  lemma NextInLine<F>(s: Sched<F>, e: Event<F>)
    requires Subsequence(s.waiting, s.added) && Enabled(s, e)
    ensures var r := Next(s, e); Subsequence(r.waiting, r.added)
  {
    match e
    case Added(f, open) =>
      var w := s.waiting + [f];
      assert (s.added + [f])[..|s.added|] == s.added && w[..|s.waiting|] == s.waiting;
      SubsequenceOfLonger(s.waiting, s.added, f);
    case Finished(f, opens) =>
      RefillInLine(s.(running := Without(s.running, f)), opens, 0);
  }

  /** A filter that has finished is in no list. */
  lemma FinishedIsGone<F>(s: Sched<F>, f: F, opens: nat -> bool)
    requires Sound(s) && f in s.running
    ensures f !in Remove(s, f, opens).running && f !in Remove(s, f, opens).waiting
  {
    var r := Next(s, Finished(f, opens));
    HeldOnce(s, f);
    NextBag(s, Finished(f, opens));
    assert Held(r)[f] == 0;
  }

  // ---------------------------------------------------------------- the two results

  predicate Listed<F(==)>(s: Sched<F>, f: F) { f in s.running || f in s.waiting }

  /** Over every run, whatever the device says, at most 27 filters run and a filter is in a list exactly if
      it came and has not finished: then in one of the two, and once. Those who wait stand in the order they
      were added. */
  lemma SchedulerRun<F>(s: Sched<F>, events: seq<Event<F>>)
    requires Sound(s) && Possible(s, events)
    ensures var r := Run(s, events);
      && Sound(r) && Conserved(s, events, r)
      && (forall f :: Held(s)[f] + In(events)[f] == Out(events)[f] + if Listed(r, f) then 1 else 0)
      && (forall f :: f in r.running ==> f !in r.waiting)
      && (Subsequence(s.waiting, s.added) ==> Subsequence(r.waiting, r.added))
  {
    var r := Run(s, events);
    RunSound(s, events);
    RunConserves(s, events);
    DistinctParts(r.running, r.waiting);
    forall f ensures Held(s)[f] + In(events)[f] == Out(events)[f] + if Listed(r, f) then 1 else 0 {
      HeldOnce(r, f);
      assert (Held(r) + Out(events))[f] == (Held(s) + In(events))[f];
    }
  }

  lemma HeldOnce<F>(s: Sched<F>, f: F)
    requires Sound(s)
    ensures Held(s)[f] == if Listed(s, f) then 1 else 0
  {
    Once(s.running + s.waiting, f);
  }

  lemma {:induction false} Once<T>(s: seq<T>, x: T)
    requires NoRepeats(s)
    ensures multiset(s)[x] == if x in s then 1 else 0
  {
    if s != [] {
      assert s == [s[0]] + s[1..];
      Once(s[1..], x);
    }
  }

  lemma {:induction false} RunSound<F>(s: Sched<F>, events: seq<Event<F>>)
    requires Sound(s) && Possible(s, events)
    ensures Sound(Run(s, events))
    ensures Subsequence(s.waiting, s.added) ==> Subsequence(Run(s, events).waiting, Run(s, events).added)
    decreases |events|
  {
    if events != [] {
      NextSound(s, events[0]);
      if Subsequence(s.waiting, s.added) { NextInLine(s, events[0]); }
      RunSound(Next(s, events[0]), events[1..]);
    }
  }

  predicate FairThroughout<F(==)>(s: Sched<F>, events: seq<Event<F>>)
    decreases |events|
  {
    Fair(s) && (events == [] || FairThroughout(Next(s, events[0]), events[1..]))
  }

  predicate ServedThroughout<F(==)>(s: Sched<F>, events: seq<Event<F>>)
    decreases |events|
  {
    events == [] || (Served(s, events[0]) && ServedThroughout(Next(s, events[0]), events[1..]))
  }

  /** Over every run: filters start in the order added, and wait only while 27 are running, exactly if the
      device opens whenever it matters. */
  lemma {:induction false} FairExactly<F>(s: Sched<F>, events: seq<Event<F>>)
    requires Sound(s) && Fair(s) && Possible(s, events)
    ensures FairThroughout(s, events) <==> ServedThroughout(s, events)
    ensures ServedThroughout(s, events) ==> Fair(Run(s, events))
    decreases |events|
  {
    if events != [] {
      NextSound(s, events[0]);
      NextFair(s, events[0]);
      if Served(s, events[0]) { FairExactly(Next(s, events[0]), events[1..]); }
    }
  }

  /** A device that never fails opens when it matters. */
  lemma {:induction false} AlwaysServed<F>(s: Sched<F>, events: seq<Event<F>>)
    requires Possible(s, events) && forall e :: e in events ==> AlwaysOpens(e)
    ensures ServedThroughout(s, events)
    decreases |events|
  {
    if events != [] {
      assert events[0] in events;
      AlwaysServed(Next(s, events[0]), events[1..]);
    }
  }

  /** A device that refuses once: the filter waits while there is room, and the next one starts before it. */
  lemma RefusedOnce<F>(a: F, b: F)
    requires a != b
    ensures var s := Run(Empty(), [Added(a, false), Added(b, true)]);
      s.added == [a, b] && s.waiting == [a] && s.started == s.running == [b] && !Fair(s)
  {
    var events := [Added(a, false), Added(b, true)];
    var first := Next(Empty(), events[0]);
    assert first == Sched([], [a], [a], []);
    assert events[1..] == [events[1]] && [events[1]][1..] == [];
    assert Run(first, [events[1]]) == Next(first, events[1]);
    assert Next(first, events[1]) == Sched([b], [a], [a, b], [b]);
  }

  /** The empty scheduler of the program start. */
  lemma EmptyIsSound<F>()
    ensures Sound(Empty<F>()) && Fair(Empty<F>())
  {
  }
}
