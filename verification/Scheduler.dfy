/** The filter scheduler of util/scan/scan.c (lines 1283-1465) on its linked lists and poll arrays. */
module ScanScheduler {
  import opened Bytes
  import opened FilterList
  import Q = Schedule

  /** What the device says to open() and ioctl(DMX_SET_FILTER), and the time. */
  datatype Device = Device(handle: int, accepts: bool, now: int)

  predicate Opens(d: Device) { d.handle >= 0 && d.accepts }

  /** A filter that parsing a section asks for. */
  datatype Found = Found(runOnce: bool, timeout: int, device: Device)

  /** What read_sections does on a filter: completes it or not, and adds new ones. */
  datatype Reading = Reading(done: bool, found: seq<Found>)

  /** Every filter this turn opens is opened. */
  ghost predicate DeviceWorks(reading: Reading, devices: nat -> Device) {
    (forall i :: 0 <= i < |reading.found| ==> Opens(reading.found[i].device)) && forall k: nat :: Opens(devices(k))
  }

  ghost predicate DeviceAlwaysWorks(readings: nat -> Reading, devices: nat -> nat -> Device) {
    forall i: nat :: DeviceWorks(readings(i), devices(i))
  }

  /** One addition for each filter found, in order, with what the device says to it. */
  ghost predicate AddsAll(events: seq<Q.Event<Filter>>, found: seq<Found>) {
    |events| == |found| && forall i :: 0 <= i < |found| ==>
      && events[i].Added? && events[i].open == Opens(found[i].device)
      && events[i].f.runOnce == found[i].runOnce && events[i].f.timeout == found[i].timeout
  }

  /** One turn of the loop of read_filters: its filter, whether poll() said it is ready, when it started, and
      the additions and the removal of this turn. */
  datatype Turn = Turn(filter: Filter, ready: bool, startTime: int, events: seq<Q.Event<Filter>>)

  /** The filter runs once and is done, or its time is over. */
  ghost predicate Removes(t: Turn, reading: Reading, clock: int) {
    t.filter.runOnce && ((t.ready && reading.done) || clock > t.startTime + t.filter.timeout)
  }

  /** Exactly the filters found are added, and exactly then is the filter removed. */
  ghost predicate Taken(t: Turn, reading: Reading, clock: int, devices: nat -> Device) {
    var found := if t.ready then reading.found else [];
    && |t.events| == |found| + (if Removes(t, reading, clock) then 1 else 0)
    && AddsAll(t.events[..|found|], found)
    && (Removes(t, reading, clock) ==> t.events[|found|] == Q.Finished(t.filter, Outcomes(devices)))
  }

  /** What a turn tells: a filter finishes in it exactly if it is that of the turn, runs once, and was ready and is
      done or has had its time; nothing is added unless it was ready, and then one filter for each found. */
  lemma TurnMeans(t: Turn, reading: Reading, clock: int, devices: nat -> Device)
    requires Taken(t, reading, clock, devices)
    ensures forall f, opens :: Q.Finished(f, opens) in t.events ==> f == t.filter && forall k: nat :: opens(k) == (devices(k).handle >= 0 && devices(k).accepts)
    ensures Q.Finished(t.filter, Outcomes(devices)) in t.events <==>
      t.filter.runOnce && ((t.ready && reading.done) || clock > t.startTime + t.filter.timeout)
    ensures var n := if t.ready then |reading.found| else 0;
      n <= |t.events| <= n + 1 && (forall i :: 0 <= i < |t.events| ==> (t.events[i].Added? <==> i < n))
      && forall i :: 0 <= i < n ==> t.events[i].open == (reading.found[i].device.handle >= 0 && reading.found[i].device.accepts)
  {
    var found := if t.ready then reading.found else [];
    var added := t.events[..|found|];
    assert forall i :: 0 <= i < |found| ==> t.events[i] == added[i];
    hide Outcomes;
    assert Removes(t, reading, clock) ==> t.events[|found|] in t.events;
    forall k: nat ensures Outcomes(devices)(k) == (devices(k).handle >= 0 && devices(k).accepts) { OutcomesMean(devices, k); }
  }

  lemma OutcomesMean(devices: nat -> Device, k: nat)
    ensures Outcomes(devices)(k) == (devices(k).handle >= 0 && devices(k).accepts)
  {
  }

  function EventsOf(turns: seq<Turn>): seq<Q.Event<Filter>> {
    if turns == [] then [] else EventsOf(turns[..|turns| - 1]) + turns[|turns| - 1].events
  }

  /** The running list has not changed up to this turn. */
  ghost predicate Undisturbed(s: Q.Sched<Filter>, turns: seq<Turn>, i: nat)
    requires i <= |turns|
  {
    forall j :: 0 <= j <= i ==> Q.Run(s, EventsOf(turns[..j])).running == s.running
  }

  /** None of the first `n` places is marked ready. */
  ghost predicate Silent(n: nat, answers: seq<bool>) { n <= |answers| && forall k :: 0 <= k < n ==> !answers[k] }

  /** The answers of poll() stand as long as nothing has disturbed the list; then none is left. */
  ghost predicate Standing(s: Q.Sched<Filter>, turns: seq<Turn>, now: Q.Sched<Filter>, answers: seq<bool>, ready: nat -> bool) {
    if Undisturbed(s, turns, |turns|) then
      now.running == s.running && |now.running| <= |answers| && forall k :: 0 <= k < |now.running| ==> answers[k] == ready(k)
    else Silent(|now.running|, answers)
  }

  lemma StandingMeans(s: Q.Sched<Filter>, turns: seq<Turn>, now: Q.Sched<Filter>, answers: seq<bool>, ready: nat -> bool)
    requires Standing(s, turns, now, answers, ready) && |turns| < |now.running|
    ensures |turns| < |answers| && answers[|turns|] == (ready(|turns|) && Undisturbed(s, turns, |turns|))
  {
  }

  lemma StandingFirst(s: Q.Sched<Filter>, answers: seq<bool>, ready: nat -> bool)
    requires |s.running| <= |answers| && forall k :: 0 <= k < |s.running| ==> answers[k] == ready(k)
    ensures Standing(s, [], s, answers, ready)
  {
    NothingYet(s);
  }

  lemma StillStanding(s: Q.Sched<Filter>, turns: seq<Turn>, t: Turn, before: Q.Sched<Filter>, was: seq<bool>,
                      now: Q.Sched<Filter>, answers: seq<bool>, ready: nat -> bool)
    requires Standing(s, turns, before, was, ready) && now == Q.Run(s, EventsOf(turns + [t]))
    requires if now.running == before.running then answers == was else Silent(|now.running|, answers)
    ensures Standing(s, turns + [t], now, answers, ready)
  {
    TurnAdded(s, turns, t, ready);
    hide Undisturbed;
  }

  /** Turn `i` is about the filter that runs in place `i` when it comes, and sees the answer of poll() for it if
      nothing has disturbed the list. */
  ghost predicate InPlace(s: Q.Sched<Filter>, turns: seq<Turn>, i: nat, ready: nat -> bool)
    requires i < |turns|
  {
    var now := Q.Run(s, EventsOf(turns[..i])).running;
    i < |now| && turns[i].filter == now[i] && turns[i].ready == (ready(i) && Undisturbed(s, turns, i))
  }

  /** In none of these events an open fails. */
  ghost predicate AllOpen(events: seq<Q.Event<Filter>>) { forall e :: e in events ==> Q.AlwaysOpens(e) }

  lemma AllOpenNone()
    ensures AllOpen([])
  {
  }

  /** What a pass keeps: no filter is lost or listed twice, those who wait stay in order, and it is
      first come, first served throughout exactly if the device opens whenever it matters. */
  ghost predicate Kept(s: Q.Sched<Filter>, events: seq<Q.Event<Filter>>, r: Q.Sched<Filter>) {
    && Q.Sound(r) && Q.Conserved(s, events, r)
    && (Q.Subsequence(s.waiting, s.added) ==> Q.Subsequence(r.waiting, r.added))
    && (Q.Fair(s) ==> (Q.FairThroughout(s, events) <==> Q.ServedThroughout(s, events)))
    && (Q.Fair(s) && AllOpen(events) ==> Q.Fair(r))
  }

  lemma RunKeeps(s: Q.Sched<Filter>, events: seq<Q.Event<Filter>>)
    requires Q.Sound(s) && Q.Possible(s, events)
    ensures Kept(s, events, Q.Run(s, events))
  {
    Q.SchedulerRun(s, events);
    if Q.Fair(s) {
      Q.FairExactly(s, events);
      if AllOpen(events) { Q.AlwaysServed(s, events); }
    }
  }

  lemma AllOpenJoined(a: seq<Q.Event<Filter>>, b: seq<Q.Event<Filter>>)
    ensures AllOpen(a) && AllOpen(b) ==> AllOpen(a + b)
  {
  }

  function Outcomes(devices: nat -> Device): nat -> bool { (k: nat) => Opens(devices(k)) }

  /** list_del_init and list_add of start_filter: out of the list the filter is in, if any, and to
      the front of the running list. `other` is a list it is not in, or nothing. */
  method MoveToRunning(f: Filter, head: Filter, ghost runs: seq<Filter>, ghost from: seq<Filter>, ghost p: nat,
                       ghost other: seq<Filter>)
    requires Ring(runs) && Ring(from) && runs[0] == head && p < |from| && from[p] == f && (p > 0 || |from| == 1)
    requires Apart(runs, from) && (other == [] || (Ring(other) && Apart(other, runs) && Apart(other, from)))
    modifies runs`next, runs`prev, from`next, from`prev
    ensures Ring(Inserted(runs, 1, f))
    ensures |from| > 1 ==> Ring(Removed(from, p))
    ensures other == [] || Ring(other)
  {
    ghost var rest := Removed(from, p);
    RemovedNoRepeats(from, p);
    assert forall k :: 0 <= k < |rest| ==> rest[k] != f && rest[k] !in runs by { assert forall k :: 0 <= k < |rest| ==> rest[k] in from; }
    hide Ring;
    hide Removed;
    DelInit(f, from, p);
    assert Ring(runs) by { assert forall k :: 0 <= k < |runs| ==> runs[k].next == old(runs[k].next) && runs[k].prev == old(runs[k].prev); }
    Add(f, head, runs);
  }

  predicate Apart(a: seq<Filter>, b: seq<Filter>) { forall i :: 0 <= i < |a| ==> a[i] !in b }

  lemma ApartAfterStart(r: Filter, w: Filter, runs: seq<Filter>, waits: seq<Filter>, f: Filter, first: bool)
    requires Apart([r] + runs, [w] + waits) && NoRepeats([w] + waits) && f !in [r] + runs
    requires if first then waits != [] && waits[0] == f else f !in [w] + waits
    ensures Apart([r] + ([f] + runs), [w] + if first then waits[1..] else waits)
  {
    var a, b := [r] + ([f] + runs), [w] + if first then waits[1..] else waits;
    assert forall k :: 0 <= k < |b| ==> b[k] == ([w] + waits)[if first && k > 0 then k + 1 else k];
    forall i | 0 <= i < |a| ensures a[i] !in b {
      if i != 1 {
        assert a[i] == ([r] + runs)[if i == 0 then 0 else i - 1];
      } else if first {
        assert ([w] + waits)[1] == f;
      }
    }
  }

  lemma ApartBeforeStart(runRing: seq<Filter>, waitRing: seq<Filter>, f: Filter, first: bool)
    requires Apart(runRing, waitRing) && f !in runRing && (first || f !in waitRing)
    ensures var from, other := if first then waitRing else [f], if first then [] else waitRing;
      Apart(runRing, from) && Apart(other, runRing) && Apart(other, from)
  {
    ApartSwap(runRing, waitRing);
  }

  lemma NewRings(r: Filter, w: Filter, runs: seq<Filter>, waits: seq<Filter>, f: Filter)
    ensures Inserted([r] + runs, 1, f) == [r] + ([f] + runs)
    ensures waits != [] ==> Removed([w] + waits, 1) == [w] + waits[1..] && ([w] + waits)[1] == waits[0]
  {
  }

  lemma ApartSwap(a: seq<Filter>, b: seq<Filter>)
    requires Apart(a, b)
    ensures Apart(b, a)
  {
  }

  lemma ApartRemoved(a: seq<Filter>, b: seq<Filter>, k: nat)
    requires Apart(a, b) && k < |a|
    ensures Apart(Removed(a, k), b)
  {
  }

  lemma WithoutRunning(r: Filter, runs: seq<Filter>, k: nat)
    requires NoRepeats([r] + runs) && k < |runs|
    ensures Removed([r] + runs, k + 1) == [r] + Q.Without(runs, runs[k])
    ensures runs[k] !in [r] + Q.Without(runs, runs[k])
  {
    var ring := [r] + runs;
    assert ring[0] == r && ring[1..] == runs && ring[k + 1] == runs[k];
    Q.WithoutAt(ring, k + 1);
    RemovedNoRepeats(ring, k + 1);
  }

  lemma RingHasNoRepeats(ring: seq<Filter>)
    requires Ring(ring)
    ensures NoRepeats(ring)
  {
  }

  /** list_del of stop_filter; `other` is a list without the filter. */
  method Unhook(f: Filter, ghost ring: seq<Filter>, ghost p: nat, ghost other: seq<Filter>)
    requires Ring(ring) && 0 < p < |ring| && ring[p] == f && Ring(other) && Apart(other, ring)
    modifies ring`next, ring`prev
    ensures Ring(Removed(ring, p)) && Ring(other)
  {
    assert forall i :: 0 <= i < |other| ==> other[i] !in ring;
    hide Ring;
    hide Apart;
    hide Removed;
    Del(f, ring, p);
    assert Ring(other) by { assert forall k :: 0 <= k < |other| ==> other[k].next == old(other[k].next) && other[k].prev == old(other[k].prev); }
  }

  class Scheduler {
    const running: Filter
    const waiting: Filter
    var nRunning: int
    const pollFds: array<int>
    const pollReady: array<bool>
    const pollBufs: array<Filter?>
    ghost var sched: Q.Sched<Filter>

    ghost function RunRing(): seq<Filter>
      reads this
    {
      [running] + sched.running
    }

    ghost function WaitRing(): seq<Filter>
      reads this
    {
      [waiting] + sched.waiting
    }

    /** The lists are well formed and apart, and the counter counts. */
    ghost predicate Lists()
      reads this, running, waiting, sched.running, sched.waiting
    {
      && Ring(RunRing()) && Ring(WaitRing())
      && Apart(RunRing(), WaitRing())
      && nRunning == |sched.running| <= Q.MAX_RUNNING
      && (forall i :: 0 <= i < |sched.running| ==> sched.running[i].fd != -1)
      && pollFds.Length == pollReady.Length == pollBufs.Length == Q.MAX_RUNNING
    }

    /** The poll arrays mirror the running list, position by position. */
    ghost predicate Mirrored()
      reads this, sched.running, pollFds, pollBufs
    {
      && |sched.running| <= pollFds.Length == pollBufs.Length
      && (forall i :: 0 <= i < pollBufs.Length ==> pollBufs[i] == if i < |sched.running| then sched.running[i] else null)
      && (forall i :: 0 <= i < pollFds.Length ==> pollFds[i] == if i < |sched.running| then sched.running[i].fd else -1)
    }

    ghost predicate Valid()
      reads this, running, waiting, sched.running, sched.waiting, pollFds, pollBufs
    {
      Lists() && Mirrored()
    }

    /** What is left of the answers of poll() once the arrays have been rebuilt. */
    ghost predicate NoneReady()
      reads this, pollReady
    {
      Silent(|sched.running|, pollReady[..])
    }

    /** In neither list. */
    ghost predicate Elsewhere(f: Filter)
      reads this
    {
      f !in RunRing() && f !in WaitRing()
    }

    /** The static variables of the program start. */
    constructor ()
      ensures Valid() && sched == Q.Empty() && fresh(running) && fresh(waiting) && fresh(pollFds) && fresh(pollReady) && fresh(pollBufs)
    {
      var r := new Filter(false, 0);
      var w := new Filter(false, 0);
      running := r;
      waiting := w;
      nRunning := 0;
      pollFds := new int[Q.MAX_RUNNING](_ => -1);
      pollReady := new bool[Q.MAX_RUNNING](_ => false);
      pollBufs := new Filter?[Q.MAX_RUNNING](_ => null);
      sched := Q.Empty();
    }

    /** The clearing part of update_poll_fds. */
    method ClearPollFds()
      requires pollFds.Length == pollBufs.Length == Q.MAX_RUNNING
      modifies pollFds, pollBufs
      ensures forall k :: 0 <= k < Q.MAX_RUNNING ==> pollFds[k] == -1 && pollBufs[k] == null
    {
      var j := 0;
      while j < Q.MAX_RUNNING
        invariant j <= Q.MAX_RUNNING
        invariant forall k :: 0 <= k < j ==> pollFds[k] == -1 && pollBufs[k] == null
      {
        pollBufs[j] := null;
        pollFds[j] := -1;
        j := j + 1;
      }
    }

    /** update_poll_fds: none of its three fatal() calls is reached. */
    method UpdatePollFds()
      requires Lists()
      modifies pollFds, pollReady, pollBufs
      ensures Valid() && NoneReady()
    {
      ClearPollFds();
      hide Apart;
      ghost var ring := RunRing();
      var i := 0;
      assert running == ring[0] && ring[0].next == ring[Succ(0, |ring|)];
      var p := running.next;
      while p != running
        invariant 0 <= i < |ring| && p == ring[Succ(i, |ring|)]
        invariant forall k :: 0 <= k < i ==> pollFds[k] == ring[k + 1].fd && pollBufs[k] == ring[k + 1]
        invariant forall k :: i <= k < Q.MAX_RUNNING ==> pollFds[k] == -1 && pollBufs[k] == null
        invariant forall k :: 0 <= k < i ==> !pollReady[k]
        decreases |ring| - i
      {
        assert Succ(i, |ring|) == i + 1 && p == sched.running[i];
        assert i < Q.MAX_RUNNING;      // too many poll_fds
        assert p.fd != -1;             // s->fd == -1 on running_filters
        pollFds[i] := p.fd;
        pollReady[i] := false;
        pollBufs[i] := p;
        i := i + 1;
        assert ring[i].next == ring[Succ(i, |ring|)];
        p := p.next;
      }
      assert Succ(i, |ring|) == 0;
      assert i == nRunning;            // n_running is hosed
    }

    /** In no list, or the first of the waiting filters. */
    ghost predicate Startable(f: Filter)
      reads this, f
    {
      f !in RunRing() && ((f !in WaitRing() && Ring([f])) || First(f))
    }

    ghost predicate First(f: Filter)
      reads this
    {
      sched.waiting != [] && sched.waiting[0] == f
    }

    /** The list moves of start_filter. */
    method Relist(f: Filter)
      requires Ring(RunRing()) && Ring(WaitRing()) && Apart(RunRing(), WaitRing()) && Startable(f)
      requires |sched.running| < Q.MAX_RUNNING
      modifies this`sched, RunRing()`next, RunRing()`prev, WaitRing()`next, WaitRing()`prev, f`next, f`prev
      ensures Ring(RunRing()) && Ring(WaitRing()) && Apart(RunRing(), WaitRing())
      ensures sched == Q.Start(old(sched), f, true).0
    {
      ghost var runs, waits, first := sched.running, sched.waiting, First(f);
      ghost var rest := if first then waits[1..] else waits;
      ghost var from := if first then WaitRing() else [f];
      ghost var other := if first then [] else WaitRing();
      hide Ring;
      hide Apart;
      hide Removed;
      hide Inserted;
      hide NoRepeats;
      RingHasNoRepeats(WaitRing());
      ApartAfterStart(running, waiting, runs, waits, f, first);
      ApartBeforeStart(RunRing(), WaitRing(), f, first);
      NewRings(running, waiting, runs, waits, f);
      MoveToRunning(f, running, RunRing(), from, if first then 1 else 0, other);
      sched := sched.(running := [f] + runs, waiting := rest, started := sched.started + [f]);
    }

    /** start_filter once the device has accepted the filter. */
    method Enlist(f: Filter)
      requires Lists() && nRunning < Q.MAX_RUNNING && Startable(f) && f.fd != -1
      modifies this`nRunning, this`sched, RunRing()`next, RunRing()`prev, WaitRing()`next, WaitRing()`prev
      modifies f`next, f`prev, pollFds, pollReady, pollBufs
      ensures Valid() && NoneReady() && sched == Q.Start(old(sched), f, true).0
    {
      hide Ring;
      hide Apart;
      Relist(f);
      nRunning := nRunning + 1;
      UpdatePollFds();
    }

    /** start_filter */
    method StartFilter(f: Filter, d: Device) returns (ok: bool)
      requires Valid() && Startable(f)
      modifies this`nRunning, this`sched, RunRing()`next, RunRing()`prev, WaitRing()`next, WaitRing()`prev
      modifies f`next, f`prev, f`fd, f`startTime, f`done
      modifies pollFds, pollReady, pollBufs
      ensures Valid() && (sched, ok) == Q.Start(old(sched), f, Opens(d))
      ensures ok <==> |old(sched).running| < 27 && d.handle >= 0 && d.accepts
      ensures if ok then f.fd == d.handle && f.startTime == d.now && !f.done else Startable(f)
      ensures if ok then NoneReady() else pollReady[..] == old(pollReady[..])
    {
      hide Ring;
      if nRunning >= Q.MAX_RUNNING { return false; }
      f.fd := if d.handle < 0 then -1 else d.handle;
      if d.handle < 0 || !d.accepts { return false; }
      f.done := false;
      f.startTime := d.now;
      Enlist(f);
      return true;
    }

    /** The list move of stop_filter. */
    method Delist(f: Filter, ghost k: nat)
      requires Ring(RunRing()) && Ring(WaitRing()) && Apart(RunRing(), WaitRing())
      requires k < |sched.running| && sched.running[k] == f
      modifies this`sched, RunRing()`next, RunRing()`prev
      ensures Ring(RunRing()) && Ring(WaitRing()) && Apart(RunRing(), WaitRing()) && f !in RunRing()
      ensures sched == old(sched).(running := Q.Without(old(sched).running, f))
    {
      hide Ring;
      hide Removed;
      hide Apart;
      hide NoRepeats;
      RingHasNoRepeats(RunRing());
      WithoutRunning(running, sched.running, k);
      ApartRemoved(RunRing(), WaitRing(), k + 1);
      ApartSwap(RunRing(), WaitRing());
      assert RunRing()[k + 1] == f;
      Unhook(f, RunRing(), k + 1, WaitRing());
      sched := sched.(running := Q.Without(sched.running, f));
    }

    /** stop_filter */
    method StopFilter(f: Filter, ghost k: nat)
      requires Valid() && k < |sched.running| && sched.running[k] == f
      modifies this`nRunning, this`sched, RunRing()`next, RunRing()`prev, f`fd, pollFds, pollReady, pollBufs
      ensures Valid() && NoneReady() && sched == old(sched).(running := Q.Without(old(sched).running, f))
    {
      hide Ring;
      hide Apart;
      Q.WithoutLength(sched.running, k);
      f.fd := -1;
      Delist(f, k);
      nRunning := nRunning - 1;
      forall i | 0 <= i < |sched.running| ensures sched.running[i].fd != -1 {
        assert sched.running[i] == RunRing()[i + 1] && sched.running[i] in sched.running;
        assert sched.running[i] in old(sched.running);
      }
      UpdatePollFds();
    }

    /** list_add_tail of add_filter. */
    method Postpone(f: Filter)
      requires Ring(RunRing()) && Ring(WaitRing()) && Apart(RunRing(), WaitRing()) && Elsewhere(f)
      modifies this`sched, WaitRing()`next, WaitRing()`prev, f`next, f`prev
      ensures Ring(RunRing()) && Ring(WaitRing()) && Apart(RunRing(), WaitRing())
      ensures sched == old(sched).(waiting := old(sched).waiting + [f])
    {
      ghost var waits := sched.waiting;
      assert Inserted(WaitRing(), |WaitRing()|, f) == [waiting] + (waits + [f]);
      assert forall i :: 0 <= i < |RunRing()| ==> RunRing()[i] !in WaitRing() && RunRing()[i] != f;
      assert Apart(RunRing(), [waiting] + (waits + [f]));
      hide Ring;
      hide Apart;
      AddTail(f, waiting, WaitRing());
      sched := sched.(waiting := waits + [f]);
    }

    /** The second half of add_filter: the filter waits. */
    method Wait(f: Filter)
      requires Valid() && Elsewhere(f)
      modifies this`sched, WaitRing()`next, WaitRing()`prev, f`next, f`prev
      ensures Valid() && sched == old(sched).(waiting := old(sched).waiting + [f])
    {
      hide Ring;
      hide Apart;
      Postpone(f);
    }

    /** add_filter, for a filter that is in no list. */
    method AddFilter(f: Filter, d: Device)
      requires Valid() && Elsewhere(f) && Ring([f])
      modifies this`nRunning, this`sched, RunRing()`next, RunRing()`prev, WaitRing()`next, WaitRing()`prev
      modifies f`next, f`prev, f`fd, f`startTime, f`done
      modifies pollFds, pollReady, pollBufs
      ensures Valid() && sched == Q.Add(old(sched), f, Opens(d))
      ensures Linked() <= old(Linked()) + {f}
      ensures Rebuilt(old(sched), old(pollReady[..]))
    {
      hide Ring;
      hide Apart;
      hide Silent;
      sched := sched.(added := sched.added + [f]);
      var ok := StartFilter(f, d);
      if !ok {
        Wait(f);
      }
    }

    /** The answers of poll() are as they were if the running list is, and gone if it has changed. */
    ghost predicate Rebuilt(was: Q.Sched<Filter>, answers: seq<bool>)
      reads this, pollReady
    {
      if sched.running == was.running then pollReady[..] == answers else Silent(|sched.running|, pollReady[..])
    }

    /** Every filter in a list, and the two list heads. */
    ghost function Linked(): set<Filter>
      reads this
    {
      (set o | o in RunRing()) + (set o | o in WaitRing())
    }

    /** One turn of the loop of remove_filter. */
    method StartFirst(d: Device) returns (ok: bool)
      requires Valid() && sched.waiting != []
      modifies this`nRunning, this`sched, Linked()`next, Linked()`prev, Linked()`fd, Linked()`startTime, Linked()`done
      modifies pollFds, pollReady, pollBufs
      ensures Valid() && (sched, ok) == Q.Start(old(sched), old(sched).waiting[0], Opens(d))
      ensures Linked() <= old(Linked())
      ensures if ok then NoneReady() else pollReady[..] == old(pollReady[..])
      ensures forall o :: o in old(sched).running ==> o.startTime == old(o.startTime) && o in sched.running
    {
      assert WaitRing()[1] == sched.waiting[0] && WaitRing()[0].next == WaitRing()[Succ(0, |WaitRing()|)];
      var next := waiting.next;
      assert First(next);
      assert next !in RunRing();
      hide Ring;
      hide Apart;
      ok := StartFilter(next, d);
    }

    /** list_empty on the waiting list. */
    method NothingWaits() returns (empty: bool)
      requires Valid()
      ensures empty <==> sched.waiting == []
    {
      empty := IsEmpty(waiting, WaitRing());
    }

    /** The loop of remove_filter: start waiting filters from the head until one fails. */
    method Refill(devices: nat -> Device)
      requires Valid()
      modifies this`nRunning, this`sched, Linked()`next, Linked()`prev, Linked()`fd, Linked()`startTime, Linked()`done
      modifies pollFds, pollReady, pollBufs
      ensures Valid() && Linked() <= old(Linked())
      ensures sched == Q.Refill(old(sched), Outcomes(devices), 0)
      ensures old(NoneReady()) ==> NoneReady()
      ensures forall o :: o in old(sched).running ==> o.startTime == old(o.startTime) && o in sched.running
    {
      hide Ring;
      hide Apart;
      hide Lists;
      hide Mirrored;
      hide Q.Start;
      hide Q.Refill;
      var k, ok := 0, true;
      var empty := NothingWaits();
      while !empty && ok
        invariant Valid() && Linked() <= old(Linked())
        invariant old(NoneReady()) ==> NoneReady()
        invariant forall o :: o in old(sched).running ==> o.startTime == old(o.startTime) && o in sched.running
        invariant empty <==> sched.waiting == []
        invariant var all := Q.Refill(old(sched), Outcomes(devices), 0);
          if ok then Q.Refill(sched, Outcomes(devices), k) == all else sched == all
        decreases |sched.waiting|, ok
      {
        Q.RefillStep(sched, Outcomes(devices), k);
        ok := StartFirst(devices(k));
        k := k + 1;
        empty := NothingWaits();
      }
      Q.RefillStep(sched, Outcomes(devices), k);
    }

    /** remove_filter */
    method RemoveFilter(f: Filter, devices: nat -> Device)
      requires Valid() && f in sched.running
      modifies this`nRunning, this`sched, Linked()`next, Linked()`prev, Linked()`fd, Linked()`startTime, Linked()`done
      modifies pollFds, pollReady, pollBufs
      ensures Valid() && Linked() <= old(Linked())
      ensures sched == Q.Remove(old(sched), f, Outcomes(devices))
      ensures NoneReady() && f !in Linked()
      ensures forall o :: o in old(sched).running && o != f ==> o.startTime == old(o.startTime) && o in sched.running
    {
      ValidIsSound();
      Q.FinishedIsGone(sched, f, Outcomes(devices));
      ghost var k :| 0 <= k < |sched.running| && sched.running[k] == f;
      NotAHead(k);
      Q.WithoutKeepsOthers(sched.running, f);
      StopFilter(f, k);
      Refill(devices);
    }

    lemma NotAHead(k: nat)
      requires Valid() && k < |sched.running|
      ensures sched.running[k] != running && sched.running[k] != waiting
    {
      assert RunRing()[k + 1] == sched.running[k] && RunRing()[0] == running && WaitRing()[0] == waiting;
    }

    /** The state of the lists is one the abstract scheduler can be in. */
    lemma ValidIsSound()
      requires Valid()
      ensures Q.Sound(sched)
    {
      var runs, waits := sched.running, sched.waiting;
      forall i, j | 0 <= i < j < |runs + waits| ensures (runs + waits)[i] != (runs + waits)[j] {
        if j < |runs| {
          assert RunRing()[i + 1] != RunRing()[j + 1];
        } else if i < |runs| {
          assert RunRing()[i + 1] !in WaitRing() && WaitRing()[j - |runs| + 1] == waits[j - |runs|];
        } else {
          assert WaitRing()[i - |runs| + 1] != WaitRing()[j - |runs| + 1];
        }
      }
    }

    /** One add_filter call made while a section is parsed. */
    method AddOne(found: Found) returns (ghost e: Q.Event<Filter>)
      requires Valid()
      modifies this`nRunning, this`sched, Linked()`next, Linked()`prev, pollFds, pollReady, pollBufs
      ensures Valid() && Q.Enabled(old(sched), e) && sched == Q.Next(old(sched), e)
      ensures forall o :: o in Linked() ==> o in old(Linked()) || fresh(o)
      ensures forall o :: o in old(sched).running ==> o in sched.running
      ensures e.Added? && e.open == Opens(found.device) && fresh(e.f) && e.f.runOnce == found.runOnce && e.f.timeout == found.timeout
      ensures Rebuilt(old(sched), old(pollReady[..]))
      ensures sched.running == old(sched).running || |sched.running| > |old(sched).running|
    {
      hide Ring;
      hide Apart;
      hide Mirrored;
      var s := new Filter(found.runOnce, found.timeout);
      e := Q.Added(s, Opens(found.device));
      AddFilter(s, found.device);
    }

    /** The add_filter calls made while a section is parsed. */
    method AddFound(found: seq<Found>) returns (ghost events: seq<Q.Event<Filter>>)
      requires Valid()
      modifies this`nRunning, this`sched, Linked()`next, Linked()`prev, pollFds, pollReady, pollBufs
      ensures Valid() && Q.Possible(old(sched), events) && sched == Q.Run(old(sched), events)
      ensures forall o :: o in Linked() ==> o in old(Linked()) || fresh(o)
      ensures forall o :: o in old(sched).running ==> o in sched.running
      ensures AddsAll(events, found) && forall e :: e in events ==> fresh(e.f)
      ensures Rebuilt(old(sched), old(pollReady[..]))
    {
      hide Ring;
      hide Apart;
      hide Lists;
      hide Mirrored;
      hide Q.Next;
      hide Q.Enabled;
      hide Q.AlwaysOpens;
      events := [];
      var i := 0;
      while i < |found|
        invariant i <= |found| && Valid()
        invariant Q.Possible(old(sched), events) && sched == Q.Run(old(sched), events)
        invariant forall o :: o in Linked() ==> o in old(Linked()) || fresh(o)
        invariant forall o :: o in old(sched).running ==> o in sched.running
        invariant AddsAll(events, found[..i]) && forall e :: e in events ==> fresh(e.f)
        invariant Rebuilt(old(sched), old(pollReady[..])) && (sched.running == old(sched).running || |sched.running| > |old(sched).running|)
      {
        ghost var e := AddOne(found[i]);
        Q.RunAppend(old(sched), events, [e]);
        events := events + [e];
        i := i + 1;
      }
    }

    /** What poll() reports. */
    method Poll(ready: nat -> bool)
      requires Valid()
      modifies pollReady
      ensures Valid() && forall k :: 0 <= k < nRunning ==> pollReady[k] == ready(k)
    {
      var n := 0;
      while n < nRunning
        invariant Valid() && 0 <= n <= nRunning
        invariant forall k :: 0 <= k < n ==> pollReady[k] == ready(k)
      {
        pollReady[n] := ready(n);
        n := n + 1;
      }
    }

    /** read_sections for the filter in place `i`, if poll() has found it ready. */
    method ReadReady(i: nat, reading: Reading) returns (done: bool, ghost events: seq<Q.Event<Filter>>)
      requires Valid() && i < nRunning
      modifies this`nRunning, this`sched, Linked()`next, Linked()`prev, pollFds, pollReady, pollBufs
      ensures Valid() && Q.Possible(old(sched), events) && sched == Q.Run(old(sched), events)
      ensures forall o :: o in Linked() ==> o in old(Linked()) || fresh(o)
      ensures forall o :: o in old(sched).running ==> o in sched.running
      ensures done == (old(pollReady[i]) && reading.done) && AddsAll(events, if old(pollReady[i]) then reading.found else [])
      ensures Rebuilt(old(sched), old(pollReady[..]))
    {
      done, events := false, [];
      if pollReady[i] {
        done := reading.done;
        events := AddFound(reading.found);
      }
    }

    /** The second half of a turn: the filter is removed if it is `over`. */
    method RemoveIf(s: Filter, over: bool, devices: nat -> Device) returns (ghost events: seq<Q.Event<Filter>>)
      requires Valid() && s in sched.running
      modifies this`nRunning, this`sched, Linked()`next, Linked()`prev, Linked()`fd, Linked()`startTime, Linked()`done
      modifies pollFds, pollReady, pollBufs
      ensures Valid() && Linked() <= old(Linked())
      ensures events == if over then [Q.Finished(s, Outcomes(devices))] else []
      ensures Q.Possible(old(sched), events) && sched == Q.Run(old(sched), events)
      ensures over ==> s !in Linked() && NoneReady() && sched.running != old(sched).running
      ensures !over ==> sched == old(sched) && pollReady[..] == old(pollReady[..])
      ensures forall o :: o in old(sched).running && (o != s || !over) ==> o in sched.running && o.startTime == old(o.startTime)
    {
      hide Ring;
      hide Apart;
      hide Mirrored;
      hide Lists;
      hide NoneReady;
      hide Linked;
      events := [];
      if over {
        events := [Q.Finished(s, Outcomes(devices))];
        Q.OneEvent(sched, events[0]);
        RemoveFilter(s, devices);
        RunningIsLinked();
      }
    }

    /** One turn of the loop of read_filters: its fatal() call is not reached. */
    method Visit(i: nat, reading: Reading, clock: int, devices: nat -> Device) returns (ghost turn: Turn)
      requires Valid() && i < nRunning
      modifies this`nRunning, this`sched, Linked()`next, Linked()`prev, Linked()`fd, Linked()`startTime, Linked()`done
      modifies pollFds, pollReady, pollBufs
      ensures Valid() && Q.Possible(old(sched), turn.events) && sched == Q.Run(old(sched), turn.events)
      ensures forall o :: o in Linked() ==> o in old(Linked()) || fresh(o)
      ensures turn.filter == old(sched).running[i] && turn.ready == old(pollReady[i]) && turn.startTime == old(sched.running[i].startTime)
      ensures Taken(turn, reading, clock, devices)
      ensures Removes(turn, reading, clock) ==> turn.filter !in Linked()
      ensures Q.Finished(turn.filter, Outcomes(devices)) in turn.events <==>
        turn.filter.runOnce && ((old(pollReady[i]) && reading.done) || clock > old(sched.running[i].startTime) + turn.filter.timeout)
      ensures Rebuilt(old(sched), old(pollReady[..]))
      ensures forall o :: o in old(sched).running && (o != turn.filter || !Removes(turn, reading, clock)) ==>
        o in sched.running && o.startTime == old(o.startTime)
    {
      assert pollBufs[i] != null;      // poll_section_bufs[%d] is NULL
      var s := pollBufs[i];
      assert s == sched.running[i] && s in sched.running;
      ghost var before, ready, startTime := sched, pollReady[i], s.startTime;
      hide Ring;
      hide Apart;
      hide Mirrored;
      hide Lists;
      hide NoneReady;
      hide Q.Next;
      hide Q.Enabled;
      hide Q.Run;
      hide Q.Possible;
      hide AddsAll;
      hide Linked;
      hide Taken;
      hide Removes;
      hide Silent;
      ghost var found := if ready then reading.found else [];
      var done, events := ReadReady(i, reading);
      turn := Turn(s, ready, startTime, events);
      RunningIsLinked();
      ghost var ended := RemoveIf(s, (done || clock > s.startTime + s.timeout) && s.runOnce, devices);
      RunningIsLinked();
      Q.RunAppend(before, events, ended);
      turn := turn.(events := events + ended);
      TurnIsTaken(turn, found, events, ended, reading, clock, devices);
      TurnMeans(turn, reading, clock, devices);
    }

    /** read_filters: every turn of the loop does to the filter in its place what `readings`, `clocks` and
        `devices` say for that turn, and the whole pass is a run of the abstract scheduler. `ready` is what
        poll() reports; its answers are lost for the rest of the pass once the running list has changed. */
    method ReadFilters(ready: nat -> bool, readings: nat -> Reading, clocks: nat -> int, devices: nat -> nat -> Device)
      returns (ghost turns: seq<Turn>, ghost events: seq<Q.Event<Filter>>)
      requires Valid()
      modifies this`nRunning, this`sched, Linked()`next, Linked()`prev, Linked()`fd, Linked()`startTime, Linked()`done
      modifies pollFds, pollReady, pollBufs
      ensures Valid() && Q.Possible(old(sched), events) && sched == Q.Run(old(sched), events)
      ensures events == EventsOf(turns) && |sched.running| <= |turns|
      ensures forall i :: 0 <= i < |turns| ==>
        InPlace(old(sched), turns, i, ready) && Taken(turns[i], readings(i), clocks(i), devices(i))
      ensures forall o, i :: o in old(sched).running && 0 <= i < |turns| && turns[i].filter == o ==> turns[i].startTime == old(o.startTime)
      ensures Kept(old(sched), events, sched)
      ensures DeviceAlwaysWorks(readings, devices) ==> AllOpen(events) && (Q.Fair(old(sched)) ==> Q.Fair(sched))
    {
      hide Ring;
      hide Apart;
      hide Mirrored;
      hide Taken;
      hide Removes;
      hide InPlace;
      hide EventsOf;
      hide AllOpen;
      hide DeviceWorks;
      hide Linked;
      hide Lists;
      hide Undisturbed;
      hide Standing;
      hide Q.Run;
      hide Q.Possible;
      hide Kept;
      hide Silent;
      ValidIsSound();
      RunningIsLinked();
      Poll(ready);
      turns, events := [], [];
      PollsBelow();
      NothingYet(sched);
      StandingFirst(sched, pollReady[..], ready);
      var i := 0;
      while i < nRunning
        invariant Valid() && Q.Possible(old(sched), events) && sched == Q.Run(old(sched), events)
        invariant |turns| == i && events == EventsOf(turns)
        invariant forall o :: o in Linked() ==> o in old(Linked()) || fresh(o)
        invariant forall k :: 0 <= k < i ==> InPlace(old(sched), turns, k, ready) && Taken(turns[k], readings(k), clocks(k), devices(k))
        invariant forall o :: o in old(sched).running ==> o !in Linked() || (o in sched.running && o.startTime == old(o.startTime))
        invariant forall o, k :: o in old(sched).running && 0 <= k < i && turns[k].filter == o ==> turns[k].startTime == old(o.startTime)
        invariant Standing(old(sched), turns, sched, pollReady[..], ready)
        decreases Q.MAX_RUNNING - i
      {
        PollsBelow();
        RunningIsLinked();
        ghost var before, answers := sched, pollReady[..];
        StandingMeans(old(sched), turns, sched, answers, ready);
        ghost var turn := Visit(i, readings(i), clocks(i), devices(i));
        Q.RunAppend(old(sched), events, turn.events);
        TurnAdded(old(sched), turns, turn, ready);
        TurnInPlace(old(sched), turns, turn, ready);
        StillStanding(old(sched), turns, turn, before, answers, sched, pollReady[..], ready);
        turns := turns + [turn];
        events := events + turn.events;
        i := i + 1;
      }
      PollsBelow();
      PassOpens(turns, readings, clocks, devices);
      RunKeeps(old(sched), events);
    }

    lemma PollsBelow()
      requires Valid()
      ensures nRunning == |sched.running| <= Q.MAX_RUNNING == pollReady.Length
    {
    }

    lemma RunningIsLinked()
      requires Valid()
      ensures forall o :: o in sched.running ==> o in Linked()
    {
      forall o | o in sched.running ensures o in Linked() {
        var k :| 0 <= k < |sched.running| && sched.running[k] == o;
        assert RunRing()[k + 1] == o;
      }
    }
  }

  lemma AddsLength(events: seq<Q.Event<Filter>>, found: seq<Found>)
    requires AddsAll(events, found)
    ensures |events| == |found|
  {
  }

  lemma TurnIsTaken(t: Turn, found: seq<Found>, added: seq<Q.Event<Filter>>, ended: seq<Q.Event<Filter>>, reading: Reading,
                    clock: int, devices: nat -> Device)
    requires found == (if t.ready then reading.found else []) && AddsAll(added, found) && t.events == added + ended
    requires var over := ((t.ready && reading.done) || clock > t.startTime + t.filter.timeout) && t.filter.runOnce;
      ended == if over then [Q.Finished(t.filter, Outcomes(devices))] else []
    ensures Taken(t, reading, clock, devices) && (Removes(t, reading, clock) <==> ended != [])
  {
    AddsLength(added, found);
    hide AddsAll;
    assert t.events[..|found|] == added by { assert |added| == |found|; }
  }

  lemma NothingYet(s: Q.Sched<Filter>)
    ensures EventsOf([]) == [] && Undisturbed(s, [], 0) && Q.Possible(s, []) && Q.Run(s, []) == s
  {
  }

  /** A turn more leaves those before it as they are. */
  lemma TurnAdded(s: Q.Sched<Filter>, turns: seq<Turn>, t: Turn, ready: nat -> bool)
    ensures EventsOf(turns + [t]) == EventsOf(turns) + t.events
    ensures forall k :: 0 <= k < |turns| ==> (InPlace(s, turns + [t], k, ready) <==> InPlace(s, turns, k, ready))
    ensures Undisturbed(s, turns + [t], |turns|) <==> Undisturbed(s, turns, |turns|)
    ensures Undisturbed(s, turns + [t], |turns| + 1) <==> Undisturbed(s, turns, |turns|) && Q.Run(s, EventsOf(turns + [t])).running == s.running
  {
    var all := turns + [t];
    assert all[..|turns|] == turns && all[..|turns| + 1] == all;
    forall j | 0 <= j <= |turns| ensures all[..j] == turns[..j] { }
  }

  lemma TurnInPlace(s: Q.Sched<Filter>, turns: seq<Turn>, t: Turn, ready: nat -> bool)
    requires var now := Q.Run(s, EventsOf(turns)).running;
      |turns| < |now| && t.filter == now[|turns|] && t.ready == (ready(|turns|) && Undisturbed(s, turns, |turns|))
    ensures InPlace(s, turns + [t], |turns|, ready)
  {
    assert (turns + [t])[..|turns|] == turns;
    TurnAdded(s, turns, t, ready);
  }

  lemma {:induction false} PassOpens(turns: seq<Turn>, readings: nat -> Reading, clocks: nat -> int, devices: nat -> nat -> Device)
    requires forall i :: 0 <= i < |turns| ==> Taken(turns[i], readings(i), clocks(i), devices(i))
    ensures DeviceAlwaysWorks(readings, devices) ==> AllOpen(EventsOf(turns))
  {
    hide AllOpen;
    hide Taken;
    hide DeviceWorks;
    AllOpenNone();
    if turns != [] {
      var k := |turns| - 1;
      PassOpens(turns[..k], readings, clocks, devices);
      TurnOpens(turns[k], readings(k), clocks(k), devices(k));
      AllOpenJoined(EventsOf(turns[..k]), turns[k].events);
    }
  }

  lemma TurnOpens(t: Turn, reading: Reading, clock: int, devices: nat -> Device)
    requires Taken(t, reading, clock, devices)
    ensures DeviceWorks(reading, devices) ==> AllOpen(t.events)
  {
    if DeviceWorks(reading, devices) {
      var found := if t.ready then reading.found else [];
      forall e | e in t.events ensures Q.AlwaysOpens(e) {
        var k :| 0 <= k < |t.events| && t.events[k] == e;
        if k < |found| { assert t.events[..|found|][k] == e; }
      }
    }
  }
}
