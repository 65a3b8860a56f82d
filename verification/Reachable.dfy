/** Runs from the start of the program that reach the two ways in which layers or slots get in each other's
    way: a session without its connection, and a session ended by a module in another slot. */
module CamRuns {
  import opened Bytes
  import C = Connection
  import opened Transport
  import S = Session
  import opened CamStack
  import opened StackInvariant

  /** The three steps that bring up connection 1 of a slot. */
  function Connect(s: byte, link: Link, app: App): seq<StackStep> {
    [OnLink(NewTc(s), app), OnLink(Poll(s, 1, link), app), OnLink(Receive(s, Tpdu(C.T_C_T_C_REPLY, 1, []), link), app)]
  }

  /** Two slots, connection 1 in each, and a session of the host on that of slot 0. */
  function TwoModules(b: S.Binding, link: Link, app: App): seq<StackStep> {
    [OnLink(Register(3, 0, 1000, 100), app), OnLink(Register(4, 0, 1000, 100), app)]
    + Connect(0, link, app) + Connect(1, link, app) + [CreateSession(b.slot, b.conn, b.resource, b.callback)]
  }

  lemma {:induction false} RunThen(st: Stack, a: seq<StackStep>, b: seq<StackStep>)
    requires Sized(st.slots)
    ensures StackRun(st, a + b) == StackRun(StackRun(st, a), b)
    decreases |a|
  {
    if a == [] {
      assert a + b == b;
    } else {
      assert (a + b)[0] == a[0] && (a + b)[1..] == a[1..] + b;
      RunThen(StackNext(st, a[0]), a[1..], b);
    }
  }

  lemma RunMore(st: Stack, step: StackStep, rest: seq<StackStep>)
    requires Sized(st.slots)
    ensures StackRun(st, [step] + rest) == StackRun(StackNext(st, step), rest)
  {
    assert ([step] + rest)[1..] == rest;
  }

  lemma RunOne(st: Stack, step: StackStep)
    requires Sized(st.slots)
    ensures StackRun(st, [step]) == StackNext(st, step)
  {
  }

  /** A registered slot with connections 0 and 1, the second of which is as given. */
  predicate Line(slots: seq<Slot>, s: byte, conn: C.Conn) {
    s < |slots| && slots[s].handle != -1 && |slots[s].conns| == 2 && slots[s].conns[1] == conn
  }

  predicate OthersSame(before: seq<Slot>, after: seq<Slot>, s: byte) {
    |before| == |after| && forall k :: 0 <= k < |before| && k != s ==> after[k] == before[k]
  }

  lemma Asked(slots: seq<Slot>, s: byte)
    requires Sized(slots) && Line(slots, s, C.Fresh)
    ensures var o := Next(slots, NewTc(s));
      && Line(o.slots, s, C.Enqueue(C.Allocate(C.Fresh), [C.T_CREATE_T_C, 1, 1]))
      && OthersSame(slots, o.slots, s) && o.callback == NoCallback
  {
  }

  lemma Polled(slots: seq<Slot>, s: byte, conn: C.Conn, link: Link) returns (sent: C.Conn)
    requires Sized(slots) && Line(slots, s, conn) && link.first && link.second
    requires conn.state == C.InCreation && conn.queue != [] && conn.txTime == 0 && !C.IsDelete(conn.queue[0])
    ensures var o := Next(slots, Poll(s, 1, link));
      && Line(o.slots, s, sent) && sent.state == C.InCreation
      && OthersSame(slots, o.slots, s) && o.callback == NoCallback
  {
    sent := C.PollStep(conn, 1, slots[s].pollDelay, slots[s].timeout, link.now, true, true).0;
  }

  lemma Answered(slots: seq<Slot>, s: byte, conn: C.Conn, link: Link)
    requires Sized(slots) && Line(slots, s, conn) && conn.state == C.InCreation
    ensures var o := Next(slots, Receive(s, Tpdu(C.T_C_T_C_REPLY, 1, []), link));
      && IsActive(o.slots, s, 1)
      && OthersSame(slots, o.slots, s) && o.callback == ConnectionOpen(s, 1)
  {
  }

  lemma LinkStep(st: Stack, t: Step, app: App)
    requires Sized(st.slots) && (Next(st.slots, t).callback == NoCallback || Next(st.slots, t).callback.ConnectionOpen?)
    ensures StackNext(st, OnLink(t, app)) == st.(slots := Next(st.slots, t).slots)
  {
  }

  lemma ThreeSteps(st: Stack, a: Step, b: Step, c: Step, app: App) returns (mid: seq<Slot>)
    requires Sized(st.slots) && Next(st.slots, a).callback == NoCallback && Next(Next(st.slots, a).slots, b).callback == NoCallback
    requires Next(Next(Next(st.slots, a).slots, b).slots, c).callback.ConnectionOpen?
    ensures Sized(mid) && mid == Next(Next(st.slots, a).slots, b).slots
    ensures StackRun(st, [OnLink(a, app), OnLink(b, app), OnLink(c, app)]) == st.(slots := Next(mid, c).slots)
  {
    var st1 := st.(slots := Next(st.slots, a).slots);
    var st2 := st.(slots := Next(st1.slots, b).slots);
    mid := st2.slots;
    LinkStep(st, a, app);
    LinkStep(st1, b, app);
    LinkStep(st2, c, app);
    hide Next;
    hide StackNext;
    RunOne(st2, OnLink(c, app));
    RunMore(st1, OnLink(b, app), [OnLink(c, app)]);
    RunMore(st, OnLink(a, app), [OnLink(b, app), OnLink(c, app)]);
    assert [OnLink(b, app)] + [OnLink(c, app)] == [OnLink(b, app), OnLink(c, app)];
    assert [OnLink(a, app)] + [OnLink(b, app), OnLink(c, app)] == [OnLink(a, app), OnLink(b, app), OnLink(c, app)];
  }

  /** Connection 1 comes up, and nothing else changes. */
  lemma Connects(st: Stack, s: byte, link: Link, app: App)
    requires Sized(st.slots) && Line(st.slots, s, C.Fresh) && link.first && link.second
    ensures var after := StackRun(st, Connect(s, link, app));
      after.sessions == st.sessions && OthersSame(st.slots, after.slots, s) && IsActive(after.slots, s, 1)
  {
    var asked := C.Enqueue(C.Allocate(C.Fresh), [C.T_CREATE_T_C, 1, 1]);
    Asked(st.slots, s);
    var slots1 := Next(st.slots, NewTc(s)).slots;
    var sent := Polled(slots1, s, asked, link);
    var slots2 := Next(slots1, Poll(s, 1, link)).slots;
    Answered(slots2, s, sent, link);
    hide Next;
    hide Line;
    var mid := ThreeSteps(st, NewTc(s), Poll(s, 1, link), Receive(s, Tpdu(C.T_C_T_C_REPLY, 1, []), link), app);
  }

  // ---------------------------------------------------------------- the state both runs reach

  /** The host has a session on slot 0; connection 1 is active in both slots. */
  predicate Ready(st: Stack, b: S.Binding) {
    && StackGood(st) && CrossLayer(st)
    && |st.slots| == 2 && IsActive(st.slots, 0, 1) && IsActive(st.slots, 1, 1)
    && |st.sessions| == 2 && st.sessions[1].state == S.InCreation && st.sessions[1].binding == b
  }

  lemma Registers(app: App) returns (st: Stack)
    ensures st == StackRun(NewStack(2, 2, 2), [OnLink(Register(3, 0, 1000, 100), app), OnLink(Register(4, 0, 1000, 100), app)])
    ensures Sized(st.slots) && |st.slots| == 2 && Line(st.slots, 0, C.Fresh) && Line(st.slots, 1, C.Fresh)
    ensures st.sessions == NewStack(2, 2, 2).sessions
  {
    var first, second := Register(3, 0, 1000, 100), Register(4, 0, 1000, 100);
    var start := NewStack(2, 2, 2);
    LinkStep(start, first, app);
    var one := start.(slots := Next(start.slots, first).slots);
    assert FirstFreeSlot(one.slots, 1) == Some(1);
    LinkStep(one, second, app);
    st := one.(slots := Next(one.slots, second).slots);
    RunMore(start, OnLink(first, app), [OnLink(second, app)]);
    RunOne(one, OnLink(second, app));
    assert [OnLink(first, app)] + [OnLink(second, app)] == [OnLink(first, app), OnLink(second, app)];
  }

  lemma SessionOpens(st: Stack, b: S.Binding)
    requires Sized(st.slots) && |st.slots| == 2 && IsActive(st.slots, 0, 1) && IsActive(st.slots, 1, 1)
    requires st.sessions == NewStack(2, 2, 2).sessions && b.slot == 0 && b.conn == 1
    ensures var after := StackNext(st, CreateSession(0, 1, b.resource, b.callback));
      StackGood(after) ==> Ready(after, b)
  {
    var bound := Put(st, 1, S.Bind(st.sessions[1], b));
    assert FirstIdleSession(st.sessions, 1) == Some(1);
    TransmitSucceeds(bound, 0, 1, [S.ST_CREATE_SESSION, 6] + Resource(b.resource) + [High(1), Low(1)]);
    hide Transmit;
  }

  lemma TransmitSucceeds(st: Stack, s: byte, c: byte, data: seq<byte>)
    requires Sized(st.slots) && IsActive(st.slots, s, c)
    ensures var (after, ok) := Transmit(st, s, c, data);
      ok && forall s', c' :: IsActive(after.slots, s', c') <==> IsActive(st.slots, s', c')
  {
    TransmitKeeps(st, s, c, data);
  }


  lemma TwoModulesAreReady(b: S.Binding, link: Link, app: App)
    requires b.slot == 0 && b.conn == 1 && link.first && link.second
    ensures Ready(StackRun(NewStack(2, 2, 2), TwoModules(b, link, app)), b)
  {
    var start := NewStack(2, 2, 2);
    var registers: seq<StackStep> := [OnLink(Register(3, 0, 1000, 100), app), OnLink(Register(4, 0, 1000, 100), app)];
    var create := CreateSession(b.slot, b.conn, b.resource, b.callback);
    var st := Registers(app);
    Connects(st, 0, link, app);
    var st1 := StackRun(st, Connect(0, link, app));
    Connects(st1, 1, link, app);
    var st2 := StackRun(st1, Connect(1, link, app));
    SessionOpens(st2, b);
    NewStackGood(2, 2, 2);
    StackRunGood(start, TwoModules(b, link, app));
    hide StackRun;
    hide StackNext;
    hide StackGood;
    hide Connect;
    hide NewStack;
    hide Ready;
    RunThen(start, registers, Connect(0, link, app));
    RunThen(start, registers + Connect(0, link, app), Connect(1, link, app));
    RunThen(start, registers + Connect(0, link, app) + Connect(1, link, app), [create]);
    RunOne(st2, create);
  }

  // ---------------------------------------------------------------- the two witnesses

  /** The two kinds of step after which a session has no connection: the host deletes it, or the module
      does and the reply cannot be written. */
  predicate Cuts(step: Step) {
    || step == DelTc(0, 1)
    || (step.Receive? && step.slot == 0 && step.tpdu == Tpdu(C.T_DELETE_T_C, 1, []) && !step.link.first)
  }

  /** Both exceptions of the cross-layer result happen to a program that starts, connects and opens a session. */
  lemma DanglingSession(b: S.Binding, link: Link, app: App, cut: Step)
    requires b.slot == 0 && b.conn == 1 && link.first && link.second && Cuts(cut)
    ensures !CrossLayer(StackRun(NewStack(2, 2, 2), TwoModules(b, link, app) + [OnLink(cut, app)]))
  {
    var start := NewStack(2, 2, 2);
    var st := StackRun(start, TwoModules(b, link, app));
    TwoModulesAreReady(b, link, app);
    assert Uses(st.sessions[1], 0, 1);
    SeversBreaks(st, cut, app);
    hide StackRun;
    hide StackNext;
    RunThen(start, TwoModules(b, link, app), [OnLink(cut, app)]);
    RunOne(st, OnLink(cut, app));
  }

  /** A module in slot 1 that deletes its connection ends the session of slot 0, whose own connection stays
      active. */
  lemma OtherModuleEndsSession(b: S.Binding, link: Link, app: App)
    requires b.slot == 0 && b.conn == 1 && link.first && link.second
    ensures var after := StackRun(NewStack(2, 2, 2), TwoModules(b, link, app) + [OnLink(Receive(1, Tpdu(C.T_DELETE_T_C, 1, []), link), app)]);
      && |after.sessions| == 2 && after.sessions[1].state == S.Idle && after.sessions[1].binding == b
      && IsActive(after.slots, 0, 1)
  {
    var start := NewStack(2, 2, 2);
    var st := StackRun(start, TwoModules(b, link, app));
    var step := Receive(1, Tpdu(C.T_DELETE_T_C, 1, []), link);
    TwoModulesAreReady(b, link, app);
    ModuleDeletes(st, link, app);
    hide StackRun;
    hide StackNext;
    RunThen(start, TwoModules(b, link, app), [OnLink(step, app)]);
    RunOne(st, OnLink(step, app));
  }

  lemma ModuleDeletes(st: Stack, link: Link, app: App)
    requires Sized(st.slots) && |st.slots| == 2 && IsActive(st.slots, 0, 1) && IsActive(st.slots, 1, 1) && link.first
    requires |st.sessions| == 2 && st.sessions[1].state != S.Idle && st.sessions[1].binding.conn == 1
    ensures var after := StackNext(st, OnLink(Receive(1, Tpdu(C.T_DELETE_T_C, 1, []), link), app));
      && |after.sessions| == 2 && after.sessions[1].state == S.Idle && after.sessions[1].binding == st.sessions[1].binding
      && IsActive(after.slots, 0, 1)
  {
  }
}
