/** Both layers together: what every step keeps, and what holds after every run. */
module StackInvariant {
  import opened Bytes
  import C = Connection
  import opened Transport
  import S = Session
  import opened CamStack

  // ---------------------------------------------------------------- bindings

  /** Every session agrees with its history, and session 0 is never used. */
  predicate SessionsGood(ss: seq<S.Session>) {
    && (forall i :: 0 <= i < |ss| ==> S.Good(ss[i]))
    && (|ss| > 0 ==> ss[0].state == S.Idle)
  }

  predicate StackGood(st: Stack) { Sized(st.slots) && AllGood(st.slots) && SessionsGood(st.sessions) }

  lemma PutSessionGood(st: Stack, i: nat, s: S.Session)
    requires SessionsGood(st.sessions) && i < |st.sessions| && S.Good(s) && (i == 0 ==> s.state == S.Idle)
    ensures SessionsGood(Put(st, i, s).sessions)
  {
  }

  lemma TransmitGood(st: Stack, s: byte, c: byte, data: seq<byte>)
    requires StackGood(st)
    ensures StackGood(Transmit(st, s, c, data).0)
  {
    NextGood(st.slots, SendData(s, c, data));
  }

  lemma ReactGood(st: Stack, cb: Callback, app: App)
    requires StackGood(st)
    ensures StackGood(React(st, cb, app))
  {
    match cb
    case Data(s, c, data) => DataGood(st, data, s, c, app);
    case ConnectionClose(_, c) =>
      var ss := EndConn(st.sessions, c);
      assert forall i :: 0 <= i < |ss| ==> S.Good(st.sessions[i]);
    case SlotClose(s) =>
      var ss := EndSlot(st.sessions, s);
      assert forall i :: 0 <= i < |ss| ==> S.Good(st.sessions[i]);
    case _ =>
  }

  lemma DataGood(st: Stack, data: seq<byte>, s: byte, c: byte, app: App)
    requires StackGood(st)
    ensures StackGood(OnData(st, data, s, c, app))
  {
    hide Next;
    hide AllGood;
    if data != [] {
      var body := data[1..];
      if data[0] == S.ST_OPEN_SESSION_REQ {
        OpenRequestGood(st, body, s, c, app);
      } else if data[0] == S.ST_CLOSE_SESSION_REQ {
        CloseRequestGood(st, body, s, c);
      } else if data[0] == S.ST_SESSION_NUMBER && |body| >= 3 {
        var n := Word(body[1], body[2]);
        if n < |st.sessions| && From(st.sessions[n], s, c) && st.sessions[n].state == S.Active {
          S.DeliverGood(st.sessions[n], SplitApdus(body[3..]));
          PutSessionGood(st, n, S.Deliver(st.sessions[n], s, c, SplitApdus(body[3..])));
        }
      } else if data[0] == S.ST_CREATE_SESSION_RES && |body| >= 8 {
        var n := Word(body[5], body[6]);
        if n < |st.sessions| && st.sessions[n].state == S.InCreation {
          PutSessionGood(st, n, S.Open(st.sessions[n]));
          PutSessionGood(st, n, S.End(st.sessions[n]));
        }
      } else if data[0] == S.ST_CLOSE_SESSION_RES && |body| >= 5 {
        var n := Word(body[2], body[3]);
        if n < |st.sessions| { PutSessionGood(st, n, S.End(st.sessions[n])); }
      }
    }
  }

  lemma OpenRequestGood(st: Stack, data: seq<byte>, s: byte, c: byte, app: App)
    requires StackGood(st)
    ensures StackGood(OnOpenRequest(st, data, s, c, app))
  {
    hide Next;
    hide Admit;
    hide AllGood;
    hide SessionsGood;
    if |data| < 5 || data[0] != 4 { return; }
    var found := Found(app, s, data);
    var status := LookupStatus(found);
    var resource := if found.Some? then found.value.resource else 0;
    var free := FirstIdleSession(st.sessions, 1);
    if status == S.S_STATUS_OPEN && free.Some? {
      var answer := if app.busy.None? then S.S_STATUS_CLOSE_RES_UNAVAILABLE
                    else if app.busy.value then S.S_STATUS_CLOSE_RES_BUSY else S.S_STATUS_OPEN;
      AdmitGood(st, free.value, S.Binding(resource, s, c, found.value.callback), answer);
    } else {
      TransmitGood(st, s, c, OpenResponse(S.S_STATUS_CLOSE_NO_RES, resource, -1));
      TransmitGood(st, s, c, OpenResponse(status, resource, -1));
    }
  }

  lemma AdmitGood(st: Stack, n: nat, b: S.Binding, answer: int)
    requires StackGood(st) && 0 < n < |st.sessions| && st.sessions[n].state == S.Idle
    ensures StackGood(Admit(st, n, b, answer))
  {
    hide Next;
    hide AllGood;
    var bound := S.Bind(st.sessions[n], b);
    PutSessionGood(st, n, bound);
    var st1 := Put(st, n, bound);
    TransmitGood(st1, b.slot, b.conn, OpenResponse(answer, b.resource, n));
    var st2 := Transmit(st1, b.slot, b.conn, OpenResponse(answer, b.resource, n)).0;
    PutSessionGood(st2, n, S.Open(bound));
    PutSessionGood(st2, n, S.End(bound));
  }

  lemma CloseRequestGood(st: Stack, data: seq<byte>, s: byte, c: byte)
    requires StackGood(st)
    ensures StackGood(OnCloseRequest(st, data, s, c))
  {
    hide Next;
    hide AllGood;
    if |data| >= 3 && data[0] == 2 {
      var n := Word(data[1], data[2]);
      TransmitGood(st, s, c, [S.ST_CLOSE_SESSION_RES, 3, 0xF0, High(n), Low(n)]);
      if n < |st.sessions| {
        PutSessionGood(st, n, S.End(st.sessions[n]));
        TransmitGood(Put(st, n, S.End(st.sessions[n])), s, c, [S.ST_CLOSE_SESSION_RES, 3, 0x00, High(n), Low(n)]);
      }
    }
  }

  lemma StackNextGood(st: Stack, step: StackStep)
    requires StackGood(st)
    ensures StackGood(StackNext(st, step))
  {
    hide Next;
    hide AllGood;
    match step
    case OnLink(t, app) =>
      NextGood(st.slots, t);
      ReactGood(st.(slots := Next(st.slots, t).slots), Next(st.slots, t).callback, app);
    case CreateSession(s, c, resource, callback) =>
      var b := S.Binding(resource, s, c, callback);
      var free := FirstIdleSession(st.sessions, 1);
      if free.Some? {
        var n := free.value;
        PutSessionGood(st, n, S.Bind(st.sessions[n], b));
        var st1 := Put(st, n, S.Bind(st.sessions[n], b));
        var hdr := [S.ST_CREATE_SESSION, 6] + Resource(b.resource) + [High(n), Low(n)];
        TransmitGood(st1, s, c, hdr);
        PutSessionGood(Transmit(st1, s, c, hdr).0, n, S.End(st1.sessions[n]));
      }
    case DestroySession(n) =>
      if n < |st.sessions| && Closable(st.sessions[n]) {
        var b := st.sessions[n].binding;
        PutSessionGood(st, n, S.Close(st.sessions[n]));
        var st1 := Put(st, n, S.Close(st.sessions[n]));
        TransmitGood(st1, b.slot, b.conn, [S.ST_CLOSE_SESSION_REQ, 2, High(n), Low(n)]);
        PutSessionGood(Transmit(st1, b.slot, b.conn, [S.ST_CLOSE_SESSION_REQ, 2, High(n), Low(n)]).0, n, S.End(st1.sessions[n]));
      }
    case SendApdus(n, data) =>
      if n < |st.sessions| && st.sessions[n].state == S.Active {
        TransmitGood(st, st.sessions[n].binding.slot, st.sessions[n].binding.conn, Package(n, data));
      }
  }

  lemma NewStackGood(maxSlots: byte, maxConns: byte, maxSessions: nat)
    ensures StackGood(NewStack(maxSlots, maxConns, maxSessions)) && CrossLayer(NewStack(maxSlots, maxConns, maxSessions))
  {
  }

  lemma {:induction false} StackRunGood(st: Stack, steps: seq<StackStep>)
    requires StackGood(st)
    ensures StackGood(StackRun(st, steps))
    decreases |steps|
  {
    if steps != [] {
      StackNextGood(st, steps[0]);
      StackRunGood(StackNext(st, steps[0]), steps[1..]);
    }
  }

  /** Session binding, over every run: every APDU a callback ever got came from the slot and
      connection its session was allocated for, while that session was open; and a session that
      is in use is still what it was allocated as. */
  lemma SessionBinding(st: Stack, steps: seq<StackStep>, n: nat)
    requires StackGood(st) && n < |StackRun(st, steps).sessions|
    ensures var s := StackRun(st, steps).sessions[n];
            && (s.state != S.Idle ==> n > 0 && S.Seen(s.hist).binding == Some(s.binding))
            && forall j :: 0 <= j < |s.hist| && s.hist[j].Apdu? ==>
                 && s.hist[j].slot == s.hist[j].to.slot && s.hist[j].conn == s.hist[j].to.conn
                 && exists i, k :: 0 <= i < k < j && s.hist[i] == S.Bound(s.hist[j].to) && s.hist[k] == S.Opened
                                   && (forall m :: i < m < j ==> !s.hist[m].Bound? && !s.hist[m].Ended?)
                                   && (forall m :: k < m < j ==> !s.hist[m].Closing?)
  {
    StackRunGood(st, steps);
    var h := StackRun(st, steps).sessions[n].hist;
    assert S.Good(StackRun(st, steps).sessions[n]);
    forall j | 0 <= j < |h| && h[j].Apdu?
      ensures h[j].slot == h[j].to.slot && h[j].conn == h[j].to.conn
      ensures exists i, k :: 0 <= i < k < j && h[i] == S.Bound(h[j].to) && h[k] == S.Opened
                             && (forall m :: i < m < j ==> !h[m].Bound? && !h[m].Ended?)
                             && (forall m :: k < m < j ==> !h[m].Closing?)
    {
      S.HonestMeans(h, j);
    }
  }

  /** No single step gives a session in use another resource, slot, connection or callback. */
  lemma BindingIsStable(st: Stack, step: StackStep, n: nat)
    requires Sized(st.slots) && n < |st.sessions|
    ensures |StackNext(st, step).sessions| == |st.sessions|
    ensures Stable(st.sessions[n], StackNext(st, step).sessions[n])
  {
    hide Next;
    if step.OnLink? {
      var o := Next(st.slots, step.step);
      ReactIsStable(st.(slots := o.slots), o.callback, step.app, n);
    }
  }

  predicate Stable(before: S.Session, after: S.Session) {
    before.state != S.Idle && after.state != S.Idle ==> after.binding == before.binding
  }

  lemma ReactIsStable(st: Stack, cb: Callback, app: App, n: nat)
    requires Sized(st.slots) && n < |st.sessions|
    ensures |React(st, cb, app).sessions| == |st.sessions|
    ensures Stable(st.sessions[n], React(st, cb, app).sessions[n])
  {
    hide Next;
    hide SplitApdus;
  }

  // ---------------------------------------------------------------- cross-layer safety

  /** Every session in use names a registered slot and an active connection of it. */
  predicate Anchored(slots: seq<Slot>, s: S.Session) {
    s.state != S.Idle ==> IsActive(slots, s.binding.slot, s.binding.conn)
  }

  predicate CrossLayer(st: Stack) { forall i :: 0 <= i < |st.sessions| ==> Anchored(st.slots, st.sessions[i]) }

  predicate Uses(s: S.Session, slot: byte, conn: byte) { s.state != S.Idle && From(s, slot, conn) }

  predicate InUse(st: Stack, slot: byte, conn: byte) { exists i :: 0 <= i < |st.sessions| && Uses(st.sessions[i], slot, conn) }

  /** The two ways a step can take the connection away below a session without a callback: the
      host deletes the connection, or the reply to the module's delete cannot be written. */
  predicate Severs(st: Stack, step: StackStep) {
    step.OnLink? &&
    match step.step
    case DelTc(s, c) => InUse(st, s, c)
    case Receive(s, t, link) => t.tag == C.T_DELETE_T_C && !link.first && InUse(st, s, t.conn)
    case _ => false
  }

  /** Answers and requests of the session layer leave every connection as active as it was. */
  lemma TransmitKeeps(st: Stack, s: byte, c: byte, data: seq<byte>)
    requires Sized(st.slots)
    ensures forall s', c' :: IsActive(Transmit(st, s, c, data).0.slots, s', c') <==> IsActive(st.slots, s', c')
    ensures Transmit(st, s, c, data).1 ==> IsActive(st.slots, s, c)
  {
  }

  lemma PutAnchored(st: Stack, i: nat, s: S.Session)
    requires CrossLayer(st) && i < |st.sessions| && Anchored(st.slots, s)
    ensures CrossLayer(Put(st, i, s))
  {
  }

  lemma TransmitAnchored(st: Stack, s: byte, c: byte, data: seq<byte>)
    requires Sized(st.slots) && CrossLayer(st)
    ensures CrossLayer(Transmit(st, s, c, data).0)
  {
    TransmitKeeps(st, s, c, data);
    var after := Transmit(st, s, c, data).0;
    forall i | 0 <= i < |after.sessions| ensures Anchored(after.slots, after.sessions[i]) {
      assert Anchored(st.slots, st.sessions[i]);
    }
  }

  lemma DataAnchored(st: Stack, data: seq<byte>, s: byte, c: byte, app: App)
    requires Sized(st.slots) && CrossLayer(st) && IsActive(st.slots, s, c)
    ensures CrossLayer(OnData(st, data, s, c, app))
  {
    hide Next;
    if data != [] {
      var body := data[1..];
      if data[0] == S.ST_OPEN_SESSION_REQ {
        OpenRequestAnchored(st, body, s, c, app);
      } else if data[0] == S.ST_CLOSE_SESSION_REQ && |body| >= 3 {
        var n := Word(body[1], body[2]);
        TransmitAnchored(st, s, c, [S.ST_CLOSE_SESSION_RES, 3, 0xF0, High(n), Low(n)]);
        if n < |st.sessions| {
          PutAnchored(st, n, S.End(st.sessions[n]));
          TransmitAnchored(Put(st, n, S.End(st.sessions[n])), s, c, [S.ST_CLOSE_SESSION_RES, 3, 0x00, High(n), Low(n)]);
        }
      } else if data[0] == S.ST_SESSION_NUMBER && |body| >= 3 {
        var n := Word(body[1], body[2]);
        if n < |st.sessions| { PutAnchored(st, n, S.Deliver(st.sessions[n], s, c, SplitApdus(body[3..]))); }
      } else if data[0] == S.ST_CREATE_SESSION_RES && |body| >= 8 {
        var n := Word(body[5], body[6]);
        if n < |st.sessions| && st.sessions[n].state == S.InCreation {
          PutAnchored(st, n, S.Open(st.sessions[n]));
          PutAnchored(st, n, S.End(st.sessions[n]));
        }
      } else if data[0] == S.ST_CLOSE_SESSION_RES && |body| >= 5 {
        var n := Word(body[2], body[3]);
        if n < |st.sessions| { PutAnchored(st, n, S.End(st.sessions[n])); }
      }
    }
  }

  lemma OpenRequestAnchored(st: Stack, data: seq<byte>, s: byte, c: byte, app: App)
    requires Sized(st.slots) && CrossLayer(st) && IsActive(st.slots, s, c)
    ensures CrossLayer(OnOpenRequest(st, data, s, c, app))
  {
    hide Next;
    hide Admit;
    if |data| < 5 || data[0] != 4 { return; }
    var found := Found(app, s, data);
    var status := LookupStatus(found);
    var resource := if found.Some? then found.value.resource else 0;
    var free := FirstIdleSession(st.sessions, 1);
    if status == S.S_STATUS_OPEN && free.Some? {
      var answer := if app.busy.None? then S.S_STATUS_CLOSE_RES_UNAVAILABLE
                    else if app.busy.value then S.S_STATUS_CLOSE_RES_BUSY else S.S_STATUS_OPEN;
      AdmitAnchored(st, free.value, S.Binding(resource, s, c, found.value.callback), answer);
    } else {
      TransmitAnchored(st, s, c, OpenResponse(S.S_STATUS_CLOSE_NO_RES, resource, -1));
      TransmitAnchored(st, s, c, OpenResponse(status, resource, -1));
    }
  }

  lemma AdmitAnchored(st: Stack, n: nat, b: S.Binding, answer: int)
    requires Sized(st.slots) && CrossLayer(st) && IsActive(st.slots, b.slot, b.conn) && n < |st.sessions|
    ensures CrossLayer(Admit(st, n, b, answer))
  {
    hide Next;
    var bound := S.Bind(st.sessions[n], b);
    PutAnchored(st, n, bound);
    var st1 := Put(st, n, bound);
    TransmitAnchored(st1, b.slot, b.conn, OpenResponse(answer, b.resource, n));
    TransmitKeeps(st1, b.slot, b.conn, OpenResponse(answer, b.resource, n));
    var st2 := Transmit(st1, b.slot, b.conn, OpenResponse(answer, b.resource, n)).0;
    PutAnchored(st2, n, S.Open(bound));
    PutAnchored(st2, n, S.End(bound));
  }

  lemma CreateAnchored(st: Stack, b: S.Binding)
    requires Sized(st.slots) && CrossLayer(st)
    ensures CrossLayer(DoCreate(st, b).0)
  {
    hide Next;
    var free := FirstIdleSession(st.sessions, 1);
    if free.Some? {
      var n := free.value;
      var st1 := Put(st, n, S.Bind(st.sessions[n], b));
      var hdr := [S.ST_CREATE_SESSION, 6] + Resource(b.resource) + [High(n), Low(n)];
      TransmitKeeps(st1, b.slot, b.conn, hdr);
      var after := DoCreate(st, b).0;
      forall i | 0 <= i < |after.sessions| ensures Anchored(after.slots, after.sessions[i]) {
        assert Anchored(st.slots, st.sessions[i]);
      }
    }
  }

  lemma DestroyAnchored(st: Stack, n: u16)
    requires Sized(st.slots) && CrossLayer(st)
    ensures CrossLayer(DoDestroy(st, n).0)
  {
    hide Next;
    if n < |st.sessions| && Closable(st.sessions[n]) {
      var b := st.sessions[n].binding;
      var st1 := Put(st, n, S.Close(st.sessions[n]));
      PutAnchored(st, n, S.Close(st.sessions[n]));
      TransmitAnchored(st1, b.slot, b.conn, [S.ST_CLOSE_SESSION_REQ, 2, High(n), Low(n)]);
      var st2 := Transmit(st1, b.slot, b.conn, [S.ST_CLOSE_SESSION_REQ, 2, High(n), Low(n)]).0;
      PutAnchored(st2, n, S.End(st2.sessions[n]));
    }
  }

  /** What a transport step leaves below the sessions, before the session layer reacts. */
  lemma LinkKeeps(st: Stack, t: Step, i: nat)
    requires StackGood(st) && i < |st.sessions| && Anchored(st.slots, st.sessions[i]) && st.sessions[i].state != S.Idle
    ensures KeepsOpen(t, st.sessions[i].binding.slot, st.sessions[i].binding.conn) ==> Anchored(Next(st.slots, t).slots, st.sessions[i])
  {
    var b := st.sessions[i].binding;
    if KeepsOpen(t, b.slot, b.conn) { StepOnActive(st.slots, t, b.slot, b.conn); }
  }

  lemma LinkAnchored(st: Stack, t: Step, app: App)
    requires StackGood(st) && CrossLayer(st) && !Severs(st, OnLink(t, app))
    ensures CrossLayer(StackNext(st, OnLink(t, app)))
  {
    if t.DestroySlot? || (t.Receive? && t.tpdu.tag == C.T_DELETE_T_C) {
      ClosingAnchored(st, t, app);
    } else {
      var o := Next(st.slots, t);
      var mid := st.(slots := o.slots);
      forall i | 0 <= i < |st.sessions| ensures Anchored(o.slots, st.sessions[i]) { OthersKept(st, t, app, i); }
      assert CrossLayer(mid);
      DataComesFromActive(st.slots, t);
      ReactAnchored(mid, o.callback, app);
    }
  }

  lemma OthersKept(st: Stack, t: Step, app: App, i: nat)
    requires StackGood(st) && CrossLayer(st) && !Severs(st, OnLink(t, app)) && i < |st.sessions|
    requires !t.DestroySlot? && !(t.Receive? && t.tpdu.tag == C.T_DELETE_T_C)
    ensures Anchored(Next(st.slots, t).slots, st.sessions[i])
  {
    if st.sessions[i].state != S.Idle {
      if t.DelTc? { assert !Uses(st.sessions[i], t.slot, t.conn); }
      LinkKeeps(st, t, i);
    }
  }

  lemma DataComesFromActive(slots: seq<Slot>, t: Step)
    requires Sized(slots)
    ensures var o := Next(slots, t); o.callback.Data? ==> IsActive(o.slots, o.callback.slot, o.callback.conn)
  {
  }

  /** Slot removal, and the module's delete: the callback ends the sessions that lose their connection. */
  lemma ClosingAnchored(st: Stack, t: Step, app: App)
    requires StackGood(st) && CrossLayer(st) && !Severs(st, OnLink(t, app))
    requires t.DestroySlot? || (t.Receive? && t.tpdu.tag == C.T_DELETE_T_C)
    ensures CrossLayer(StackNext(st, OnLink(t, app)))
  {
    ClosingCallback(st.slots, t);
    var o := Next(st.slots, t);
    hide Next;
    hide OnData;
    hide AllGood;
    hide SessionsGood;
    var after := StackNext(st, OnLink(t, app));
    forall i | 0 <= i < |after.sessions| ensures Anchored(after.slots, after.sessions[i]) {
      if st.sessions[i].state != S.Idle {
        LinkKeeps(st, t, i);
        assert t.Receive? && !t.link.first ==> !Uses(st.sessions[i], t.slot, t.tpdu.conn);
      }
    }
  }

  lemma ClosingCallback(slots: seq<Slot>, t: Step)
    requires Sized(slots)
    ensures t.DestroySlot? ==>
              Next(slots, t).callback == if t.slot < |slots| then SlotClose(t.slot) else NoCallback
    ensures t.Receive? && t.tpdu.tag == C.T_DELETE_T_C ==>
              var o := Next(slots, t);
              && (o.callback == NoCallback || o.callback == ConnectionClose(t.slot, t.tpdu.conn))
              && (IsActive(slots, t.slot, t.tpdu.conn) && t.link.first ==> o.callback == ConnectionClose(t.slot, t.tpdu.conn))
  {
  }

  lemma ReactAnchored(st: Stack, cb: Callback, app: App)
    requires Sized(st.slots) && CrossLayer(st) && (cb.Data? ==> IsActive(st.slots, cb.slot, cb.conn))
    ensures CrossLayer(React(st, cb, app))
  {
    if cb.Data? {
      DataAnchored(st, cb.data, cb.slot, cb.conn, app);
    } else {
      var after := React(st, cb, app);
      assert forall i :: 0 <= i < |st.sessions| ==> Anchored(st.slots, st.sessions[i]);
    }
  }

  lemma SeversBreaks(st: Stack, t: Step, app: App)
    requires StackGood(st) && CrossLayer(st) && Severs(st, OnLink(t, app))
    ensures !CrossLayer(StackNext(st, OnLink(t, app)))
  {
    var s, c := t.slot, if t.DelTc? then t.conn else t.tpdu.conn;
    var i :| 0 <= i < |st.sessions| && Uses(st.sessions[i], s, c);
    assert Anchored(st.slots, st.sessions[i]);
    var after := StackNext(st, OnLink(t, app));
    assert after.sessions == st.sessions;
    assert !Anchored(after.slots, after.sessions[i]);
  }

  /** Cross-layer safety, exactly: a step keeps it unless it is the host's en50221_tl_del_tc on a
      connection in use, or the module's T_DELETE_T_C on one whose reply cannot be written. */
  lemma CrossLayerStep(st: Stack, step: StackStep)
    requires StackGood(st) && CrossLayer(st)
    ensures CrossLayer(StackNext(st, step)) <==> !Severs(st, step)
  {
    match step
    case OnLink(t, app) =>
      if Severs(st, step) { SeversBreaks(st, t, app); } else { LinkAnchored(st, t, app); }
    case CreateSession(s, c, resource, callback) => CreateAnchored(st, S.Binding(resource, s, c, callback));
    case DestroySession(n) => DestroyAnchored(st, n);
    case SendApdus(n, data) =>
      if n < |st.sessions| && st.sessions[n].state == S.Active {
        TransmitAnchored(st, st.sessions[n].binding.slot, st.sessions[n].binding.conn, Package(n, data));
      }
  }

  /** Neither en50221_tl_del_tc nor a failed reply to T_DELETE_T_C. */
  predicate Tame(step: StackStep) {
    !(step.OnLink? && (step.step.DelTc? ||
                     (step.step.Receive? && step.step.tpdu.tag == C.T_DELETE_T_C && !step.step.link.first)))
  }

  lemma TameNeverSevers(st: Stack, step: StackStep)
    requires Tame(step)
    ensures !Severs(st, step)
  {
  }

  /** Cross-layer safety over whole runs. */
  lemma {:induction false} CrossLayerRun(st: Stack, steps: seq<StackStep>)
    requires StackGood(st) && CrossLayer(st)
    requires forall step :: step in steps ==> Tame(step)
    ensures CrossLayer(StackRun(st, steps))
    decreases |steps|
  {
    if steps != [] {
      StackNextGood(st, steps[0]);
      TameNeverSevers(st, steps[0]);
      CrossLayerStep(st, steps[0]);
      var next, rest := StackNext(st, steps[0]), steps[1..];
      CrossLayerRun(next, rest);
    }
  }
}
