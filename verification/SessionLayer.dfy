/** struct en50221_session_layer as an object on top of a transport layer object: the functions of
    lib/libdvben50221/en50221_session.c as methods, each proved to take the step of module CamStack.
    The transport layer's callback pointer is the call of TransportCallback in ProcessData. */
module SessionObject {
  import opened Bytes
  import opened Asn1
  import opened Transport
  import opened TransportObject
  import S = Session
  import opened CamStack
  import opened CamNotices

  class SessionLayer {
    const tl: TransportLayer
    var sessions: seq<S.Session>

    ghost predicate Valid()
      reads this, tl
    {
      tl.Valid()
    }

    ghost function Model(): Stack
      reads this, tl
    {
      Stack(tl.slots, sessions)
    }

    /** en50221_sl_create */
    constructor (tl: TransportLayer, maxSessions: nat)
      requires tl.Valid()
      ensures Valid() && this.tl == tl && tl.slots == old(tl.slots)
      ensures sessions == NewStack(0, 0, maxSessions).sessions
    {
      this.tl := tl;
      sessions := seq(maxSessions, _ => S.Session(S.Idle, S.Binding(0, 0, 0, 0), []));
    }

    /** en50221_sl_alloc_new_session */
    method AllocNewSession(b: S.Binding) returns (number: Option<nat>)
      requires Valid()
      modifies this
      ensures Valid() && number == FirstIdleSession(old(sessions), 1)
      ensures sessions == if number.None? then old(sessions)
                          else old(sessions)[number.value := S.Bind(old(sessions)[number.value], b)]
    {
      var i := 1;
      while i < |sessions|
        invariant 1 <= i && sessions == old(sessions)
        invariant FirstIdleSession(sessions, 1) == FirstIdleSession(sessions, i)
      {
        if sessions[i].state == S.Idle {
          sessions := sessions[i := S.Bind(sessions[i], b)];
          return Some(i);
        }
        i := i + 1;
      }
      return None;
    }

    /** en50221_sl_create_session */
    method CreateSession(slot: byte, conn: byte, resource: nat, callback: nat) returns (number: int)
      requires Valid()
      modifies this, tl
      ensures Valid() && (Model(), number) == DoCreate(old(Model()), S.Binding(resource, slot, conn, callback))
    {
      var free := AllocNewSession(S.Binding(resource, slot, conn, callback));
      if free.None? { return -1; }
      var n := free.value;
      var status := tl.Send(slot, conn, [S.ST_CREATE_SESSION, 6] + Resource(resource) + [High(n), Low(n)]);
      if status.Failed? {
        if sessions[n].state == S.InCreation { sessions := sessions[n := S.End(sessions[n])]; }
        return -1;
      }
      return n;
    }

    /** en50221_sl_destroy_session */
    method DestroySession(n: u16) returns (result: int)
      requires Valid()
      modifies this, tl
      ensures Valid() && (Model(), result) == DoDestroy(old(Model()), n)
    {
      if n >= |sessions| || (sessions[n].state != S.Active && sessions[n].state != S.InDeletion) { return -1; }
      sessions := sessions[n := S.Close(sessions[n])];
      var b := sessions[n].binding;
      var status := tl.Send(b.slot, b.conn, [S.ST_CLOSE_SESSION_REQ, 2, High(n), Low(n)]);
      if status.Failed? {
        if sessions[n].state == S.InDeletion { sessions := sessions[n := S.End(sessions[n])]; }
        return -1;
      }
      return 0;
    }

    /** en50221_sl_send_data */
    method SendData(n: u16, data: seq<byte>) returns (result: int)
      requires Valid()
      modifies tl
      ensures Valid() && (Model(), result) == DoSend(old(Model()), n, data)
    {
      if n >= |sessions| || sessions[n].state != S.Active { return -1; }
      var b := sessions[n].binding;
      assert Flatten([data]) == data;
      assert [[S.ST_SESSION_NUMBER, 2, High(n), Low(n)], data][1..] == [data];
      var status := tl.SendVector(b.slot, b.conn, [[S.ST_SESSION_NUMBER, 2, High(n), Low(n)], data]);
      return if status.Failed? then -1 else 0;
    }

    /** en50221_sl_send_datav: at most nine pieces. */
    method SendVector(n: u16, vector: seq<seq<byte>>) returns (result: int)
      requires Valid()
      modifies tl
      ensures Valid()
      ensures (Model(), result) == if |vector| > 9 then (old(Model()), -1) else DoSend(old(Model()), n, Flatten(vector))
    {
      if n >= |sessions| || sessions[n].state != S.Active { return -1; }
      if |vector| > 9 { return -1; }
      var b := sessions[n].binding;
      assert ([[S.ST_SESSION_NUMBER, 2, High(n), Low(n)]] + vector)[1..] == vector;
      var status := tl.SendVector(b.slot, b.conn, [[S.ST_SESSION_NUMBER, 2, High(n), Low(n)]] + vector);
      return if status.Failed? then -1 else 0;
    }

    /** en50221_sl_handle_open_session_request. The branch for CAMCONNECTFAIL asks for a session that is
        ACTIVE although the status is not OPEN, which cannot be. */
    method HandleOpenRequest(data: seq<byte>, slot: byte, conn: byte, app: App) returns (told: seq<Notice>)
      requires Valid()
      modifies this, tl
      ensures Valid() && Model() == OnOpenRequest(old(Model()), data, slot, conn, app)
      ensures told == if Listens(app) then OpenRequestNotices(old(Model()), data, slot, conn, app) else []
    {
      told := [];
      if |data| < 5 || data[0] != 4 { return; }
      var found := Found(app, slot, data);
      var status := LookupStatus(found);
      var resource := if found.Some? then found.value.resource else 0;
      var number: Option<nat> := None;
      if status == S.S_STATUS_OPEN {
        number := AllocNewSession(S.Binding(resource, slot, conn, found.value.callback));
        if number.None? {
          status := S.S_STATUS_CLOSE_NO_RES;
        } else if app.busy.None? {
          status := S.S_STATUS_CLOSE_RES_UNAVAILABLE;
        } else {
          told := [Notice(CamConnecting, slot, number.value, resource)];
          if app.busy.value { status := S.S_STATUS_CLOSE_RES_BUSY; }
        }
      }
      var sent := tl.Send(slot, conn, OpenResponse(status, resource, if number.Some? then number.value else -1));
      if sent.Failed? { status := S.S_STATUS_CLOSE_NO_RES; }
      if number.Some? {
        var n := number.value;
        sessions := sessions[n := if status == S.S_STATUS_OPEN then S.Open(sessions[n]) else S.End(sessions[n])];
        if sessions[n].state == S.Active && status == S.S_STATUS_OPEN && app.busy.Some? {
          told := told + [Notice(CamConnected, slot, n, resource)];
        }
      }
    }

    /** en50221_sl_handle_close_session_request */
    method HandleCloseRequest(data: seq<byte>, slot: byte, conn: byte, app: App) returns (told: seq<Notice>)
      requires Valid()
      modifies this, tl
      ensures Valid() && Model() == OnCloseRequest(old(Model()), data, slot, conn)
      ensures told == if Listens(app) then CloseRequestNotices(old(Model()), data, slot, conn) else []
    {
      told := [];
      if |data| < 3 || data[0] != 2 { return; }
      var n := Word(data[1], data[2]);
      var code: byte := 0x00;
      var resource := 0;
      if n >= |sessions| {
        code := 0xF0;
      } else {
        var sess := sessions[n];
        if slot != sess.binding.slot { code := 0xF0; }
        if conn != sess.binding.conn { code := 0xF0; }
        if sess.state != S.Active && sess.state != S.InDeletion { code := 0xF0; }
        if code == 0x00 { sessions := sessions[n := S.End(sess)]; }
        resource := sess.binding.resource;
      }
      var _ := tl.Send(slot, conn, [S.ST_CLOSE_SESSION_RES, 3, code, High(n), Low(n)]);
      if code == 0x00 && app.busy.Some? { told := [Notice(Close, slot, n, resource)]; }
    }

    /** en50221_sl_handle_create_session_response */
    method HandleCreateResponse(data: seq<byte>, slot: byte, conn: byte, app: App) returns (told: seq<Notice>)
      requires Valid()
      modifies this
      ensures Valid() && Model() == OnCreateResponse(old(Model()), data, slot, conn)
      ensures told == if Listens(app) then CreateResponseNotices(old(Model()), data, slot, conn) else []
    {
      told := [];
      if |data| < 8 || data[0] != 7 { return; }
      var n := Word(data[5], data[6]);
      if n >= |sessions| { return; }
      var sess := sessions[n];
      if slot != sess.binding.slot || conn != sess.binding.conn || sess.state != S.InCreation { return; }
      if data[1] != S.S_STATUS_OPEN {
        sessions := sessions[n := S.End(sess)];
        if app.busy.Some? { told := [Notice(ConnectFail, slot, n, sess.binding.resource)]; }
        return;
      }
      sessions := sessions[n := S.Open(sess)];
      if app.busy.Some? { told := [Notice(Connected, slot, n, sess.binding.resource)]; }
    }

    /** en50221_sl_handle_close_session_response: ends the session whatever the status says. */
    method HandleCloseResponse(data: seq<byte>, slot: byte, conn: byte)
      requires Valid()
      modifies this
      ensures Valid() && Model() == OnCloseResponse(old(Model()), data, slot, conn)
    {
      if |data| < 5 || data[0] != 4 { return; }
      var n := Word(data[2], data[3]);
      if n >= |sessions| { return; }
      var sess := sessions[n];
      if slot != sess.binding.slot || conn != sess.binding.conn || sess.state != S.InDeletion { return; }
      sessions := sessions[n := S.End(sess)];
    }

    /** en50221_sl_handle_session_package: splits the package and calls back once per APDU. */
    method HandlePackage(data: seq<byte>, slot: byte, conn: byte)
      requires Valid()
      modifies this
      ensures Valid() && Model() == OnPackage(old(Model()), data, slot, conn)
    {
      if |data| < 3 || data[0] != 2 { return; }
      var n := Word(data[1], data[2]);
      if n >= |sessions| { return; }
      var sess := sessions[n];
      if slot != sess.binding.slot || conn != sess.binding.conn || sess.state != S.Active { return; }
      hide SplitApdus;
      hide S.Deliver;
      sess := DeliverApdus(sess, data[3..], slot, conn);
      sessions := sessions[n := sess];
    }

    /** The loop of CONNECTIONCLOSE in en50221_sl_transport_callback. */
    method HandleConnectionClose(conn: byte, app: App) returns (told: seq<Notice>)
      requires Valid()
      modifies this
      ensures Valid() && sessions == EndConn(old(sessions), conn)
      ensures told == if Listens(app) then CloseNotices(old(sessions), OfConnection(conn), 0) else []
    {
      hide CloseNotices;
      hide S.End;
      ghost var all := CloseNotices(sessions, OfConnection(conn), 0);
      told := [];
      assert told + all == all;
      var i := 0;
      while i < |sessions|
        invariant i <= |sessions| == |old(sessions)|
        invariant forall k :: 0 <= k < i ==> sessions[k] == EndConn(old(sessions), conn)[k]
        invariant forall k :: i <= k < |sessions| ==> sessions[k] == old(sessions)[k]
        invariant if Listens(app) then told + CloseNotices(old(sessions), OfConnection(conn), i) == all else told == []
      {
        CloseUnfold(told, old(sessions), OfConnection(conn), i);
        if sessions[i].state != S.Idle && sessions[i].binding.conn == conn {
          var b := sessions[i].binding;
          sessions := sessions[i := S.End(sessions[i])];
          if app.busy.Some? { told := told + [Notice(Close, b.slot, i, b.resource)]; }
        }
        i := i + 1;
      }
      CloseEnd(old(sessions), OfConnection(conn));
    }

    /** The loop of SLOTCLOSE in en50221_sl_transport_callback. */
    method HandleSlotClose(slot: byte, app: App) returns (told: seq<Notice>)
      requires Valid()
      modifies this
      ensures Valid() && sessions == EndSlot(old(sessions), slot)
      ensures told == if Listens(app) then CloseNotices(old(sessions), OfSlot(slot), 0) else []
    {
      hide CloseNotices;
      hide S.End;
      ghost var all := CloseNotices(sessions, OfSlot(slot), 0);
      told := [];
      assert told + all == all;
      var i := 0;
      while i < |sessions|
        invariant i <= |sessions| == |old(sessions)|
        invariant forall k :: 0 <= k < i ==> sessions[k] == EndSlot(old(sessions), slot)[k]
        invariant forall k :: i <= k < |sessions| ==> sessions[k] == old(sessions)[k]
        invariant if Listens(app) then told + CloseNotices(old(sessions), OfSlot(slot), i) == all else told == []
      {
        CloseUnfold(told, old(sessions), OfSlot(slot), i);
        if sessions[i].state != S.Idle && sessions[i].binding.slot == slot {
          var resource := sessions[i].binding.resource;
          sessions := sessions[i := S.End(sessions[i])];
          if app.busy.Some? { told := told + [Notice(Close, slot, i, resource)]; }
        }
        i := i + 1;
      }
      CloseEnd(old(sessions), OfSlot(slot));
    }

    /** en50221_sl_transport_callback */
    method TransportCallback(cb: Callback, app: App) returns (told: seq<Notice>)
      requires Valid()
      modifies this, tl
      ensures Valid() && Model() == React(old(Model()), cb, app)
      ensures told == Notices(old(Model()), cb, app)
    {
      hide OnOpenRequest;
      hide OnCloseRequest;
      hide OnPackage;
      hide OnCreateResponse;
      hide OnCloseResponse;
      told := [];
      match cb
      case NoCallback =>
      case ConnectionOpen(slot, conn) => if app.busy.Some? { told := [Notice(TcConnect, slot, conn, 0)]; }
      case CamConnectionOpen(slot, conn) => if app.busy.Some? { told := [Notice(TcCamConnect, slot, conn, 0)]; }
      case ConnectionClose(_, conn) => told := HandleConnectionClose(conn, app);
      case SlotClose(slot) => told := HandleSlotClose(slot, app);
      case Data(slot, conn, data) =>
        if |data| < 1 { return; }
        var tag := data[0];
        if tag == S.ST_OPEN_SESSION_REQ { told := HandleOpenRequest(data[1..], slot, conn, app); }
        else if tag == S.ST_CLOSE_SESSION_REQ { told := HandleCloseRequest(data[1..], slot, conn, app); }
        else if tag == S.ST_SESSION_NUMBER { HandlePackage(data[1..], slot, conn); }
        else if tag == S.ST_CREATE_SESSION_RES { told := HandleCreateResponse(data[1..], slot, conn, app); }
        else if tag == S.ST_CLOSE_SESSION_RES { HandleCloseResponse(data[1..], slot, conn); }
    }

    /** One TPDU: its handler, then the callback the handler ends with. */
    method ProcessTpdu(slot: byte, t: Tpdu, link: Link, app: App) returns (ok: bool, told: seq<Notice>)
      requires Valid() && Registered(tl.slots, slot)
      modifies this, tl
      ensures Valid() && Registered(tl.slots, slot)
      ensures Model() == StackNext(old(Model()), OnLink(Receive(slot, t, link), app))
      ensures var o := Next(old(Model()).slots, Receive(slot, t, link));
        ok == o.status.Ok? && told == Notices(old(Model()).(slots := o.slots), o.callback, app)
    {
      RegisteredKept(Model(), OnLink(Receive(slot, t, link), app), slot);
      var status, callback := tl.Handle(slot, t, link);
      told := TransportCallback(callback, app);
      ok := status.Ok?;
    }

    /** en50221_tl_process_data: one TPDU after the other, each followed by its callback. */
    method ProcessData(slot: byte, data: seq<byte>, links: nat -> Link, apps: nat -> App) returns (ok: bool)
      requires Valid() && Registered(tl.slots, slot)
      modifies this, tl
      ensures Valid() && (Model(), ok) == CamStack.ProcessData(old(Model()), slot, data, links, apps, 0)
    {
      hide StackNext;
      hide Next;
      hide ParseTpdu;
      var pos, k := 0, 0;
      while pos < |data|
        invariant pos <= |data| && Valid() && Registered(tl.slots, slot)
        invariant CamStack.ProcessData(Model(), slot, data[pos..], links, apps, k) ==
                  CamStack.ProcessData(old(Model()), slot, data, links, apps, 0)
        decreases |data| - pos
      {
        var p := ParseTpdu(data[pos..]);
        if p.None? { return false; }
        var (t, size) := p.value;
        ghost var before := Model();
        UnfoldProcessData(before, slot, data[pos..], links, apps, k);
        var fine, _ := ProcessTpdu(slot, t, links(k), apps(k));
        if !fine { return false; }
        assert data[pos..][size..] == data[pos + size..];
        pos, k := pos + size, k + 1;
      }
      return true;
    }
  }

  lemma CloseUnfold(told: seq<Notice>, ss: seq<S.Session>, cause: Cause, i: nat)
    requires i < |ss|
    ensures told + CloseNotices(ss, cause, i) ==
      (if Hit(ss[i], cause) then told + [About(Close, i, ss[i])] else told) + CloseNotices(ss, cause, i + 1)
  {
  }

  lemma CloseEnd(ss: seq<S.Session>, cause: Cause)
    ensures CloseNotices(ss, cause, |ss|) == []
  {
  }

  /** The loop of en50221_sl_handle_session_package. */
  method DeliverApdus(s: S.Session, data: seq<byte>, slot: byte, conn: byte) returns (sess: S.Session)
    ensures sess == S.Deliver(s, slot, conn, SplitApdus(data))
  {
    hide SplitApdus;
    hide DecodeLength;
    sess := s;
    var pos := 0;
    ghost var goal := S.Deliver(s, slot, conn, SplitApdus(data));
    assert data[0..] == data;
    while pos < |data|
      invariant pos <= |data| && S.Deliver(sess, slot, conn, SplitApdus(data[pos..])) == goal
    {
      SplitUnfold(data, pos);
      if |data| - pos < 3 { return; }
      var field := DecodeLength(data[pos + 3..]);
      if field.None? { return; }
      var size := 3 + field.value.size + field.value.length;
      if size > |data| - pos { return; }
      var apdu := data[pos..pos + size];
      if sess.binding.callback != 0 { sess := S.Note(sess, S.Apdu(slot, conn, sess.binding, apdu)); }
      pos := pos + size;
    }
    SplitUnfold(data, pos);
  }

  lemma SplitUnfold(data: seq<byte>, pos: nat)
    requires pos <= |data|
    ensures var rest := SplitApdus(data[pos..]);
            if |data| - pos < 3 || DecodeLength(data[pos + 3..]).None? then rest == [] else
              var f := DecodeLength(data[pos + 3..]).value;
              var next := pos + 3 + f.size + f.length;
              if next > |data| then rest == []
              else rest != [] && rest[0] == data[pos..next] && rest[1..] == SplitApdus(data[next..])
  {
  }

  lemma UnfoldProcessData(st: Stack, s: byte, data: seq<byte>, links: nat -> Link, apps: nat -> App, k: nat)
    requires Sized(st.slots) && ParseTpdu(data).Some?
    ensures var (t, size) := ParseTpdu(data).value;
            var next := StackNext(st, OnLink(Receive(s, t, links(k)), apps(k)));
            CamStack.ProcessData(st, s, data, links, apps, k) ==
            if Next(st.slots, Receive(s, t, links(k))).status.Failed? then (next, false)
            else CamStack.ProcessData(next, s, data[size..], links, apps, k + 1)
  {
  }

  lemma RegisteredKept(st: Stack, step: StackStep, s: byte)
    requires Sized(st.slots) && Registered(st.slots, s) && step.OnLink? && step.step.Receive?
    ensures Registered(StackNext(st, step).slots, s)
  {
    var o := Next(st.slots, step.step);
    assert Registered(o.slots, s);
    TransmitKeepsRegistration(st.(slots := o.slots), o.callback, step.app, s);
  }

  lemma TransmitKeepsRegistration(st: Stack, cb: Callback, app: App, s: byte)
    requires Sized(st.slots) && Registered(st.slots, s)
    ensures Registered(React(st, cb, app).slots, s)
  {
    hide Next;
    hide SplitApdus;
    hide LookupStatus;
  }
}
