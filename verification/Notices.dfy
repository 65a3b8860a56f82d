/** What the session layer of lib/libdvben50221/en50221_session.c tells the application's session callback
    while it reacts to the transport layer (lines 398-709 and 869-971). */
module CamNotices {
  import opened Bytes
  import opened Transport
  import S = Session
  import opened CamStack

  datatype Reason = CamConnecting | CamConnected | CamConnectFail | Connected | ConnectFail | Close | TcConnect | TcCamConnect

  /** The arguments of the callback; `number` is a session or, for the last two reasons, a connection. */
  datatype Notice = Notice(reason: Reason, slot: byte, number: nat, resource: nat)

  /** A session callback is registered if it answers CAMCONNECTING. */
  predicate Listens(app: App) { app.busy.Some? }

  /** What ends sessions without an SPDU. */
  datatype Cause = OfConnection(conn: byte) | OfSlot(slot: byte)

  predicate Hit(s: S.Session, cause: Cause) {
    s.state != S.Idle && match cause case OfConnection(c) => s.binding.conn == c case OfSlot(s') => s.binding.slot == s'
  }

  function About(reason: Reason, n: nat, s: S.Session): Notice { Notice(reason, s.binding.slot, n, s.binding.resource) }

  /** One notice for each session that ends, in their order. */
  function CloseNotices(ss: seq<S.Session>, cause: Cause, from: nat): seq<Notice>
    decreases |ss| - from
  {
    if from >= |ss| then []
    else (if Hit(ss[from], cause) then [About(Close, from, ss[from])] else []) + CloseNotices(ss, cause, from + 1)
  }

  function OpenRequestNotices(st: Stack, data: seq<byte>, s: byte, c: byte, app: App): seq<Notice>
    requires Sized(st.slots)
  {
    if |data| < 5 || data[0] != 4 || LookupStatus(Found(app, s, data)) != S.S_STATUS_OPEN then [] else
      var free := FirstIdleSession(st.sessions, 1);
      if free.None? then [] else
        var n := free.value;
        var after := OnOpenRequest(st, data, s, c, app).sessions;
        var resource := Found(app, s, data).value.resource;
        [Notice(CamConnecting, s, n, resource)]
        + if n < |after| && after[n].state == S.Active then [Notice(CamConnected, s, n, resource)] else []
  }

  function CloseRequestNotices(st: Stack, data: seq<byte>, s: byte, c: byte): seq<Notice> {
    if |data| < 3 || data[0] != 2 then [] else
      var n := Word(data[1], data[2]);
      if n < |st.sessions| && From(st.sessions[n], s, c) && Closable(st.sessions[n]) then [About(Close, n, st.sessions[n])] else []
  }

  function CreateResponseNotices(st: Stack, data: seq<byte>, s: byte, c: byte): seq<Notice> {
    if |data| < 8 || data[0] != 7 then [] else
      var n := Word(data[5], data[6]);
      if n < |st.sessions| && From(st.sessions[n], s, c) && st.sessions[n].state == S.InCreation then
        [About(if data[1] == S.S_STATUS_OPEN then Connected else ConnectFail, n, st.sessions[n])]
      else []
  }

  function DataNotices(st: Stack, data: seq<byte>, s: byte, c: byte, app: App): seq<Notice>
    requires Sized(st.slots)
  {
    if data == [] then []
    else if data[0] == S.ST_OPEN_SESSION_REQ then OpenRequestNotices(st, data[1..], s, c, app)
    else if data[0] == S.ST_CLOSE_SESSION_REQ then CloseRequestNotices(st, data[1..], s, c)
    else if data[0] == S.ST_CREATE_SESSION_RES then CreateResponseNotices(st, data[1..], s, c)
    else []
  }

  /** The calls en50221_sl_transport_callback makes, in order. */
  function Notices(st: Stack, cb: Callback, app: App): seq<Notice>
    requires Sized(st.slots)
  {
    if !Listens(app) then [] else
      match cb
      case NoCallback => []
      case ConnectionOpen(s, c) => [Notice(TcConnect, s, c, 0)]
      case CamConnectionOpen(s, c) => [Notice(TcCamConnect, s, c, 0)]
      case ConnectionClose(_, c) => CloseNotices(st.sessions, OfConnection(c), 0)
      case SlotClose(s) => CloseNotices(st.sessions, OfSlot(s), 0)
      case Data(s, c, data) => DataNotices(st, data, s, c, app)
  }

  // ---------------------------------------------------------------- what the notices mean

  predicate Tells(ns: seq<Notice>, reason: Reason, n: nat) { exists x :: x in ns && x.reason == reason && x.number == n }

  /** The notices about session `n` say what becomes of it. */
  predicate Truthful(ns: seq<Notice>, n: nat, before: S.Session, after: S.Session, quiet: bool) {
    && (Tells(ns, CamConnected, n) || Tells(ns, Connected, n) <==> before.state != S.Active && after.state == S.Active)
    && (Tells(ns, Close, n) || Tells(ns, ConnectFail, n) <==> before.state != S.Idle && after.state == S.Idle && !quiet)
    && !Tells(ns, CamConnectFail, n)
    && (forall x :: x in ns && x.number == n && x.reason != TcConnect && x.reason != TcCamConnect ==> x == About(x.reason, n, after))
  }

  /** Exactly one kind of notice about exactly the sessions that end. */
  lemma {:induction false} CloseNoticesMean(ss: seq<S.Session>, cause: Cause, from: nat, x: Notice)
    requires from <= |ss|
    ensures x in CloseNotices(ss, cause, from) <==>
      from <= x.number < |ss| && Hit(ss[x.number], cause) && x == About(Close, x.number, ss[x.number])
    decreases |ss| - from
  {
    if from < |ss| { CloseNoticesMean(ss, cause, from + 1, x); }
  }

  lemma ClosingTells(st: Stack, cause: Cause, n: nat, after: S.Session)
    requires n < |st.sessions| && after == if Hit(st.sessions[n], cause) then S.End(st.sessions[n]) else st.sessions[n]
    ensures Truthful(CloseNotices(st.sessions, cause, 0), n, st.sessions[n], after, false)
  {
    var ns := CloseNotices(st.sessions, cause, 0);
    forall x ensures x in ns <==> 0 <= x.number < |st.sessions| && Hit(st.sessions[x.number], cause) && x == About(Close, x.number, st.sessions[x.number]) {
      CloseNoticesMean(st.sessions, cause, 0, x);
    }
    hide CloseNotices;
    var told := About(Close, n, st.sessions[n]);
    assert told in ns <==> Hit(st.sessions[n], cause);
  }

  predicate ByCloseResponse(cb: Callback) { cb.Data? && cb.data != [] && cb.data[0] == S.ST_CLOSE_SESSION_RES }

  /** The session a request is admitted to gets its binding and is open or idle afterwards. */
  lemma AdmitSessions(st: Stack, m: nat, b: S.Binding, answer: int)
    requires Sized(st.slots) && m < |st.sessions|
    ensures var after := Admit(st, m, b, answer).sessions;
      && |after| == |st.sessions| && after == st.sessions[m := after[m]] && after[m].binding == b
      && (after[m].state == S.Idle || (after[m].state == S.Active && answer == S.S_STATUS_OPEN))
  {
    hide Transmit;
  }

  /** Which session a request is admitted to. */
  function Candidate(st: Stack, data: seq<byte>, s: byte, app: App): Option<nat> {
    if |data| < 5 || data[0] != 4 || LookupStatus(Found(app, s, data)) != S.S_STATUS_OPEN then None else FirstIdleSession(st.sessions, 1)
  }

  lemma OpenRequestSessions(st: Stack, data: seq<byte>, s: byte, c: byte, app: App)
    requires Sized(st.slots)
    ensures var after, m := OnOpenRequest(st, data, s, c, app).sessions, Candidate(st, data, s, app);
      if m.None? then after == st.sessions
      else
        && |after| == |st.sessions| && after == st.sessions[m.value := after[m.value]]
        && app.lookup.Some?
        && after[m.value].binding == S.Binding(Found(app, s, data).value.resource, s, c, Found(app, s, data).value.callback)
        && (after[m.value].state == S.Idle || (after[m.value].state == S.Active && Listens(app)))
  {
    hide Transmit;
    hide Admit;
    var m := Candidate(st, data, s, app);
    if m.Some? {
      var answer := if app.busy.None? then S.S_STATUS_CLOSE_RES_UNAVAILABLE
                    else if app.busy.value then S.S_STATUS_CLOSE_RES_BUSY else S.S_STATUS_OPEN;
      AdmitSessions(st, m.value, S.Binding(Found(app, s, data).value.resource, s, c, Found(app, s, data).value.callback), answer);
    }
  }

  lemma SilentTells(n: nat, before: S.Session, after: S.Session)
    requires after.state == before.state
    ensures Truthful([], n, before, after, false)
  {
  }

  lemma AdmittedTells(m: nat, isOpen: bool, n: nat, before: S.Session, after: S.Session, slot: byte, resource: nat)
    requires n != m ==> after == before
    requires n == m ==> before.state == S.Idle && after.state == (if isOpen then S.Active else S.Idle)
    requires n == m ==> after.binding.slot == slot && after.binding.resource == resource
    ensures Truthful([Notice(CamConnecting, slot, m, resource)] + if isOpen then [Notice(CamConnected, slot, m, resource)] else [], n, before, after, false)
  {
    var first, second := Notice(CamConnecting, slot, m, resource), Notice(CamConnected, slot, m, resource);
    var ns := [first] + if isOpen then [second] else [];
    assert forall x :: x in ns <==> x == first || (isOpen && x == second);
  }

  lemma OpenRequestTells(st: Stack, data: seq<byte>, s: byte, c: byte, app: App, n: nat)
    requires Sized(st.slots) && n < |st.sessions|
    ensures var after := OnOpenRequest(st, data, s, c, app).sessions;
      n < |after| && Truthful(if Listens(app) then OpenRequestNotices(st, data, s, c, app) else [], n, st.sessions[n], after[n], false)
  {
    OpenRequestSessions(st, data, s, c, app);
    hide OnOpenRequest;
    hide Truthful;
    var after, m := OnOpenRequest(st, data, s, c, app).sessions, Candidate(st, data, s, app);
    SilentTells(n, st.sessions[n], st.sessions[n]);
    if m.Some? {
      AdmittedTells(m.value, after[m.value].state == S.Active, n, st.sessions[n], after[n], s, Found(app, s, data).value.resource);
      if !Listens(app) { SilentTells(n, st.sessions[n], after[n]); }
    }
  }

  lemma CloseRequestTells(st: Stack, data: seq<byte>, s: byte, c: byte, n: nat)
    requires Sized(st.slots) && n < |st.sessions|
    ensures var after := OnCloseRequest(st, data, s, c).sessions;
      n < |after| && Truthful(CloseRequestNotices(st, data, s, c), n, st.sessions[n], after[n], false)
  {
    hide Next;
    hide Transmit;
    var ns := CloseRequestNotices(st, data, s, c);
    assert ns != [] ==> ns[0] in ns;
  }

  lemma CreateResponseTells(st: Stack, data: seq<byte>, s: byte, c: byte, n: nat)
    requires n < |st.sessions|
    ensures var after := OnCreateResponse(st, data, s, c).sessions;
      n < |after| && Truthful(CreateResponseNotices(st, data, s, c), n, st.sessions[n], after[n], false)
  {
    var ns := CreateResponseNotices(st, data, s, c);
    assert ns != [] ==> ns[0] in ns;
  }

  /** Whatever the transport layer reports, the notices about a session say exactly whether it became open
      and whether it ended, for the resource and slot it is bound to; only the module's answer to a close of
      the host goes unreported. The reason CAMCONNECTFAIL is never used. */
  lemma NoticesTell(st: Stack, cb: Callback, app: App, n: nat)
    requires Sized(st.slots) && Listens(app) && n < |st.sessions|
    ensures n < |React(st, cb, app).sessions|
    ensures Truthful(Notices(st, cb, app), n, st.sessions[n], React(st, cb, app).sessions[n], ByCloseResponse(cb))
  {
    match cb
    case ConnectionClose(_, c) => ClosingTells(st, OfConnection(c), n, EndConn(st.sessions, c)[n]);
    case SlotClose(s) => ClosingTells(st, OfSlot(s), n, EndSlot(st.sessions, s)[n]);
    case Data(s, c, data) => DataTells(st, data, s, c, app, n);
    case _ =>
  }

  lemma DataTells(st: Stack, data: seq<byte>, s: byte, c: byte, app: App, n: nat)
    requires Sized(st.slots) && Listens(app) && n < |st.sessions|
    ensures n < |OnData(st, data, s, c, app).sessions|
    ensures Truthful(DataNotices(st, data, s, c, app), n, st.sessions[n], OnData(st, data, s, c, app).sessions[n], ByCloseResponse(Data(s, c, data)))
  {
    hide SplitApdus;
    hide OnOpenRequest;
    hide OnCloseRequest;
    hide OnCreateResponse;
    hide OpenRequestNotices;
    hide CloseRequestNotices;
    hide CreateResponseNotices;
    hide S.Seen;
    if data != [] {
      OpenRequestTells(st, data[1..], s, c, app, n);
      CloseRequestTells(st, data[1..], s, c, n);
      CreateResponseTells(st, data[1..], s, c, n);
    }
  }

  /** What the session callback hears that is not about the end or the opening of a session: the question put to it
      when a session is taken for a request, and the connections that come up. */
  lemma QuestionsAsked(st: Stack, s: byte, c: byte, w: seq<byte>, app: App)
    requires Sized(st.slots) && Listens(app)
    ensures Notices(st, ConnectionOpen(s, c), app) == [Notice(TcConnect, s, c, 0)]
    ensures Notices(st, CamConnectionOpen(s, c), app) == [Notice(TcCamConnect, s, c, 0)]
    ensures |w| >= 6 && w[0] == 0x91 && w[1] == 4 && app.lookup.Some? ==>
      var asked := w[2] as int * 0x100_0000 + w[3] as int * 0x1_0000 + w[4] as int * 0x100 + w[5] as int;
      var found := app.lookup.value(s, asked);
      var ns := Notices(st, Data(s, c, w), app);
      if found.status == 0 && exists n :: 1 <= n < |st.sessions| && st.sessions[n].state == S.Idle
      then ns != [] && ns[0].number < |st.sessions| && ns[0] == Notice(CamConnecting, s, ns[0].number, found.resource)
        && st.sessions[ns[0].number].state == S.Idle && forall i :: 1 <= i < ns[0].number ==> st.sessions[i].state != S.Idle
      else ns == []
  {
    hide OnOpenRequest;
    hide CloseRequestNotices;
    hide CreateResponseNotices;
  }

  // ---------------------------------------------------------------- other slots

  /** What arrives on one slot leaves a session of another slot alone, except exactly when it closes a
      connection that has the number of the session's own. */
  lemma OtherSlot(st: Stack, t: Step, app: App, n: nat)
    requires Sized(st.slots) && t.Receive? && n < |st.sessions|
    requires st.sessions[n].state != S.Idle && t.slot != st.sessions[n].binding.slot
    ensures var cb := Next(st.slots, t).callback;
      var after := StackNext(st, OnLink(t, app)).sessions;
      && n < |after|
      && (after[n] == st.sessions[n] <==> !(cb.ConnectionClose? && cb.conn == st.sessions[n].binding.conn))
  {
    var o := Next(st.slots, t);
    CallbackOfSlot(st.slots, t);
    hide Next;
    hide OnData;
    match o.callback
    case Data(s, c, data) => DataOfOtherSlot(st.(slots := o.slots), data, s, c, app, n);
    case ConnectionClose(_, c) => EndedDiffers(st.sessions[n]);
    case _ =>
  }

  lemma EndedDiffers(s: S.Session)
    ensures S.End(s) != s
  {
    assert |S.End(s).hist| == |s.hist| + 1;
  }

  lemma DataOfOtherSlot(st: Stack, data: seq<byte>, s: byte, c: byte, app: App, n: nat)
    requires Sized(st.slots) && n < |st.sessions| && st.sessions[n].state != S.Idle && s != st.sessions[n].binding.slot
    ensures n < |OnData(st, data, s, c, app).sessions| && OnData(st, data, s, c, app).sessions[n] == st.sessions[n]
  {
    hide Next;
    hide Transmit;
    hide SplitApdus;
    hide S.Seen;
  }

  lemma CallbackOfSlot(slots: seq<Slot>, t: Step)
    requires Sized(slots) && t.Receive?
    ensures var cb := Next(slots, t).callback;
      !cb.SlotClose? && (cb.Data? || cb.ConnectionClose? || cb.ConnectionOpen? || cb.CamConnectionOpen? ==> cb.slot == t.slot)
  {
  }
}
