/** Session protocol data units octet by octet, as EN 50221 section 7.2 lays them out, and what
    lib/libdvben50221/en50221_session.c sends and obeys in terms of them. */
module SpduFormat {
  import opened Bytes
  import opened Connection
  import opened Transport
  import S = Session
  import opened CamStack

  datatype Spdu =
    | SessionNumber(number: nat, body: seq<byte>)
    | OpenRequest(resource: nat)
    | OpenResponse(status: byte, resource: nat, number: nat)
    | CreateRequest(resource: nat, number: nat)
    | CloseRequest(number: nat)
    | CloseResponse(status: byte, number: nat)

  function Two(high: byte, low: byte): nat { 256 * high as int + low as int }

  function Four(a: byte, b: byte, c: byte, d: byte): nat { 65536 * Two(a, b) + Two(c, d) }

  /** The reading of the standard: tag, length, then the fields with their high octets first. */
  function Read(w: seq<byte>): Option<Spdu> {
    if |w| >= 4 && w[0] == 0x90 && w[1] == 2 then Some(SessionNumber(Two(w[2], w[3]), w[4..]))
    else if |w| == 6 && w[0] == 0x91 && w[1] == 4 then Some(OpenRequest(Four(w[2], w[3], w[4], w[5])))
    else if |w| == 9 && w[0] == 0x92 && w[1] == 7 then Some(OpenResponse(w[2], Four(w[3], w[4], w[5], w[6]), Two(w[7], w[8])))
    else if |w| == 8 && w[0] == 0x93 && w[1] == 6 then Some(CreateRequest(Four(w[2], w[3], w[4], w[5]), Two(w[6], w[7])))
    else if |w| == 4 && w[0] == 0x95 && w[1] == 2 then Some(CloseRequest(Two(w[2], w[3])))
    else if |w| == 5 && w[0] == 0x96 && w[1] == 3 then Some(CloseResponse(w[2], Two(w[3], w[4])))
    else None
  }

  /** The shortest length field of EN 50221 section 7: one octet below 128, or 0x81 and one, or 0x82 and two. */
  function Length(m: seq<byte>): Option<(nat, nat)> {
    if |m| >= 2 && m[1] < 0x80 then Some((2, m[1]))
    else if |m| >= 3 && m[1] == 0x81 && m[2] >= 0x80 then Some((3, m[2]))
    else if |m| >= 4 && m[1] == 0x82 && m[2] > 0 then Some((4, Two(m[2], m[3])))
    else None
  }

  /** What a T_DATA_LAST TPDU carries: the octets behind the connection, up to the end of the message. */
  predicate Carries(m: seq<byte>, c: byte, w: seq<byte>) {
    && Length(m).Some?
    && var (at, n) := Length(m).value;
    at < |m| == at + n && m[0] == 0xA0 && m[at] == c && m[at + 1..] == w
  }

  lemma DataTpduCarries(c: byte, w: seq<byte>)
    requires |w| < 0xFFFF
    ensures Carries(DataTpdu(c, w), c, w)
  {
    var m, n := DataTpdu(c, w), |w| + 1;
    if n < 0x80 {
      assert m == [0xA0, n] + [c] + w;
    } else if n < 0x100 {
      assert m == [0xA0, 0x81, n] + [c] + w;
    } else {
      assert m == [0xA0, 0x82, High(n), Low(n)] + [c] + w;
      NumberMeans(n);
    }
  }

  /** One message more on one connection, and nothing else: a T_DATA_LAST TPDU with an SPDU. */
  ghost predicate Sends(before: seq<Slot>, after: seq<Slot>, s: byte, c: byte, spdu: Spdu) {
    && ConnExists(before, s, c) && |after| == |before| && |after[s].conns| == |before[s].conns|
    && var conn, queue := before[s].conns[c], after[s].conns[c].queue;
    && |queue| == |conn.queue| + 1
    && var m := queue[|conn.queue|];
    && (exists w :: Carries(m, c, w) && Read(w) == Some(spdu))
    && after == WithConn(before, s, c, conn.(queue := conn.queue + [m], hist := conn.hist + [Queued(m)]))
  }

  lemma TransmitSends(st: Stack, s: byte, c: byte, w: seq<byte>, spdu: Spdu)
    requires Sized(st.slots) && IsActive(st.slots, s, c) && |w| < 0xFFFF && Read(w) == Some(spdu)
    ensures var (after, ok) := Transmit(st, s, c, w);
      ok && after.sessions == st.sessions && Sends(st.slots, after.slots, s, c, spdu)
  {
    hide Read;
    hide DataTpdu;
    hide Carries;
    DataTpduCarries(c, w);
  }

  lemma TransmitFails(st: Stack, s: byte, c: byte, w: seq<byte>)
    requires Sized(st.slots) && !IsActive(st.slots, s, c)
    ensures Transmit(st, s, c, w) == (st, false)
  {
  }

  lemma NumberMeans(n: nat)
    ensures Two(High(n), Low(n)) == n % 0x1_0000
  {
    WordOfHighLow(n);
  }

  lemma ResourceMeans(r: nat)
    ensures var w := Resource(r); |w| == 4 && Four(w[0], w[1], w[2], w[3]) == r % 0x1_0000_0000
  {
    var a, b := r / 0x100_0000 % 0x100, r / 0x1_0000 % 0x100;
    assert Two(a, b) == r / 0x1_0000 % 0x1_0000 by { assert r / 0x100_0000 == r / 0x1_0000 / 0x100; }
    NumberMeans(r);
    assert r % 0x1_0000_0000 == r / 0x1_0000 % 0x1_0000 * 0x1_0000 + r % 0x1_0000;
  }

  predicate OneChanged(before: seq<S.Session>, after: seq<S.Session>, n: nat) {
    n < |before| == |after| && after == before[n := after[n]]
  }

  // ---------------------------------------------------------------- open requests

  lemma OpenResponseReads(status: int, r: nat, n: int)
    requires n >= -1
    ensures var w := CamStack.OpenResponse(status, r, n);
      |w| == 9 && Read(w) == Some(OpenResponse(status % 0x100, r % 0x1_0000_0000, n % 0x1_0000))
  {
    ResourceMeans(r);
    hide Resource;
    if n >= 0 { NumberMeans(n); }
    hide High;
    hide Low;
  }

  predicate IsFirstIdle(ss: seq<S.Session>, n: nat) {
    1 <= n < |ss| && ss[n].state == S.Idle && forall i :: 1 <= i < n ==> ss[i].state != S.Idle
  }

  predicate NoneIdle(ss: seq<S.Session>) { forall i :: 1 <= i < |ss| ==> ss[i].state != S.Idle }

  /** The status octets of EN 50221 table 7: the resource does not exist, has a lower version, or is
      unavailable. */
  function Refusal(answer: int): byte {
    if answer == -1 then 0xF0 else if answer == -2 then 0xF2 else if answer == -3 then 0xF1 else answer % 0x100
  }

  /** What the application's session callback makes of a session: accepted, busy, or nobody there. */
  function Verdict(busy: Option<bool>): byte { if busy == Some(false) then 0x00 else if busy == Some(true) then 0xF3 else 0xF1 }

  /** The answer to an open request when no session is taken. */
  ghost predicate Refused(st: Stack, after: Stack, s: byte, c: byte, status: byte, resource: nat) {
    after.sessions == st.sessions && Sends(st.slots, after.slots, s, c, OpenResponse(status, resource % 0x1_0000_0000, 0xFFFF))
  }

  /** The answer when session `n` is taken, and what becomes of it: open exactly with status 0. */
  ghost predicate Taken(st: Stack, after: Stack, s: byte, c: byte, status: byte, found: Lookup, n: nat) {
    && OneChanged(st.sessions, after.sessions, n)
    && Sends(st.slots, after.slots, s, c, OpenResponse(status, found.resource % 0x1_0000_0000, n % 0x1_0000))
    && after.sessions[n].binding == S.Binding(found.resource, s, c, found.callback)
    && after.sessions[n].state == if status == 0x00 then S.Active else S.Idle
  }

  lemma RefusedByStatus(st: Stack, s: byte, c: byte, status: int, r: nat)
    requires Sized(st.slots) && IsActive(st.slots, s, c)
    ensures Refused(st, Transmit(st, s, c, CamStack.OpenResponse(status, r, -1)).0, s, c, status % 0x100, r)
  {
    hide CamStack.OpenResponse;
    hide Transmit;
    hide Sends;
    OpenResponseReads(status, r, -1);
    TransmitSends(st, s, c, CamStack.OpenResponse(status, r, -1), OpenResponse(status % 0x100, r % 0x1_0000_0000, 0xFFFF));
  }

  lemma TakenByAnswer(st: Stack, n: nat, s: byte, c: byte, found: Lookup, answer: byte)
    requires Sized(st.slots) && IsActive(st.slots, s, c) && n < |st.sessions|
    ensures Taken(st, Admit(st, n, S.Binding(found.resource, s, c, found.callback), answer), s, c, answer, found, n)
  {
    hide CamStack.OpenResponse;
    hide Transmit;
    hide Sends;
    hide Next;
    hide S.Seen;
    var b := S.Binding(found.resource, s, c, found.callback);
    var bound := Put(st, n, S.Bind(st.sessions[n], b));
    OpenResponseReads(answer, found.resource, n);
    TransmitSends(bound, s, c, CamStack.OpenResponse(answer, found.resource, n), OpenResponse(answer, found.resource % 0x1_0000_0000, n % 0x1_0000));
  }

  lemma RequestedMeans(body: seq<byte>)
    requires |body| >= 5
    ensures Requested(body) == Four(body[1], body[2], body[3], body[4])
  {
  }

  lemma OpenReaches(st: Stack, s: byte, c: byte, w: seq<byte>, app: App)
    requires Sized(st.slots) && w != [] && w[0] == 0x91
    ensures React(st, Data(s, c, w), app) == OnOpenRequest(st, w[1..], s, c, app)
  {
    hide OnOpenRequest;
  }

  /** Without a lookup callback, or if it finds nothing, or if no session is idle: a refusal. */
  lemma OpenRequestRefused(st: Stack, s: byte, c: byte, w: seq<byte>, app: App)
    requires Sized(st.slots) && IsActive(st.slots, s, c) && |w| >= 6 && w[0] == 0x91 && w[1] == 4
    ensures var after := React(st, Data(s, c, w), app);
      && (app.lookup.None? ==> Refused(st, after, s, c, 0xF0, 0))
      && (app.lookup.Some? ==>
        var found := app.lookup.value(s, Four(w[2], w[3], w[4], w[5]));
        && (found.status != 0 ==> Refused(st, after, s, c, Refusal(found.status), found.resource))
        && (found.status == 0 && NoneIdle(st.sessions) ==> Refused(st, after, s, c, 0xF0, found.resource)))
  {
    hide Transmit;
    hide Next;
    hide IsActive;
    hide Refused;
    hide Admit;
    hide CamStack.OpenResponse;
    hide Requested;
    hide Four;
    var body := w[1..];
    RequestedMeans(body);
    OpenReaches(st, s, c, w, app);
    var found := Found(app, s, body);
    var status, resource := LookupStatus(found), if found.Some? then found.value.resource else 0;
    RefusedByStatus(st, s, c, if status == S.S_STATUS_OPEN then S.S_STATUS_CLOSE_NO_RES else status, resource);
  }

  /** Otherwise the first idle session is taken and the session callback decides. */
  lemma OpenRequestTakes(st: Stack, s: byte, c: byte, w: seq<byte>, app: App, n: nat)
    requires Sized(st.slots) && IsActive(st.slots, s, c) && |w| >= 6 && w[0] == 0x91 && w[1] == 4
    requires app.lookup.Some? && app.lookup.value(s, Four(w[2], w[3], w[4], w[5])).status == 0 && IsFirstIdle(st.sessions, n)
    ensures Taken(st, React(st, Data(s, c, w), app), s, c, Verdict(app.busy), app.lookup.value(s, Four(w[2], w[3], w[4], w[5])), n)
  {
    hide Transmit;
    hide Next;
    hide IsActive;
    hide Taken;
    hide Admit;
    hide CamStack.OpenResponse;
    hide Requested;
    hide Four;
    var body := w[1..];
    RequestedMeans(body);
    OpenReaches(st, s, c, w, app);
    TakenByAnswer(st, n, s, c, Found(app, s, body).value, Verdict(app.busy));
  }

  /** Some session is open that was not. */
  predicate SomeOpened(before: seq<S.Session>, after: seq<S.Session>) {
    exists n :: 0 <= n < |before| && n < |after| && before[n].state != S.Active && after[n].state == S.Active
  }

  /** The octets of the answer, apart from their reading. */
  lemma AnswerOctets(before: seq<Slot>, after: seq<Slot>, s: byte, c: byte, status: byte, resource: nat, number: nat)
    requires Sends(before, after, s, c, OpenResponse(status, resource, number))
    ensures ConnExists(after, s, c)
    ensures var queue := after[s].conns[c].queue;
      && queue != [] && var m := queue[|queue| - 1];
      && |m| == 12 && m[..3] == [0xA0, 10, c] && m[3] == 0x92 && m[4] == 7 && m[5] == status
      && Four(m[6], m[7], m[8], m[9]) == resource && Two(m[10], m[11]) == number
  {
    hide Four;
    var m := after[s].conns[c].queue[|before[s].conns[c].queue|];
    var w :| Carries(m, c, w) && Read(w) == Some(OpenResponse(status, resource, number));
    var (at, n) := Length(m).value;
    assert |w| == 9 && n == 10;
    assert at == 2;
  }

  /** The status octet is 0 exactly if a session opens, or if the lookup callback answers with another
      multiple of 256, which its documentation does not provide for. */
  lemma OpenedExactly(st: Stack, s: byte, c: byte, w: seq<byte>, app: App)
    requires Sized(st.slots) && IsActive(st.slots, s, c) && |w| >= 6 && w[0] == 0x91 && w[1] == 4
    ensures var after := React(st, Data(s, c, w), app);
      && ConnExists(after.slots, s, c)
      && var queue := after.slots[s].conns[c].queue;
      && queue != [] && var m := queue[|queue| - 1];
      && |m| == 12 && m[3] == 0x92
      && var stray := app.lookup.Some? && var answer := app.lookup.value(s, Four(w[2], w[3], w[4], w[5])).status; answer != 0 && answer % 256 == 0;
      (m[5] == 0 <==> SomeOpened(st.sessions, after.sessions) || stray)
  {
    hide React;
    hide Sends;
    hide ConnExists;
    hide IsActive;
    hide Four;
    hide Two;
    var after := React(st, Data(s, c, w), app);
    OpenRequestRefused(st, s, c, w, app);
    var status: byte, resource: nat, number: nat := 0xF0, 0, 0xFFFF;
    if app.lookup.Some? {
      var found := app.lookup.value(s, Four(w[2], w[3], w[4], w[5]));
      resource := found.resource % 0x1_0000_0000;
      if found.status != 0 {
        status := Refusal(found.status);
      } else if FirstIdleSession(st.sessions, 1).Some? {
        var n := FirstIdleSession(st.sessions, 1).value;
        OpenRequestTakes(st, s, c, w, app, n);
        status, number := Verdict(app.busy), n % 0x1_0000;
      }
    }
    AnswerOctets(st.slots, after.slots, s, c, status, resource, number);
  }

  /** On a connection that is not active nothing is sent and no session opens. */
  lemma OpenRequestUnheard(st: Stack, s: byte, c: byte, w: seq<byte>, app: App)
    requires Sized(st.slots) && !IsActive(st.slots, s, c) && w != [] && w[0] == 0x91
    ensures var after := React(st, Data(s, c, w), app);
      after.slots == st.slots && |after.sessions| == |st.sessions| && !SomeOpened(st.sessions, after.sessions)
  {
    hide Transmit;
    hide Next;
    hide CamStack.OpenResponse;
    hide S.Seen;
    OpenReaches(st, s, c, w, app);
    forall x: Stack, o: seq<byte> | x.slots == st.slots ensures Transmit(x, s, c, o) == (x, false) { TransmitFails(x, s, c, o); }
  }

  // ---------------------------------------------------------------- the other requests of a module

  /** A session in use belongs to a connection. */
  predicate Owns(st: Stack, n: nat, s: byte, c: byte) {
    n < |st.sessions| && st.sessions[n].binding.slot == s && st.sessions[n].binding.conn == c
  }

  /** A close request ends an open or closing session of that connection, with status 0; anything else is
      answered F0 and changes no session. */
  lemma CloseRequestAnswered(st: Stack, s: byte, c: byte, high: byte, low: byte, tail: seq<byte>, app: App)
    requires Sized(st.slots) && IsActive(st.slots, s, c)
    ensures var n, after := Two(high, low), React(st, Data(s, c, [0x95, 2, high, low] + tail), app);
      if Owns(st, n, s, c) && (st.sessions[n].state == S.Active || st.sessions[n].state == S.InDeletion) then
        && OneChanged(st.sessions, after.sessions, n) && after.sessions[n].state == S.Idle
        && Sends(st.slots, after.slots, s, c, CloseResponse(0x00, n))
      else after.sessions == st.sessions && Sends(st.slots, after.slots, s, c, CloseResponse(0xF0, n))
  {
    hide Transmit;
    hide Next;
    hide IsActive;
    hide Sends;
    hide S.Seen;
    var n, w := Two(high, low), [0x95, 2, high, low] + tail;
    assert w[1..] == [2, high, low] + tail;
    NumberMeans(n);
    hide High;
    hide Low;
    forall x: Stack, code: byte | x.slots == st.slots
      ensures Sends(st.slots, Transmit(x, s, c, [0x96, 3, code, High(n), Low(n)]).0.slots, s, c, CloseResponse(code, n))
    {
      TransmitSends(x, s, c, [0x96, 3, code, High(n), Low(n)], CloseResponse(code, n));
    }
  }

  /** A create response opens a session that is being created on that connection, with status 0, and ends it
      with any other. The number is read one octet before its place. */
  lemma CreateResponseObeyed(st: Stack, s: byte, c: byte, status: byte, skipped: seq<byte>, high: byte, low: byte, tail: seq<byte>, app: App)
    requires Sized(st.slots) && |skipped| == 3 && |tail| >= 1
    ensures var n, after := Two(high, low), React(st, Data(s, c, [0x94, 7, status] + skipped + [high, low] + tail), app);
      && after.slots == st.slots
      && if Owns(st, n, s, c) && st.sessions[n].state == S.InCreation then
           && OneChanged(st.sessions, after.sessions, n)
           && after.sessions[n].state == if status == 0x00 then S.Active else S.Idle
         else after.sessions == st.sessions
  {
    hide Transmit;
    hide Next;
    hide S.Seen;
    var w := [0x94, 7, status] + skipped + [high, low] + tail;
    assert w[1..] == [7, status] + skipped + [high, low] + tail;
  }

  /** A close response ends a session that is being closed on that connection, whatever its status. */
  lemma CloseResponseObeyed(st: Stack, s: byte, c: byte, status: byte, high: byte, low: byte, tail: seq<byte>, app: App)
    requires Sized(st.slots) && |tail| >= 1
    ensures var n, after := Two(high, low), React(st, Data(s, c, [0x96, 4, status, high, low] + tail), app);
      && after.slots == st.slots
      && if Owns(st, n, s, c) && st.sessions[n].state == S.InDeletion then
           && OneChanged(st.sessions, after.sessions, n) && after.sessions[n].state == S.Idle
         else after.sessions == st.sessions
  {
    hide Transmit;
    hide Next;
    hide S.Seen;
    var w := [0x96, 4, status, high, low] + tail;
    assert w[1..] == [4, status, high, low] + tail;
  }

  /** A package reaches nobody but an open session of that connection. */
  lemma PackageObeyed(st: Stack, s: byte, c: byte, high: byte, low: byte, body: seq<byte>, app: App)
    requires Sized(st.slots)
    ensures var n, after := Two(high, low), React(st, Data(s, c, [0x90, 2, high, low] + body), app);
      && after.slots == st.slots
      && if Owns(st, n, s, c) && st.sessions[n].state == S.Active then
           after.sessions == st.sessions[n := S.Deliver(st.sessions[n], s, c, SplitApdus(body))]
         else after.sessions == st.sessions
  {
    hide Transmit;
    hide Next;
    hide S.Seen;
    hide S.Deliver;
    hide SplitApdus;
    var w := [0x90, 2, high, low] + body;
    assert w[1..] == [2, high, low] + body && w[1..][3..] == body;
  }

  /** SPDUs too short, with another length octet, or with another tag change nothing. */
  lemma MalformedIgnored(st: Stack, s: byte, c: byte, w: seq<byte>, app: App)
    requires Sized(st.slots)
    requires || |w| < 4
             || (w[0] == 0x91 && (|w| < 6 || w[1] != 4)) || (w[0] == 0x94 && (|w| < 9 || w[1] != 7)) || (w[0] == 0x96 && (|w| < 6 || w[1] != 4))
             || ((w[0] == 0x95 || w[0] == 0x90) && w[1] != 2)
             || (w[0] != 0x90 && w[0] != 0x91 && w[0] != 0x94 && w[0] != 0x95 && w[0] != 0x96)
    ensures React(st, Data(s, c, w), app) == st
  {
    hide Transmit;
    hide Next;
    hide S.Seen;
    hide SplitApdus;
  }

  /** The loops that close sessions: those in use on the connection's number, or on the slot, end; others stay. */
  lemma ClosesEnd(st: Stack, s: byte, c: byte, app: App)
    requires Sized(st.slots)
    ensures var byConn, bySlot := React(st, ConnectionClose(s, c), app), React(st, SlotClose(s), app);
      && byConn.slots == bySlot.slots == st.slots && |byConn.sessions| == |bySlot.sessions| == |st.sessions|
      && forall n :: 0 <= n < |st.sessions| ==>
        var was, b := st.sessions[n], st.sessions[n].binding;
        && (if was.state != S.Idle && b.conn == c then byConn.sessions[n].state == S.Idle else byConn.sessions[n] == was)
        && (if was.state != S.Idle && b.slot == s then bySlot.sessions[n].state == S.Idle else bySlot.sessions[n] == was)
  {
    hide S.Seen;
  }

  /** en50221_sl_create: every session idle. */
  lemma NewStackMeans(maxSlots: byte, maxConns: byte, maxSessions: nat)
    ensures var st := NewStack(maxSlots, maxConns, maxSessions);
      && st.slots == Created(maxSlots, maxConns) && |st.sessions| == maxSessions
      && forall n :: 0 <= n < |st.sessions| ==> st.sessions[n] == S.Session(S.Idle, S.Binding(0, 0, 0, 0), [])
  {
  }

  // ---------------------------------------------------------------- what the host sends

  /** en50221_sl_create_session on an active connection: the first idle session and its request. */
  lemma CreateSends(st: Stack, b: S.Binding, n: nat)
    requires Sized(st.slots) && IsActive(st.slots, b.slot, b.conn) && IsFirstIdle(st.sessions, n)
    ensures var (after, number) := DoCreate(st, b);
      && number == n && OneChanged(st.sessions, after.sessions, n)
      && after.sessions[n].state == S.InCreation && after.sessions[n].binding == b
      && Sends(st.slots, after.slots, b.slot, b.conn, CreateRequest(b.resource % 0x1_0000_0000, n % 0x1_0000))
  {
    hide Transmit;
    hide Next;
    hide IsActive;
    hide Sends;
    hide S.Seen;
    ResourceMeans(b.resource);
    NumberMeans(n);
    hide Resource;
    hide High;
    hide Low;
    var bound := Put(st, n, S.Bind(st.sessions[n], b));
    var w := [0x93, 6] + Resource(b.resource) + [High(n), Low(n)];
    TransmitSends(bound, b.slot, b.conn, w, CreateRequest(b.resource % 0x1_0000_0000, n % 0x1_0000));
  }

  predicate SameInUse(before: seq<S.Session>, after: seq<S.Session>) {
    |after| == |before| && forall i :: 0 <= i < |before| ==> after[i] == before[i] || after[i].state == before[i].state == S.Idle
  }

  /** en50221_sl_create_session fails, with nothing sent and no session in use more than before, exactly if
      no session is idle or the connection is not active. */
  lemma CreateFails(st: Stack, b: S.Binding)
    requires Sized(st.slots)
    ensures var (after, number) := DoCreate(st, b);
      && (number == -1 <==> NoneIdle(st.sessions) || !IsActive(st.slots, b.slot, b.conn))
      && (number == -1 ==> after.slots == st.slots && SameInUse(st.sessions, after.sessions))
  {
    hide Transmit;
    hide Next;
    hide Resource;
    hide S.Seen;
    hide Sends;
    var free := FirstIdleSession(st.sessions, 1);
    if free.Some? {
      var n := free.value;
      if IsActive(st.slots, b.slot, b.conn) {
        CreateSends(st, b, n);
      } else {
        TransmitFails(Put(st, n, S.Bind(st.sessions[n], b)), b.slot, b.conn, [0x93, 6] + Resource(b.resource) + [High(n), Low(n)]);
      }
    }
  }

  /** en50221_sl_destroy_session on an open or closing session whose connection is active. */
  lemma DestroySends(st: Stack, n: u16)
    requires Sized(st.slots) && n < |st.sessions| && (st.sessions[n].state == S.Active || st.sessions[n].state == S.InDeletion)
    requires IsActive(st.slots, st.sessions[n].binding.slot, st.sessions[n].binding.conn)
    ensures var (after, result) := DoDestroy(st, n);
      && result == 0 && OneChanged(st.sessions, after.sessions, n)
      && after.sessions[n].state == S.InDeletion && after.sessions[n].binding == st.sessions[n].binding
      && Sends(st.slots, after.slots, st.sessions[n].binding.slot, st.sessions[n].binding.conn, CloseRequest(n))
  {
    hide Transmit;
    hide Next;
    hide IsActive;
    hide Sends;
    hide S.Seen;
    NumberMeans(n);
    hide High;
    hide Low;
    var b := st.sessions[n].binding;
    TransmitSends(Put(st, n, S.Close(st.sessions[n])), b.slot, b.conn, [0x95, 2, High(n), Low(n)], CloseRequest(n));
  }

  /** It fails exactly if the session is in another state or its connection is not active; in the second
      case the session ends, in the first nothing changes. */
  lemma DestroyFails(st: Stack, n: u16)
    requires Sized(st.slots)
    ensures var (after, result) := DoDestroy(st, n);
      var closable := n < |st.sessions| && (st.sessions[n].state == S.Active || st.sessions[n].state == S.InDeletion);
      && (result == 0 <==> closable && IsActive(st.slots, st.sessions[n].binding.slot, st.sessions[n].binding.conn))
      && (result == 0 || result == -1) && (!closable ==> after == st)
      && (closable && result == -1 ==> after.slots == st.slots && OneChanged(st.sessions, after.sessions, n) && after.sessions[n].state == S.Idle)
  {
    hide Transmit;
    hide Next;
    hide S.Seen;
    hide Sends;
    if n < |st.sessions| && Closable(st.sessions[n]) {
      var b := st.sessions[n].binding;
      if IsActive(st.slots, b.slot, b.conn) { DestroySends(st, n); }
      else { TransmitFails(Put(st, n, S.Close(st.sessions[n])), b.slot, b.conn, [0x95, 2, High(n), Low(n)]); }
    }
  }

  /** en50221_sl_send_data: a session package on the session's connection, and no session changes. */
  lemma DataSends(st: Stack, n: u16, data: seq<byte>)
    requires Sized(st.slots) && |data| <= 0xFFFA
    ensures var (after, result) := DoSend(st, n, data);
      && after.sessions == st.sessions
      && if n < |st.sessions| && st.sessions[n].state == S.Active && IsActive(st.slots, st.sessions[n].binding.slot, st.sessions[n].binding.conn) then
           result == 0 && Sends(st.slots, after.slots, st.sessions[n].binding.slot, st.sessions[n].binding.conn, SessionNumber(n, data))
         else result == -1 && after.slots == st.slots
  {
    hide Transmit;
    hide Next;
    hide Sends;
    if n < |st.sessions| && st.sessions[n].state == S.Active {
      var b, w := st.sessions[n].binding, Package(n, data);
      NumberMeans(n);
      assert w[..4] == [0x90, 2, High(n), Low(n)] && w[4..] == data;
      hide High;
      hide Low;
      if IsActive(st.slots, b.slot, b.conn) { TransmitSends(st, b.slot, b.conn, w, SessionNumber(n, data)); }
      else { TransmitFails(st, b.slot, b.conn, w); }
    }
  }
}
