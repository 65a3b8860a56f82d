/** The session layer of lib/libdvben50221/en50221_session.c on top of the transport layer: host
    calls, SPDU handlers and the reaction to transport callbacks, as functions on the pair of both
    layers. Callbacks of the application answer, but do not call back into the stack. */
module CamStack {
  import opened Bytes
  import opened Asn1
  import opened Transport
  import S = Session

  datatype Stack = Stack(slots: seq<Slot>, sessions: seq<S.Session>)

  /** What the lookup callback answers. */
  datatype Lookup = Lookup(status: int, resource: nat, callback: nat)

  /** The application: its lookup callback, which is told the slot and the resource asked for, and what its
      session callback says to CAMCONNECTING.
      None stands for a callback that is not registered. */
  datatype App = App(lookup: Option<(byte, nat) -> Lookup>, busy: Option<bool>)

  datatype StackStep =
    | OnLink(step: Step, app: App)
    | CreateSession(slot: byte, conn: byte, resource: nat, callback: nat)
    | DestroySession(number: u16)
    | SendApdus(number: u16, data: seq<byte>)

  // ---------------------------------------------------------------- host calls

  /** en50221_tl_send_data and en50221_tl_send_datav, as the session layer uses them. */
  function Transmit(st: Stack, s: byte, c: byte, data: seq<byte>): (r: (Stack, bool))
    requires Sized(st.slots)
    ensures Sized(r.0.slots) && r.0.sessions == st.sessions
    ensures |r.0.slots| == |st.slots| && forall k :: 0 <= k < |st.slots| ==> r.0.slots[k].handle == st.slots[k].handle
  {
    var o := Next(st.slots, SendData(s, c, data));
    (st.(slots := o.slots), o.status.Ok?)
  }

  function Put(st: Stack, i: nat, s: S.Session): Stack
    requires i < |st.sessions|
  {
    st.(sessions := st.sessions[i := s])
  }

  /** The search loop of en50221_sl_alloc_new_session: session 0 is never taken. */
  function FirstIdleSession(ss: seq<S.Session>, from: nat): (r: Option<nat>)
    ensures r.Some? ==> from <= r.value < |ss| && ss[r.value].state == S.Idle
    ensures r.Some? ==> forall i :: from <= i < r.value ==> ss[i].state != S.Idle
    ensures r.None? ==> forall i :: from <= i < |ss| ==> ss[i].state != S.Idle
    decreases |ss| - from
  {
    if from >= |ss| then None
    else if ss[from].state == S.Idle then Some(from)
    else FirstIdleSession(ss, from + 1)
  }

  function Resource(r: nat): seq<byte> { [r / 0x100_0000 % 0x100, r / 0x1_0000 % 0x100, High(r), Low(r)] }

  /** en50221_sl_create_session */
  function DoCreate(st: Stack, b: S.Binding): (r: (Stack, int))
    requires Sized(st.slots)
    ensures Sized(r.0.slots)
  {
    var free := FirstIdleSession(st.sessions, 1);
    if free.None? then (st, -1) else
      var n: int := free.value;
      var st1 := Put(st, n, S.Bind(st.sessions[n], b));
      var (st2, ok) := Transmit(st1, b.slot, b.conn, [S.ST_CREATE_SESSION, 6] + Resource(b.resource) + [High(n), Low(n)]);
      if ok then (st2, n) else (Put(st2, n, S.End(st2.sessions[n])), -1)
  }

  predicate Closable(s: S.Session) { s.state == S.Active || s.state == S.InDeletion }

  /** en50221_sl_destroy_session */
  function DoDestroy(st: Stack, n: u16): (r: (Stack, int))
    requires Sized(st.slots)
    ensures Sized(r.0.slots)
  {
    if n >= |st.sessions| || !Closable(st.sessions[n]) then (st, -1) else
      var b := st.sessions[n].binding;
      var st1 := Put(st, n, S.Close(st.sessions[n]));
      var (st2, ok) := Transmit(st1, b.slot, b.conn, [S.ST_CLOSE_SESSION_REQ, 2, High(n), Low(n)]);
      if ok then (st2, 0) else (Put(st2, n, S.End(st2.sessions[n])), -1)
  }

  /** The SPDU that carries APDUs. */
  function Package(n: u16, data: seq<byte>): seq<byte> { [S.ST_SESSION_NUMBER, 2, High(n), Low(n)] + data }

  /** en50221_sl_send_data, and en50221_sl_send_datav with `data` as its joined vectors */
  function DoSend(st: Stack, n: u16, data: seq<byte>): (r: (Stack, int))
    requires Sized(st.slots)
    ensures Sized(r.0.slots) && r.0.sessions == st.sessions
  {
    if n >= |st.sessions| || st.sessions[n].state != S.Active then (st, -1) else
      var b := st.sessions[n].binding;
      var (st1, ok) := Transmit(st, b.slot, b.conn, Package(n, data));
      (st1, if ok then 0 else -1)
  }

  // ---------------------------------------------------------------- SPDU handlers

  /** The resource an open request asks for. */
  function Requested(data: seq<byte>): nat
    requires |data| >= 5
  {
    data[1] as int * 0x100_0000 + data[2] as int * 0x1_0000 + data[3] as int * 0x100 + data[4] as int
  }

  function Found(app: App, s: byte, data: seq<byte>): Option<Lookup>
    requires |data| >= 5
  {
    if app.lookup.None? then None else Some(app.lookup.value(s, Requested(data)))
  }

  /** The status the lookup callback leads to; other answers than 0 to -3 go through unchanged. */
  function LookupStatus(found: Option<Lookup>): int {
    if found.None? then S.S_STATUS_CLOSE_NO_RES
    else match found.value.status
      case 0 => S.S_STATUS_OPEN
      case -1 => S.S_STATUS_CLOSE_NO_RES
      case -2 => S.S_STATUS_CLOSE_RES_LOW_VERSION
      case -3 => S.S_STATUS_CLOSE_RES_UNAVAILABLE
      case other => other
  }

  /** hdr of handle_open_session_request; session number -1 is sent as 0xFFFF. */
  function OpenResponse(status: int, resource: nat, n: int): seq<byte> {
    [S.ST_OPEN_SESSION_RES, 7, status % 0x100] + Resource(resource) + (if n < 0 then [0xFF, 0xFF] else [High(n), Low(n)])
  }

  function OnOpenRequest(st: Stack, data: seq<byte>, s: byte, c: byte, app: App): (r: Stack)
    requires Sized(st.slots)
    ensures Sized(r.slots)
  {
    if |data| < 5 || data[0] != 4 then st else
      var found := Found(app, s, data);
      var status := LookupStatus(found);
      var resource := if found.Some? then found.value.resource else 0;
      var free := if status == S.S_STATUS_OPEN then FirstIdleSession(st.sessions, 1) else None;
      if free.None? then
        var refusal := if status == S.S_STATUS_OPEN then S.S_STATUS_CLOSE_NO_RES else status;
        Transmit(st, s, c, OpenResponse(refusal, resource, -1)).0
      else
        var n := free.value;
        var answer := if app.busy.None? then S.S_STATUS_CLOSE_RES_UNAVAILABLE
                      else if app.busy.value then S.S_STATUS_CLOSE_RES_BUSY else S.S_STATUS_OPEN;
        Admit(st, n, S.Binding(resource, s, c, found.value.callback), answer)
  }

  /** The allocated session is opened if the application accepts and the answer can be queued. */
  function Admit(st: Stack, n: nat, b: S.Binding, answer: int): (r: Stack)
    requires Sized(st.slots) && n < |st.sessions|
    ensures Sized(r.slots)
  {
    var st1 := Put(st, n, S.Bind(st.sessions[n], b));
    var (st2, ok) := Transmit(st1, b.slot, b.conn, OpenResponse(answer, b.resource, n));
    Put(st2, n, if ok && answer == S.S_STATUS_OPEN then S.Open(st2.sessions[n]) else S.End(st2.sessions[n]))
  }

  predicate From(sess: S.Session, s: byte, c: byte) { sess.binding.slot == s && sess.binding.conn == c }

  function OnCloseRequest(st: Stack, data: seq<byte>, s: byte, c: byte): (r: Stack)
    requires Sized(st.slots)
    ensures Sized(r.slots)
  {
    if |data| < 3 || data[0] != 2 then st else
      var n := Word(data[1], data[2]);
      var ok := n < |st.sessions| && From(st.sessions[n], s, c) && Closable(st.sessions[n]);
      var st1 := if ok then Put(st, n, S.End(st.sessions[n])) else st;
      Transmit(st1, s, c, [S.ST_CLOSE_SESSION_RES, 3, if ok then 0x00 else 0xF0, High(n), Low(n)]).0
  }

  /** The session number is read at offset 5, next to the place where the standard puts it. */
  function OnCreateResponse(st: Stack, data: seq<byte>, s: byte, c: byte): Stack {
    if |data| < 8 || data[0] != 7 then st else
      var n := Word(data[5], data[6]);
      if n < |st.sessions| && From(st.sessions[n], s, c) && st.sessions[n].state == S.InCreation then
        Put(st, n, if data[1] == S.S_STATUS_OPEN then S.Open(st.sessions[n]) else S.End(st.sessions[n]))
      else st
  }

  function OnCloseResponse(st: Stack, data: seq<byte>, s: byte, c: byte): Stack {
    if |data| < 5 || data[0] != 4 then st else
      var n := Word(data[2], data[3]);
      if n < |st.sessions| && From(st.sessions[n], s, c) && st.sessions[n].state == S.InDeletion then
        Put(st, n, S.End(st.sessions[n]))
      else st
  }

  /** The splitting loop of handle_session_package: the APDUs up to the first malformed one. */
  function SplitApdus(data: seq<byte>): seq<seq<byte>>
    decreases |data|
  {
    if |data| < 3 || DecodeLength(data[3..]).None? then [] else
      var f := DecodeLength(data[3..]).value;
      var n := 3 + f.size + f.length;
      if n > |data| then [] else [data[..n]] + SplitApdus(data[n..])
  }

  function OnPackage(st: Stack, data: seq<byte>, s: byte, c: byte): Stack {
    if |data| < 3 || data[0] != 2 then st else
      var n := Word(data[1], data[2]);
      if n < |st.sessions| && From(st.sessions[n], s, c) && st.sessions[n].state == S.Active then
        Put(st, n, S.Deliver(st.sessions[n], s, c, SplitApdus(data[3..])))
      else st
  }

  /** The SPDU dispatch of en50221_sl_transport_callback. */
  function OnData(st: Stack, data: seq<byte>, s: byte, c: byte, app: App): (r: Stack)
    requires Sized(st.slots)
    ensures Sized(r.slots)
  {
    if data == [] then st else
      var tag := data[0];
      if tag == S.ST_OPEN_SESSION_REQ then OnOpenRequest(st, data[1..], s, c, app)
      else if tag == S.ST_CLOSE_SESSION_REQ then OnCloseRequest(st, data[1..], s, c)
      else if tag == S.ST_SESSION_NUMBER then OnPackage(st, data[1..], s, c)
      else if tag == S.ST_CREATE_SESSION_RES then OnCreateResponse(st, data[1..], s, c)
      else if tag == S.ST_CLOSE_SESSION_RES then OnCloseResponse(st, data[1..], s, c)
      else st
  }

  /** The loop of CONNECTIONCLOSE: matches the connection id only, on whatever slot. */
  function EndConn(ss: seq<S.Session>, c: byte): (r: seq<S.Session>)
    ensures |r| == |ss|
    ensures forall i :: 0 <= i < |ss| ==> r[i] == if ss[i].state != S.Idle && ss[i].binding.conn == c then S.End(ss[i]) else ss[i]
  {
    seq(|ss|, i requires 0 <= i < |ss| => if ss[i].state != S.Idle && ss[i].binding.conn == c then S.End(ss[i]) else ss[i])
  }

  /** The loop of SLOTCLOSE. */
  function EndSlot(ss: seq<S.Session>, s: byte): (r: seq<S.Session>)
    ensures |r| == |ss|
    ensures forall i :: 0 <= i < |ss| ==> r[i] == if ss[i].state != S.Idle && ss[i].binding.slot == s then S.End(ss[i]) else ss[i]
  {
    seq(|ss|, i requires 0 <= i < |ss| => if ss[i].state != S.Idle && ss[i].binding.slot == s then S.End(ss[i]) else ss[i])
  }

  /** en50221_sl_transport_callback */
  function React(st: Stack, cb: Callback, app: App): (r: Stack)
    requires Sized(st.slots)
    ensures Sized(r.slots)
  {
    match cb
    case Data(s, c, data) => OnData(st, data, s, c, app)
    case ConnectionClose(_, c) => st.(sessions := EndConn(st.sessions, c))
    case SlotClose(s) => st.(sessions := EndSlot(st.sessions, s))
    case _ => st
  }

  function StackNext(st: Stack, step: StackStep): (r: Stack)
    requires Sized(st.slots)
    ensures Sized(r.slots)
  {
    match step
    case OnLink(t, app) =>
      var o := Next(st.slots, t);
      React(st.(slots := o.slots), o.callback, app)
    case CreateSession(s, c, resource, callback) => DoCreate(st, S.Binding(resource, s, c, callback)).0
    case DestroySession(n) => DoDestroy(st, n).0
    case SendApdus(n, data) => DoSend(st, n, data).0
  }

  function StackRun(st: Stack, steps: seq<StackStep>): (r: Stack)
    requires Sized(st.slots)
    ensures Sized(r.slots)
    decreases |steps|
  {
    if steps == [] then st else StackRun(StackNext(st, steps[0]), steps[1..])
  }

  // ---------------------------------------------------------------- one link read

  /** en50221_tl_process_data with the session layer as its callback: `links(k)` and `apps(k)` are
      the environment of the k-th TPDU. The flag is false on an error return. */
  function ProcessData(st: Stack, s: byte, data: seq<byte>, links: nat -> Link, apps: nat -> App, k: nat): (r: (Stack, bool))
    requires Sized(st.slots)
    ensures Sized(r.0.slots)
    decreases |data|
  {
    if data == [] then (st, true) else
      var p := ParseTpdu(data);
      if p.None? then (st, false) else
      var (t, size) := p.value;
      var step := Receive(s, t, links(k));
      var next := StackNext(st, OnLink(step, apps(k)));
      if Next(st.slots, step).status.Failed? then (next, false)
      else ProcessData(next, s, data[size..], links, apps, k + 1)
  }

  /** The state en50221_tl_create and en50221_sl_create leave. */
  function NewStack(maxSlots: byte, maxConns: byte, maxSessions: nat): (st: Stack)
    ensures Sized(st.slots)
  {
    Stack(Created(maxSlots, maxConns),
          seq(maxSessions, _ => S.Session(S.Idle, S.Binding(0, 0, 0, 0), [])))
  }
}
