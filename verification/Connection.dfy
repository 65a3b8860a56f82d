/** One transport connection of lib/libdvben50221/en50221_transport.c: its state machine and the
    history it leaves behind. Times are milliseconds; a time of 0 is "not set". */
module Connection {
  import opened Bytes

  const T_SB: byte := 0x80
  const T_RCV: byte := 0x81
  const T_CREATE_T_C: byte := 0x82
  const T_C_T_C_REPLY: byte := 0x83
  const T_DELETE_T_C: byte := 0x84
  const T_D_T_C_REPLY: byte := 0x85
  const T_REQUEST_T_C: byte := 0x86
  const T_NEW_T_C: byte := 0x87
  const T_T_C_ERROR: byte := 0x77
  const T_DATA_LAST: byte := 0xA0
  const T_DATA_MORE: byte := 0xA1

  /** A TPDU ready for the link: never empty. */
  type Message = m: seq<byte> | |m| >= 1 witness [0]

  datatype ConnState = Idle | Active | ActiveDeleteQueued | InCreation | InDeletion

  /** What can happen on a connection, as an observer of the link and of the callbacks sees it. */
  datatype Event =
    | Allocated                     // alloc_new_tc picked this connection
    | Queued(msg: Message)          // appended to the send queue
    | Sent(msg: Message)            // taken from the send queue and written to the link
    | Lost(msg: Message)            // taken from the send queue, but the link write failed
    | Wrote(msg: Message)           // written to the link without queueing
    | Answered(tag: byte)           // a TPDU of the module cleared tx_time
    | Fragment(body: seq<byte>)     // T_DATA_MORE accepted
    | Final(body: seq<byte>)        // T_DATA_LAST accepted
    | Delivered(data: seq<byte>)    // handed to the data callback
    | Closed                        // T_DELETE_T_C of the module accepted
    | Flushed                       // the slot was destroyed

  /** struct en50221_connection; `hist` is a history variable. */
  datatype Conn = Conn(
    state: ConnState,
    txTime: nat,
    lastPoll: nat,
    chain: Option<seq<byte>>,
    queue: seq<Message>,
    hist: seq<Event>)

  const Fresh: Conn := Conn(Idle, 0, 0, None, [], [])

  datatype Error = CaWrite | Timeout | BadSlotId | BadConnectionId | BadState | BadCamData | OutOfConnections | OutOfSlots

  datatype Status = Ok(value: int) | Failed(error: Error)

  // ---------------------------------------------------------------- the observer

  /** What the history alone says about the connection. `queued` and `taken` count from the last
      flush; `groups` is the reassembly of the accepted data TPDUs, `delivered` what the callback
      got; `waiting` is "a write still has no answer"; `deleted` is "T_DELETE_T_C was written and
      the connection has not been allocated since"; `paced` and `quiet` judge the whole history. */
  datatype View = View(
    queued: seq<Message>,
    taken: seq<Message>,
    groups: seq<seq<byte>>,
    delivered: seq<seq<byte>>,
    pending: Option<seq<byte>>,
    waiting: bool,
    deleted: bool,
    paced: bool,
    quiet: bool)

  function Joined(pending: Option<seq<byte>>, body: seq<byte>): seq<byte> {
    if pending.Some? then pending.value + body else body
  }

  /** Data, poll and T_RCV TPDUs. */
  predicate IsTraffic(m: Message) { m[0] == T_DATA_LAST || m[0] == T_DATA_MORE || m[0] == T_RCV }

  predicate IsDelete(m: Message) { m[0] == T_DELETE_T_C }

  /** The writes that must wait for an answer: everything from the queue, and polls. */
  predicate IsPaced(e: Event) { e.Sent? || (e.Wrote? && e.msg[0] == T_DATA_LAST) }

  predicate StartsWait(e: Event) {
    IsPaced(e) || (e.Wrote? && (e.msg[0] == T_RCV || e.msg[0] == T_CREATE_T_C))
  }

  predicate EndsWait(e: Event) { e.Answered? || e.Flushed? }

  predicate IsTrafficWrite(e: Event) { (e.Sent? || e.Wrote?) && IsTraffic(e.msg) }

  predicate IsDeleteWrite(e: Event) { (e.Sent? || e.Wrote?) && IsDelete(e.msg) }

  function Observe(v: View, e: Event): View {
    View(
      if e.Flushed? then [] else if e.Queued? then v.queued + [e.msg] else v.queued,
      if e.Flushed? then [] else if e.Sent? || e.Lost? then v.taken + [e.msg] else v.taken,
      if e.Final? && |e.body| > 0 then v.groups + [Joined(v.pending, e.body)] else v.groups,
      if e.Delivered? then v.delivered + [e.data] else v.delivered,
      match e {
        case Fragment(body) => Some(Joined(v.pending, body))
        case Final(_) => None
        case Allocated => None
        case Closed => None
        case Flushed => None
        case _ => if IsDeleteWrite(e) then None else v.pending
      },
      if StartsWait(e) then true else if EndsWait(e) then false else v.waiting,
      if IsDeleteWrite(e) then true else if e.Allocated? then false else v.deleted,
      v.paced && !(v.waiting && IsPaced(e)),
      v.quiet && !(v.deleted && IsTrafficWrite(e)))
  }

  const Blank: View := View([], [], [], [], None, false, false, true, true)

  function Seen(hist: seq<Event>): View {
    if hist == [] then Blank else Observe(Seen(hist[..|hist| - 1]), hist[|hist| - 1])
  }

  /** A history without gaps: between two paced writes lies an answer of the module (or a flush). */
  lemma {:induction false} PacedMeans(h: seq<Event>, i: nat, j: nat)
    requires Seen(h).paced && i < j < |h| && IsPaced(h[i]) && IsPaced(h[j])
    ensures exists k :: i < k < j && EndsWait(h[k])
  {
    PacedPrefix(h, j + 1);
    assert h[..j + 1][..j] == h[..j];
    assert Seen(h[..j + 1]) == Observe(Seen(h[..j]), h[j]);
    hide Seen;
    if forall k :: i < k < j ==> !EndsWait(h[k]) {
      StillWaiting(h, i, j);
    }
  }

  lemma {:induction false} PacedPrefix(h: seq<Event>, n: nat)
    requires n <= |h|
    ensures Seen(h).paced ==> Seen(h[..n]).paced
    ensures Seen(h).quiet ==> Seen(h[..n]).quiet
    decreases |h|
  {
    if n == |h| {
      assert h[..n] == h;
    } else {
      PacedPrefix(h[..|h| - 1], n);
      assert h[..|h| - 1][..n] == h[..n];
    }
  }

  lemma {:induction false} StillWaiting(h: seq<Event>, i: nat, j: nat)
    requires i < j <= |h| && StartsWait(h[i]) && forall k :: i < k < j ==> !EndsWait(h[k])
    ensures Seen(h[..j]).waiting
    decreases j
  {
    assert h[..j][..j - 1] == h[..j - 1];
    if i < j - 1 { StillWaiting(h, i, j - 1); }
  }

  /** After T_DELETE_T_C was written no data, poll or T_RCV follows until a new allocation. */
  lemma {:induction false} QuietMeans(h: seq<Event>, i: nat, j: nat)
    requires Seen(h).quiet && i < j < |h| && IsDeleteWrite(h[i]) && IsTrafficWrite(h[j])
    ensures exists k :: i < k < j && h[k].Allocated?
  {
    PacedPrefix(h, j + 1);
    assert h[..j + 1][..j] == h[..j];
    if forall k :: i < k < j ==> !h[k].Allocated? {
      StillDeleted(h, i, j);
    }
  }

  lemma {:induction false} StillDeleted(h: seq<Event>, i: nat, j: nat)
    requires i < j <= |h| && IsDeleteWrite(h[i]) && forall k :: i < k < j ==> !h[k].Allocated?
    ensures Seen(h[..j]).deleted
    decreases j
  {
    assert h[..j][..j - 1] == h[..j - 1];
    if i < j - 1 { StillDeleted(h, i, j - 1); }
  }

  /** The messages of the events of one kind, in order. */
  function Messages(h: seq<Event>, kind: Event -> bool): seq<Message> {
    if h == [] then [] else
      var e := h[|h| - 1];
      Messages(h[..|h| - 1], kind)
      + if kind(e) && (e.Queued? || e.Sent? || e.Lost? || e.Wrote?) then [e.msg] else []
  }

  const IsQueued: Event -> bool := (e: Event) => e.Queued?
  const IsSent: Event -> bool := (e: Event) => e.Sent?

  lemma {:induction false} FifoMeans(h: seq<Event>)
    requires forall e :: e in h ==> !e.Lost? && !e.Flushed?
    ensures Seen(h).queued == Messages(h, IsQueued)
    ensures Seen(h).taken == Messages(h, IsSent)
  {
    if h != [] { FifoMeans(h[..|h| - 1]); }
  }

  // ---------------------------------------------------------------- the operations

  /** Appends an event to the history. */
  function Note(c: Conn, e: Event): (d: Conn)
    ensures Seen(d.hist) == Observe(Seen(c.hist), e)
    ensures d == c.(hist := d.hist) && d.hist == c.hist + [e]
  {
    assert (c.hist + [e])[..|c.hist|] == c.hist;
    c.(hist := c.hist + [e])
  }

  /** Events that leave the reassembly alone. */
  lemma NoteKeepsData(c: Conn, e: Event)
    requires !e.Delivered?
    ensures Seen(Note(c, e).hist).delivered == Seen(c.hist).delivered
  {
  }

  /** queue_message */
  function Enqueue(c: Conn, m: Message): Conn { Note(c.(queue := c.queue + [m]), Queued(m)) }

  /** The part of en50221_tl_alloc_new_tc that sets the chosen connection up. */
  function Allocate(c: Conn): Conn { Note(c.(state := InCreation, chain := None), Allocated) }

  function Answer(c: Conn, tag: byte): Conn { Note(c.(txTime := 0), Answered(tag)) }

  /** Destroying the slot resets everything. */
  function Flush(c: Conn): Conn { Note(c.(state := Idle, txTime := 0, lastPoll := 0, chain := None, queue := []), Flushed) }

  predicate TimeAfter(time: nat, delay: nat, now: nat) { now > time + delay }

  /** tl_poll, lines 431-473: send the oldest queued message unless a response is outstanding. */
  function SendQueued(c: Conn, now: nat, ok: bool): (Conn, Status) {
    if (c.state == InCreation || c.state == Active || c.state == ActiveDeleteQueued) && c.queue != [] && c.txTime == 0 then
      var msg := c.queue[0];
      var rest := c.(queue := c.queue[1..]);
      if !ok then (Note(rest, Lost(msg)), Failed(CaWrite))
      else if IsDelete(msg) then (Note(rest.(txTime := now, state := InDeletion, chain := None), Sent(msg)), Ok(0))
      else (Note(rest.(txTime := now), Sent(msg)), Ok(0))
    else (c, Ok(0))
  }

  /** The TPDU of en50221_tl_poll_tc. */
  function PollMessage(id: byte): Message { [T_DATA_LAST, 1, id] }

  /** tl_poll, lines 475-486 with en50221_tl_poll_tc: tx_time is set before the write is tried. */
  function PollIfDue(c: Conn, id: byte, delay: nat, now: nat, ok: bool): (Conn, Status) {
    if c.state == Active && c.txTime == 0 && TimeAfter(c.lastPoll, delay, now) then
      var d := c.(lastPoll := now, txTime := now);
      if ok then (Note(d, Wrote(PollMessage(id))), Ok(0)) else (d, Failed(CaWrite))
    else (c, Ok(0))
  }

  /** tl_poll, lines 488-503. tx_time and the send queue stay as they are. */
  function CheckTimeout(c: Conn, timeout: nat, now: nat): (Conn, Status) {
    if c.txTime != 0 && TimeAfter(c.txTime, timeout, now) then
      if c.state == InCreation || c.state == InDeletion then (c.(state := Idle), Ok(0))
      else if c.state == Active || c.state == ActiveDeleteQueued then (c, Failed(Timeout))
      else (c, Ok(0))
    else (c, Ok(0))
  }

  /** One turn of the connection loop of en50221_tl_poll. */
  function PollStep(c: Conn, id: byte, delay: nat, timeout: nat, now: nat, ok1: bool, ok2: bool): (Conn, Status) {
    if c.state == Idle then (c, Ok(0)) else
      var (c1, r1) := SendQueued(c, now, ok1);
      if r1.Failed? then (c1, r1) else
      var (c2, r2) := PollIfDue(c1, id, delay, now, ok2);
      if r2.Failed? then (c2, r2) else CheckTimeout(c2, timeout, now)
  }

  /** handle_data_more for an ACTIVE connection. */
  function AcceptMore(c: Conn, body: seq<byte>): Conn {
    Note(Answer(c, T_DATA_MORE).(chain := Some(Joined(c.chain, body))), Fragment(body))
  }

  /** handle_data_last for an ACTIVE connection: the callback is skipped when the last body is empty. */
  function AcceptLast(c: Conn, body: seq<byte>): Conn {
    var d := Note(Answer(c, T_DATA_LAST).(chain := None), Final(body));
    if |body| > 0 then Note(d, Delivered(Joined(c.chain, body))) else d
  }

  /** handle_sb for an ACTIVE connection and a body of one octet. */
  function AcceptSb(c: Conn, id: byte, flags: byte, now: nat, ok: bool): (Conn, Status) {
    if flags >= 0x80 then
      if !ok then (c, Failed(CaWrite)) else (Note(c.(txTime := now), Wrote([T_RCV, 1, id])), Ok(0))
    else (Answer(c, T_SB), Ok(0))
  }

  /** handle_delete_tc for an ACTIVE or IN_DELETION connection. The send queue and tx_time survive. */
  function AcceptDelete(c: Conn, id: byte, ok: bool): (Conn, Status) {
    var d := Note(c.(state := Idle, chain := None), Closed);
    if ok then (Note(d, Wrote([T_D_T_C_REPLY, 1, id])), Ok(0)) else (d, Failed(CaWrite))
  }

  /** en50221_tl_del_tc for an ACTIVE or IN_DELETION connection. */
  function QueueDelete(c: Conn, id: byte): Conn { Enqueue(c, [T_DELETE_T_C, 1, id]).(state := ActiveDeleteQueued) }

  // ---------------------------------------------------------------- the invariant

  /** A T_DELETE_T_C in the send queue is the last element, is the only one, and is there only in
      ACTIVE_DELETEQUEUED; IN_DELETION has an empty queue; a chain buffer exists only in the two
      active states. */
  predicate Handshake(c: Conn) {
    && (forall k :: 0 <= k < |c.queue| && IsDelete(c.queue[k]) ==> k == |c.queue| - 1 && c.state == ActiveDeleteQueued)
    && (c.state == InDeletion ==> c.queue == [])
    && (c.chain.Some? ==> c.state == Active || c.state == ActiveDeleteQueued)
  }

  /** The connection and its history tell the same story. */
  predicate Faithful(c: Conn) {
    var v := Seen(c.hist);
    && v.queued == v.taken + c.queue
    && v.delivered == v.groups
    && v.pending == c.chain
    && (v.waiting ==> c.txTime != 0)
    && v.paced && v.quiet
    && (v.deleted ==>
          || ((c.state == Idle || c.state == InDeletion) && c.queue == [])
          || (c.state == ActiveDeleteQueued && (c.queue == [] || (|c.queue| == 1 && IsDelete(c.queue[0])))))
  }

  predicate Good(c: Conn) { Handshake(c) && Faithful(c) }

  /** Writing a reply changes nothing but the history. */
  lemma ReplyGood(c: Conn, m: Message)
    requires Good(c) && !IsTraffic(m) && !IsDelete(m) && m[0] != T_CREATE_T_C
    ensures Good(Note(c, Wrote(m)))
  {
  }

  lemma AnswerGood(c: Conn, tag: byte)
    requires Good(c)
    ensures Good(Answer(c, tag))
  {
  }

  /** T_NEW_T_C on the connection that asked for a new one. */
  function Grant(c: Conn, id: byte, newId: byte): Conn {
    Answer(Note(c, Wrote([T_NEW_T_C, 2, id, newId])), T_REQUEST_T_C)
  }

  /** T_T_C_ERROR on the connection that asked for a new one. */
  function Refuse(c: Conn, id: byte): Conn {
    Answer(Note(c, Wrote([T_T_C_ERROR, 2, id, 1])), T_REQUEST_T_C)
  }

  lemma RequestReplyGood(c: Conn, id: byte, newId: byte)
    requires Good(c)
    ensures Good(Grant(c, id, newId)) && Good(Refuse(c, id))
  {
    var grant: Message := [T_NEW_T_C, 2, id, newId];
    var refuse: Message := [T_T_C_ERROR, 2, id, 1];
    ReplyGood(c, grant);
    AnswerGood(Note(c, Wrote(grant)), T_REQUEST_T_C);
    ReplyGood(c, refuse);
    AnswerGood(Note(c, Wrote(refuse)), T_REQUEST_T_C);
  }

  /** T_CREATE_T_C written at once, on a module's request. */
  function Create(c: Conn, id: byte, now: nat): Conn { Note(c.(txTime := now), Wrote([T_CREATE_T_C, 1, id])) }

  lemma CreateGood(c: Conn, id: byte, now: nat)
    requires Good(c) && now > 0
    ensures Good(Create(c, id, now))
  {
  }

  lemma FlushGood(c: Conn)
    ensures Good(c) ==> Good(Flush(c))
  {
  }

  lemma EnqueueGood(c: Conn, m: Message)
    requires Good(c) && !IsDelete(m) && (c.state == Active || c.state == InCreation)
    ensures Good(Enqueue(c, m))
  {
  }

  lemma AllocateGood(c: Conn)
    requires Good(c) && c.state == Idle
    ensures c.chain.None?
    ensures Good(Allocate(c)) && Allocate(c).state == InCreation
  {
  }

  lemma QueueDeleteGood(c: Conn, id: byte)
    requires Good(c) && (c.state == Active || c.state == InDeletion)
    ensures Good(QueueDelete(c, id))
  {
    var m: Message := [T_DELETE_T_C, 1, id];
    var d := QueueDelete(c, id);
    assert d.queue == c.queue + [m];
    var v := Seen(c.hist);
    assert Seen(d.hist).queued == v.taken + c.queue + [m] == v.taken + d.queue;
  }

  lemma SendQueuedGood(c: Conn, now: nat, ok: bool)
    requires Good(c) && now > 0
    ensures Good(SendQueued(c, now, ok).0)
    ensures c.state == Active ==> SendQueued(c, now, ok).0.state == Active
  {
    hide Seen;
    if (c.state == InCreation || c.state == Active || c.state == ActiveDeleteQueued) && c.queue != [] && c.txTime == 0 {
      var v := Seen(c.hist);
      assert v.taken + c.queue == v.taken + [c.queue[0]] + c.queue[1..];
    }
  }

  lemma PollIfDueGood(c: Conn, id: byte, delay: nat, now: nat, ok: bool)
    requires Good(c) && now > 0
    ensures Good(PollIfDue(c, id, delay, now, ok).0)
    ensures PollIfDue(c, id, delay, now, ok).0.state == c.state
  {
    hide Seen;
  }

  lemma CheckTimeoutGood(c: Conn, timeout: nat, now: nat)
    requires Good(c)
    ensures Good(CheckTimeout(c, timeout, now).0)
    ensures c.state == Active ==> CheckTimeout(c, timeout, now).0.state == Active
  {
  }

  lemma PollStepGood(c: Conn, id: byte, delay: nat, timeout: nat, now: nat, ok1: bool, ok2: bool)
    requires Good(c) && now > 0
    ensures Good(PollStep(c, id, delay, timeout, now, ok1, ok2).0)
    ensures c.state == Idle ==> PollStep(c, id, delay, timeout, now, ok1, ok2).0 == c
    ensures c.state == Active ==> PollStep(c, id, delay, timeout, now, ok1, ok2).0.state == Active
  {
    hide Good;
    hide SendQueued;
    hide PollIfDue;
    hide CheckTimeout;
    SendQueuedGood(c, now, ok1);
    var c1 := SendQueued(c, now, ok1).0;
    PollIfDueGood(c1, id, delay, now, ok2);
    CheckTimeoutGood(PollIfDue(c1, id, delay, now, ok2).0, timeout, now);
  }

  lemma AcceptMoreGood(c: Conn, body: seq<byte>)
    requires Good(c) && c.state == Active
    ensures Good(AcceptMore(c, body))
  {
    hide Seen;
  }

  lemma AcceptLastGood(c: Conn, body: seq<byte>)
    requires Good(c) && c.state == Active
    ensures Good(AcceptLast(c, body))
  {
    hide Seen;
    var a := Answer(c, T_DATA_LAST);
    assert Good(a);
    var d := Note(a.(chain := None), Final(body));
    assert Seen(d.hist).groups ==
      Seen(c.hist).groups + if |body| > 0 then [Joined(c.chain, body)] else [];
  }

  lemma AcceptSbGood(c: Conn, id: byte, flags: byte, now: nat, ok: bool)
    requires Good(c) && c.state == Active && now > 0
    ensures Good(AcceptSb(c, id, flags, now, ok).0)
  {
    hide Seen;
  }

  lemma AcceptDeleteGood(c: Conn, id: byte, ok: bool)
    requires Good(c) && (c.state == Active || c.state == InDeletion)
    ensures Good(AcceptDelete(c, id, ok).0)
  {
    hide Seen;
  }
}
