/** The transport layer of lib/libdvben50221/en50221_transport.c as a state machine over slots.
    The callback is always the last thing a handler does, so one TPDU, one host call and one turn
    of the poll loop are the atomic steps of every run. */
module Transport {
  import opened Bytes
  import opened Asn1
  import opened Connection

  type Time = t: int | t > 0 witness 1

  /** struct en50221_slot; handle -1 marks a slot that is not registered. */
  datatype Slot = Slot(handle: int, cam: byte, timeout: nat, pollDelay: nat, conns: seq<Conn>)

  datatype Tpdu = Tpdu(tag: byte, conn: byte, body: seq<byte>)

  /** The outcomes of the link writes a step may try, in order, and the clock. */
  datatype Link = Link(first: bool, second: bool, now: Time)

  datatype Callback =
    | NoCallback
    | ConnectionOpen(slot: byte, conn: byte)
    | CamConnectionOpen(slot: byte, conn: byte)
    | Data(slot: byte, conn: byte, data: seq<byte>)
    | ConnectionClose(slot: byte, conn: byte)
    | SlotClose(slot: byte)

  datatype Outcome = Outcome(slots: seq<Slot>, status: Status, callback: Callback)

  datatype Handled = Handled(conns: seq<Conn>, status: Status, callback: Callback)

  datatype Step =
    | Register(handle: int, cam: byte, timeout: nat, pollDelay: nat)
    | DestroySlot(slot: byte)
    | SendData(slot: byte, conn: byte, data: seq<byte>)
    | NewTc(slot: byte)
    | DelTc(slot: byte, conn: byte)
    | Receive(slot: byte, tpdu: Tpdu, link: Link)
    | Poll(slot: byte, conn: byte, link: Link)

  // ---------------------------------------------------------------- the TPDU format

  /** The T_DATA_LAST TPDU of send_data: asn_1_encode takes the length as a uint16_t. */
  function DataTpdu(conn: byte, data: seq<byte>): Message {
    [T_DATA_LAST] + LengthField((|data| + 1) % 0x1_0000) + [conn] + data
  }

  /** The header parsing of en50221_tl_process_data: the first TPDU of `data` and its size. */
  function ParseTpdu(data: seq<byte>): (r: Option<(Tpdu, nat)>)
    ensures r.Some? ==> 3 <= r.value.1 <= |data|
  {
    if data == [] then None else
      var f := DecodeLength(data[1..]);
      if f.None? || f.value.length < 1 || f.value.length > |data| - (1 + f.value.size) then None else
        var at := 1 + f.value.size;
        Some((Tpdu(data[0], data[at], data[at + 1..at + f.value.length]), at + f.value.length))
  }

  /** A data TPDU is parsed back, whatever follows it, exactly when its length fits 16 bits. */
  lemma DataTpduRoundTrip(conn: byte, data: seq<byte>, rest: seq<byte>)
    ensures ParseTpdu(DataTpdu(conn, data) + rest) == Some((Tpdu(T_DATA_LAST, conn, data), |DataTpdu(conn, data)|))
            <==> |data| + 1 <= 0xFFFF
  {
    var m := DataTpdu(conn, data);
    var n := (|data| + 1) % 0x1_0000;
    var f := LengthField(n);
    assert (m + rest)[1..] == f + ([conn] + data + rest);
    LengthRoundTrip(n, [conn] + data + rest);
    var at := 1 + |f|;
    assert (m + rest)[at] == conn;
    if |data| + 1 <= 0xFFFF {
      assert (m + rest)[at + 1..at + n] == data;
    }
  }

  // ---------------------------------------------------------------- steps inside one slot

  /** The search loop of en50221_tl_alloc_new_tc, from connection `from` on. */
  function FirstIdle(conns: seq<Conn>, from: nat): (r: Option<nat>)
    ensures r.Some? ==> from <= r.value < |conns| && conns[r.value].state == Idle
    ensures r.Some? ==> forall i :: from <= i < r.value ==> conns[i].state != Idle
    ensures r.None? ==> forall i :: from <= i < |conns| ==> conns[i].state != Idle
    decreases |conns| - from
  {
    if from >= |conns| then None
    else if conns[from].state == Idle then Some(from)
    else FirstIdle(conns, from + 1)
  }

  /** en50221_tl_handle_request_tc: no state check on the requesting connection, which may even be
      the one that gets allocated. */
  function HandleRequest(slot: byte, conns: seq<Conn>, c: byte, link: Link): (h: Handled)
    requires c < |conns| <= 0x100
    ensures |h.conns| == |conns|
  {
    var free := FirstIdle(conns, 1);
    if free.None? then
      if !link.first then Handled(conns, Failed(CaWrite), NoCallback)
      else Handled(conns[c := Refuse(conns[c], c)], Ok(0), NoCallback)
    else
      var n := free.value;
      if !link.first then Handled(Taken(conns, n)[n := Taken(conns, n)[n].(state := Idle)], Failed(CaWrite), NoCallback) else
      var b := Granted(conns, c, n);
      if !link.second then Handled(b[n := b[n].(state := Idle)], Failed(CaWrite), NoCallback) else
      Handled(b[n := Create(b[n], n, link.now)], Ok(0), CamConnectionOpen(slot, n))
  }

  function Taken(conns: seq<Conn>, n: nat): seq<Conn>
    requires n < |conns|
  {
    conns[n := Allocate(conns[n])]
  }

  function Granted(conns: seq<Conn>, c: byte, n: byte): seq<Conn>
    requires c < |conns| && n < |conns|
  {
    Taken(conns, n)[c := Grant(Taken(conns, n)[c], c, n)]
  }

  /** The TPDU dispatch of en50221_tl_process_data with its handlers. */
  function HandleTpdu(slot: byte, conns: seq<Conn>, t: Tpdu, link: Link): (h: Handled)
    requires |conns| <= 0x100
    ensures |h.conns| == |conns|
  {
    var c := t.conn;
    if c >= |conns| then Handled(conns, Failed(BadConnectionId), NoCallback) else
    var conn := conns[c];
    if t.tag == T_C_T_C_REPLY && conn.state == InCreation then
      Handled(conns[c := Answer(conn.(state := Active), t.tag)], Ok(0), ConnectionOpen(slot, c))
    else if t.tag == T_DELETE_T_C && (conn.state == Active || conn.state == InDeletion) then
      var (d, r) := AcceptDelete(conn, c, link.first);
      Handled(conns[c := d], r, if r.Ok? then ConnectionClose(slot, c) else NoCallback)
    else if t.tag == T_D_T_C_REPLY && conn.state == InDeletion then
      Handled(conns[c := conn.(state := Idle)], Ok(0), NoCallback)
    else if t.tag == T_REQUEST_T_C then
      HandleRequest(slot, conns, c, link)
    else if t.tag == T_DATA_MORE && conn.state == Active then
      Handled(conns[c := AcceptMore(conn, t.body)], Ok(0), NoCallback)
    else if t.tag == T_DATA_LAST && conn.state == Active then
      Handled(conns[c := AcceptLast(conn, t.body)], Ok(0),
              if |t.body| > 0 then Data(slot, c, Joined(conn.chain, t.body)) else NoCallback)
    else if t.tag == T_SB && conn.state == Active && |t.body| == 1 then
      var (d, r) := AcceptSb(conn, c, t.body[0], link.now, link.first);
      Handled(conns[c := d], r, NoCallback)
    else Handled(conns, Failed(BadCamData), NoCallback)
  }

  // ---------------------------------------------------------------- steps of the layer

  predicate Registered(slots: seq<Slot>, s: byte) { s < |slots| && slots[s].handle != -1 }

  predicate ConnExists(slots: seq<Slot>, s: byte, c: byte) { Registered(slots, s) && c < |slots[s].conns| }

  predicate IsActive(slots: seq<Slot>, s: byte, c: byte) {
    ConnExists(slots, s, c) && slots[s].conns[c].state == Active
  }

  predicate SameShape(a: seq<Slot>, b: seq<Slot>) {
    |a| == |b| && forall s :: 0 <= s < |a| ==> |a[s].conns| == |b[s].conns|
  }

  function WithConns(slots: seq<Slot>, s: byte, conns: seq<Conn>): (r: seq<Slot>)
    requires s < |slots| && |conns| == |slots[s].conns|
    ensures SameShape(r, slots)
  {
    slots[s := slots[s].(conns := conns)]
  }

  function WithConn(slots: seq<Slot>, s: byte, c: byte, conn: Conn): (r: seq<Slot>)
    requires s < |slots| && c < |slots[s].conns|
    ensures SameShape(r, slots)
  {
    WithConns(slots, s, slots[s].conns[c := conn])
  }

  function FirstFreeSlot(slots: seq<Slot>, from: nat): (r: Option<nat>)
    ensures r.Some? ==> from <= r.value < |slots| && slots[r.value].handle == -1
    decreases |slots| - from
  {
    if from >= |slots| then None
    else if slots[from].handle == -1 then Some(from)
    else FirstFreeSlot(slots, from + 1)
  }

  function FlushAll(conns: seq<Conn>): (r: seq<Conn>)
    ensures |r| == |conns| && forall i :: 0 <= i < |conns| ==> r[i] == Flush(conns[i])
  {
    seq(|conns|, i requires 0 <= i < |conns| => Flush(conns[i]))
  }

  /** The sizes en50221_tl_create allows: both maxima are of type uint8_t. */
  predicate Sized(slots: seq<Slot>) {
    |slots| < 0x100 && forall s :: 0 <= s < |slots| ==> |slots[s].conns| < 0x100
  }

  function Next(slots: seq<Slot>, step: Step): (o: Outcome)
    requires Sized(slots)
    ensures SameShape(o.slots, slots) && Sized(o.slots)
  {
    match step
    case Register(handle, cam, timeout, pollDelay) =>
      var free := FirstFreeSlot(slots, 0);
      if free.None? then Outcome(slots, Failed(OutOfSlots), NoCallback) else
      var s := free.value;
      Outcome(slots[s := Slot(handle, cam, timeout, pollDelay, slots[s].conns)], Ok(s), NoCallback)
    case DestroySlot(s) =>
      if s >= |slots| then Outcome(slots, Ok(0), NoCallback) else
      Outcome(slots[s := slots[s].(handle := -1, conns := FlushAll(slots[s].conns))], Ok(0), SlotClose(s))
    case SendData(s, c, data) =>
      if !Registered(slots, s) then Outcome(slots, Failed(BadSlotId), NoCallback)
      else if !IsActive(slots, s, c) then Outcome(slots, Failed(BadConnectionId), NoCallback)
      else Outcome(WithConn(slots, s, c, Enqueue(slots[s].conns[c], DataTpdu(c, data))), Ok(0), NoCallback)
    case NewTc(s) =>
      if !Registered(slots, s) then Outcome(slots, Failed(BadSlotId), NoCallback) else
      var free := FirstIdle(slots[s].conns, 1);
      if free.None? then Outcome(slots, Failed(OutOfConnections), NoCallback) else
      var c := free.value;
      Outcome(WithConn(slots, s, c, Enqueue(Allocate(slots[s].conns[c]), [T_CREATE_T_C, 1, c])), Ok(c), NoCallback)
    case DelTc(s, c) =>
      if !Registered(slots, s) then Outcome(slots, Failed(BadSlotId), NoCallback)
      else if !ConnExists(slots, s, c) then Outcome(slots, Failed(BadConnectionId), NoCallback)
      else if !Deletable(slots[s].conns[c]) then Outcome(slots, Failed(BadState), NoCallback)
      else Outcome(WithConn(slots, s, c, QueueDelete(slots[s].conns[c], c)), Ok(0), NoCallback)
    case Receive(s, t, link) =>
      if !Registered(slots, s) then Outcome(slots, Ok(0), NoCallback) else
      var h := HandleTpdu(s, slots[s].conns, t, link);
      Outcome(WithConns(slots, s, h.conns), h.status, h.callback)
    case Poll(s, c, link) =>
      if !ConnExists(slots, s, c) then Outcome(slots, Ok(0), NoCallback) else
      var slot := slots[s];
      var (d, r) := PollStep(slot.conns[c], c, slot.pollDelay, slot.timeout, link.now, link.first, link.second);
      Outcome(WithConn(slots, s, c, d), r, NoCallback)
  }

  predicate Deletable(c: Conn) { c.state == Active || c.state == InDeletion }

  function Run(slots: seq<Slot>, steps: seq<Step>): (r: seq<Slot>)
    requires Sized(slots)
    ensures Sized(r) && |r| == |slots|
    decreases |steps|
  {
    if steps == [] then slots else Run(Next(slots, steps[0]).slots, steps[1..])
  }

  /** The state en50221_tl_create leaves. */
  function Created(maxSlots: byte, maxConns: byte): (slots: seq<Slot>)
    ensures Sized(slots) && AllGood(slots)
  {
    seq(maxSlots, _ => Slot(-1, 0, 0, 0, seq(maxConns, _ => Fresh)))
  }

  // ---------------------------------------------------------------- the invariant of every run

  /** Every connection is good, and connection 0 is never used. */
  predicate ConnsGood(conns: seq<Conn>) {
    && (forall c :: 0 <= c < |conns| ==> Good(conns[c]))
    && (|conns| > 0 ==> conns[0].state == Idle)
  }

  predicate AllGood(slots: seq<Slot>) { forall s :: 0 <= s < |slots| ==> ConnsGood(slots[s].conns) }

  lemma PutGood(conns: seq<Conn>, c: nat, d: Conn)
    requires ConnsGood(conns) && c < |conns| && Good(d) && (c == 0 ==> d.state == Idle)
    ensures ConnsGood(conns[c := d])
  {
  }

  lemma PutAllGood(slots: seq<Slot>, s: nat, slot: Slot)
    requires AllGood(slots) && s < |slots| && ConnsGood(slot.conns)
    ensures AllGood(slots[s := slot])
  {
  }

  lemma HandleRequestGood(slot: byte, conns: seq<Conn>, c: byte, link: Link)
    requires c < |conns| <= 0x100 && ConnsGood(conns)
    ensures ConnsGood(HandleRequest(slot, conns, c, link).conns)
  {
    var free := FirstIdle(conns, 1);
    if free.Some? {
      var n := free.value;
      TakenGood(conns, n);
      GrantedGood(conns, c, n);
      ReleaseGood(Taken(conns, n), n);
      ReleaseGood(Granted(conns, c, n), n);
      CreateGood(Granted(conns, c, n)[n], n, link.now);
      PutGood(Granted(conns, c, n), n, Create(Granted(conns, c, n)[n], n, link.now));
    } else {
      RequestReplyGood(conns[c], c, 0);
      PutGood(conns, c, Refuse(conns[c], c));
    }
  }

  lemma TakenGood(conns: seq<Conn>, n: nat)
    requires ConnsGood(conns) && 0 < n < |conns| && conns[n].state == Idle
    ensures ConnsGood(Taken(conns, n)) && Taken(conns, n)[n].state == InCreation
  {
    AllocateGood(conns[n]);
    PutGood(conns, n, Allocate(conns[n]));
  }

  lemma GrantedGood(conns: seq<Conn>, c: byte, n: byte)
    requires ConnsGood(conns) && 0 < n < |conns| && c < |conns| && conns[n].state == Idle
    ensures ConnsGood(Granted(conns, c, n)) && Granted(conns, c, n)[n].state == InCreation
  {
    TakenGood(conns, n);
    var a := Taken(conns, n);
    RequestReplyGood(a[c], c, n);
    PutGood(a, c, Grant(a[c], c, n));
  }

  lemma ReleaseGood(conns: seq<Conn>, n: nat)
    requires ConnsGood(conns) && n < |conns| && conns[n].state == InCreation
    ensures ConnsGood(conns[n := conns[n].(state := Idle)])
  {
    UnallocateGood(conns[n]);
    PutGood(conns, n, conns[n].(state := Idle));
  }

  lemma UnallocateGood(c: Conn)
    requires Good(c) && c.state == InCreation
    ensures Good(c.(state := Idle))
  {
  }

  lemma HandleTpduGood(slot: byte, conns: seq<Conn>, t: Tpdu, link: Link)
    requires |conns| <= 0x100 && ConnsGood(conns)
    ensures ConnsGood(HandleTpdu(slot, conns, t, link).conns)
  {
    if t.conn < |conns| {
      var conn := conns[t.conn];
      if t.tag == T_REQUEST_T_C {
        HandleRequestGood(slot, conns, t.conn, link);
      } else if t.tag == T_DELETE_T_C && Deletable(conn) {
        AcceptDeleteGood(conn, t.conn, link.first);
        PutGood(conns, t.conn, AcceptDelete(conn, t.conn, link.first).0);
      } else if conn.state == Active && t.tag == T_DATA_MORE {
        AcceptMoreGood(conn, t.body);
        PutGood(conns, t.conn, AcceptMore(conn, t.body));
      } else if conn.state == Active && t.tag == T_DATA_LAST {
        AcceptLastGood(conn, t.body);
        PutGood(conns, t.conn, AcceptLast(conn, t.body));
      } else if conn.state == Active && t.tag == T_SB && |t.body| == 1 {
        AcceptSbGood(conn, t.conn, t.body[0], link.now, link.first);
        PutGood(conns, t.conn, AcceptSb(conn, t.conn, t.body[0], link.now, link.first).0);
      } else if t.tag == T_C_T_C_REPLY && conn.state == InCreation {
        OpenedGood(conn);
        PutGood(conns, t.conn, Answer(conn.(state := Active), t.tag));
      } else if t.tag == T_D_T_C_REPLY && conn.state == InDeletion {
        DeletedGood(conn);
        PutGood(conns, t.conn, conn.(state := Idle));
      }
    }
  }

  lemma OpenedGood(c: Conn)
    requires Good(c) && c.state == InCreation
    ensures Good(Answer(c.(state := Active), T_C_T_C_REPLY))
  {
    assert Good(c.(state := Active));
    AnswerGood(c.(state := Active), T_C_T_C_REPLY);
  }

  lemma DeletedGood(c: Conn)
    requires Good(c) && c.state == InDeletion
    ensures Good(c.(state := Idle))
  {
  }

  lemma NextGood(slots: seq<Slot>, step: Step)
    requires Sized(slots) && AllGood(slots)
    ensures AllGood(Next(slots, step).slots)
  {
    hide Good;
    hide PollStep;
    hide HandleTpdu;
    match step
    case Register(_, _, _, _) =>
      var free := FirstFreeSlot(slots, 0);
      if free.Some? { PutAllGood(slots, free.value, Next(slots, step).slots[free.value]); }
    case DestroySlot(s) =>
      if s < |slots| { DestroyGood(slots, s); }
    case SendData(s, c, data) =>
      if IsActive(slots, s, c) {
        EnqueueGood(slots[s].conns[c], DataTpdu(c, data));
        WithConnGood(slots, s, c, Enqueue(slots[s].conns[c], DataTpdu(c, data)));
      }
    case NewTc(s) =>
      if Registered(slots, s) && FirstIdle(slots[s].conns, 1).Some? {
        var c := FirstIdle(slots[s].conns, 1).value;
        AllocateGood(slots[s].conns[c]);
        EnqueueGood(Allocate(slots[s].conns[c]), [T_CREATE_T_C, 1, c]);
        WithConnGood(slots, s, c, Enqueue(Allocate(slots[s].conns[c]), [T_CREATE_T_C, 1, c]));
      }
    case DelTc(s, c) =>
      if ConnExists(slots, s, c) && Deletable(slots[s].conns[c]) {
        QueueDeleteGood(slots[s].conns[c], c);
        WithConnGood(slots, s, c, QueueDelete(slots[s].conns[c], c));
      }
    case Receive(s, t, link) =>
      if Registered(slots, s) {
        HandleTpduGood(s, slots[s].conns, t, link);
        PutAllGood(slots, s, slots[s].(conns := HandleTpdu(s, slots[s].conns, t, link).conns));
      }
    case Poll(s, c, link) =>
      if ConnExists(slots, s, c) {
        var slot := slots[s];
        PollStepGood(slot.conns[c], c, slot.pollDelay, slot.timeout, link.now, link.first, link.second);
        WithConnGood(slots, s, c, PollStep(slot.conns[c], c, slot.pollDelay, slot.timeout, link.now, link.first, link.second).0);
      }
  }

  lemma WithConnGood(slots: seq<Slot>, s: byte, c: byte, d: Conn)
    requires AllGood(slots) && s < |slots| && c < |slots[s].conns| && Good(d) && (c == 0 ==> d.state == Idle)
    ensures AllGood(WithConn(slots, s, c, d))
  {
    PutGood(slots[s].conns, c, d);
    PutAllGood(slots, s, slots[s].(conns := slots[s].conns[c := d]));
  }

  lemma DestroyGood(slots: seq<Slot>, s: byte)
    requires AllGood(slots) && s < |slots|
    ensures AllGood(slots[s := slots[s].(handle := -1, conns := FlushAll(slots[s].conns))])
  {
    var conns := FlushAll(slots[s].conns);
    forall c | 0 <= c < |conns| ensures Good(conns[c]) { FlushGood(slots[s].conns[c]); }
    assert ConnsGood(conns);
    PutAllGood(slots, s, slots[s].(handle := -1, conns := conns));
  }

  lemma {:induction false} RunGood(slots: seq<Slot>, steps: seq<Step>)
    requires Sized(slots) && AllGood(slots)
    ensures AllGood(Run(slots, steps))
    decreases |steps|
  {
    if steps != [] {
      NextGood(slots, steps[0]);
      RunGood(Next(slots, steps[0]).slots, steps[1..]);
    }
  }

  // ---------------------------------------------------------------- what holds after every run

  /** The delete handshake: the shape of the queue and, over the whole history, silence after
      T_DELETE_T_C until the connection is allocated again. */
  lemma DeleteHandshake(slots: seq<Slot>, steps: seq<Step>, s: nat, c: nat)
    requires Sized(slots) && AllGood(slots) && s < |slots|
    ensures c < |Run(slots, steps)[s].conns| ==>
              var conn := Run(slots, steps)[s].conns[c];
              && Handshake(conn)
              && (conn.state == Idle ==> conn.chain == None)
              && forall i, j :: 0 <= i < j < |conn.hist| && IsDeleteWrite(conn.hist[i]) && IsTrafficWrite(conn.hist[j])
                   ==> exists k :: i < k < j && conn.hist[k].Allocated?
  {
    RunGood(slots, steps);
    var after := Run(slots, steps);
    if c < |after[s].conns| {
      var h := after[s].conns[c].hist;
      forall i, j | 0 <= i < j < |h| && IsDeleteWrite(h[i]) && IsTrafficWrite(h[j])
        ensures exists k :: i < k < j && h[k].Allocated?
      {
        QuietMeans(h, i, j);
      }
    }
  }

  /** Stop and wait: between two writes from the queue or polls the module answered. */
  lemma StopAndWait(slots: seq<Slot>, steps: seq<Step>, s: nat, c: nat, i: nat, j: nat)
    requires Sized(slots) && AllGood(slots) && s < |slots|
    ensures c < |Run(slots, steps)[s].conns| ==>
              var h := Run(slots, steps)[s].conns[c].hist;
              i < j < |h| && IsPaced(h[i]) && IsPaced(h[j]) ==> exists k :: i < k < j && EndsWait(h[k])
  {
    RunGood(slots, steps);
    var after := Run(slots, steps);
    if c < |after[s].conns| {
      var h := after[s].conns[c].hist;
      if i < j < |h| && IsPaced(h[i]) && IsPaced(h[j]) { PacedMeans(h, i, j); }
    }
  }

  /** The send queue is a FIFO: what was queued is what left the queue followed by what is still in
      it; without a failed write or a flush, what left the queue is what was written. */
  lemma Fifo(slots: seq<Slot>, steps: seq<Step>, s: nat, c: nat)
    requires Sized(slots) && AllGood(slots) && s < |slots|
    ensures c < |Run(slots, steps)[s].conns| ==>
              var conn := Run(slots, steps)[s].conns[c];
              && Seen(conn.hist).queued == Seen(conn.hist).taken + conn.queue
              && ((forall e :: e in conn.hist ==> !e.Lost? && !e.Flushed?) ==>
                    Messages(conn.hist, IsQueued) == Messages(conn.hist, IsSent) + conn.queue)
  {
    RunGood(slots, steps);
    var after := Run(slots, steps);
    if c < |after[s].conns| {
      var h := after[s].conns[c].hist;
      if forall e :: e in h ==> !e.Lost? && !e.Flushed? { FifoMeans(h); }
    }
  }

  // ---------------------------------------------------------------- reassembly without interference

  /** The data TPDUs among `steps` that are addressed to one connection. */
  function DataFor(steps: seq<Step>, s: byte, c: byte): seq<Tpdu> {
    if steps == [] then [] else
      (if IsDataFor(steps[0], s, c) then [steps[0].tpdu] else []) + DataFor(steps[1..], s, c)
  }

  predicate IsDataFor(step: Step, s: byte, c: byte) {
    step.Receive? && step.slot == s && step.tpdu.conn == c && (step.tpdu.tag == T_DATA_MORE || step.tpdu.tag == T_DATA_LAST)
  }

  datatype Assembly = Assembly(packets: seq<seq<byte>>, pending: Option<seq<byte>>)

  /** The reference: cut the data TPDUs of one connection into MORE* LAST groups and join each. */
  function Assemble(a: Assembly, ts: seq<Tpdu>): Assembly
    decreases |ts|
  {
    if ts == [] then a else Assemble(AssembleOne(a, ts[0]), ts[1..])
  }

  function AssembleOne(a: Assembly, t: Tpdu): Assembly {
    if t.tag == T_DATA_MORE then a.(pending := Some(Joined(a.pending, t.body)))
    else if |t.body| > 0 then Assembly(a.packets + [Joined(a.pending, t.body)], None)
    else a.(pending := None)
  }

  /** Steps that neither host nor module use to close this connection. */
  predicate KeepsOpen(step: Step, s: byte, c: byte) {
    && step != DestroySlot(s)
    && step != DelTc(s, c)
    && !(step.Receive? && step.slot == s && step.tpdu.conn == c && step.tpdu.tag == T_DELETE_T_C)
  }

  function Progress(conn: Conn): Assembly { Assembly(Seen(conn.hist).delivered, conn.chain) }

  lemma StepOnActive(slots: seq<Slot>, step: Step, s: byte, c: byte)
    requires Sized(slots) && AllGood(slots) && IsActive(slots, s, c) && KeepsOpen(step, s, c)
    ensures IsActive(Next(slots, step).slots, s, c)
    ensures var before := Progress(slots[s].conns[c]);
            Progress(Next(slots, step).slots[s].conns[c]) ==
            if IsDataFor(step, s, c) then AssembleOne(before, step.tpdu) else before
  {
    match step
    case Receive(s', t, link) =>
      if s' == s { TpduOnActive(slots[s].conns, c, s, t, link); }
    case Poll(s', c', link) =>
      if s' == s && c' == c { PollOnActive(slots[s].conns[c], c, slots[s].pollDelay, slots[s].timeout, link); }
    case _ =>
      HostStepOnActive(slots, step, s, c);
  }

  lemma HostStepOnActive(slots: seq<Slot>, step: Step, s: byte, c: byte)
    requires Sized(slots) && IsActive(slots, s, c) && KeepsOpen(step, s, c) && !step.Receive? && !step.Poll?
    ensures IsActive(Next(slots, step).slots, s, c)
    ensures Progress(Next(slots, step).slots[s].conns[c]) == Progress(slots[s].conns[c])
  {
    hide Seen;
    hide DataTpdu;
    hide Enqueue;
    if step.SendData? { EnqueueKeepsData(slots[s].conns[c], DataTpdu(step.conn, step.data)); }
  }

  lemma EnqueueKeepsData(conn: Conn, m: Message)
    ensures Enqueue(conn, m).state == conn.state && Progress(Enqueue(conn, m)) == Progress(conn)
  {
    NoteKeepsData(conn.(queue := conn.queue + [m]), Queued(m));
  }

  lemma TpduOnActive(conns: seq<Conn>, c: byte, s: byte, t: Tpdu, link: Link)
    requires c < |conns| <= 0x100 && ConnsGood(conns) && conns[c].state == Active && !(t.conn == c && t.tag == T_DELETE_T_C)
    ensures var after := HandleTpdu(s, conns, t, link).conns[c];
            && after.state == Active
            && Progress(after) ==
               if IsDataFor(Receive(s, t, link), s, c) then AssembleOne(Progress(conns[c]), t) else Progress(conns[c])
  {
    if t.conn < |conns| && t.tag == T_REQUEST_T_C {
      RequestOnActive(conns, c, s, t.conn, link);
    } else if t.conn == c {
      LastOnActive(conns[c], t);
      NoteKeepsData(conns[c].(txTime := 0), Answered(t.tag));
      SbOnActive(conns[c], c, t, link);
      MoreOnActive(conns[c], t);
    }
  }

  lemma RequestOnActive(conns: seq<Conn>, c: byte, s: byte, from: byte, link: Link)
    requires c < |conns| <= 0x100 && from < |conns| && conns[c].state == Active
    ensures var after := HandleRequest(s, conns, from, link).conns[c];
            after.state == Active && Progress(after) == Progress(conns[c])
  {
    hide Grant;
    hide Refuse;
    hide Observe;
    var free := FirstIdle(conns, 1);
    if free.Some? {
      GrantKeepsData(conns[c], from, free.value);
      assert Taken(conns, free.value)[c] == conns[c];
    } else {
      GrantKeepsData(conns[c], from, 0);
    }
  }

  lemma GrantKeepsData(conn: Conn, id: byte, n: byte)
    ensures Progress(Grant(conn, id, n)) == Progress(conn) == Progress(Refuse(conn, id))
    ensures Grant(conn, id, n).state == Refuse(conn, id).state == conn.state
  {
    NoteKeepsData(conn, Wrote([T_NEW_T_C, 2, id, n]));
    NoteKeepsData(conn, Wrote([T_T_C_ERROR, 2, id, 1]));
  }

  lemma SbOnActive(conn: Conn, id: byte, t: Tpdu, link: Link)
    ensures |t.body| == 1 ==> var d := AcceptSb(conn, id, t.body[0], link.now, link.first).0;
            d.state == conn.state && Progress(d) == Progress(conn)
  {
  }

  lemma MoreOnActive(conn: Conn, t: Tpdu)
    ensures t.tag == T_DATA_MORE ==> Progress(AcceptMore(conn, t.body)) == AssembleOne(Progress(conn), t)
  {
  }

  lemma LastOnActive(conn: Conn, t: Tpdu)
    requires Good(conn)
    ensures t.tag == T_DATA_LAST ==> Progress(AcceptLast(conn, t.body)) == AssembleOne(Progress(conn), t)
  {
    var d := Note(Answer(conn, T_DATA_LAST).(chain := None), Final(t.body));
    assert Seen(d.hist).delivered == Seen(conn.hist).delivered;
  }

  lemma PollOnActive(conn: Conn, c: byte, delay: nat, timeout: nat, link: Link)
    requires Good(conn) && conn.state == Active
    ensures var d := PollStep(conn, c, delay, timeout, link.now, link.first, link.second).0;
            d.state == Active && Progress(d) == Progress(conn)
  {
    hide SendQueued;
    hide PollIfDue;
    hide CheckTimeout;
    hide Good;
    hide Progress;
    NoDeleteWaits(conn);
    SendOnActive(conn, link.now, link.first);
    var c1 := SendQueued(conn, link.now, link.first).0;
    PollMessageOnActive(c1, c, delay, link.now, link.second);
    var c2 := PollIfDue(c1, c, delay, link.now, link.second).0;
    TimeoutOnActive(c2, timeout, link.now);
  }

  lemma NoDeleteWaits(conn: Conn)
    requires Good(conn) && conn.state == Active
    ensures forall k :: 0 <= k < |conn.queue| ==> !IsDelete(conn.queue[k])
  {
    hide Faithful;
  }

  lemma SendOnActive(conn: Conn, now: Time, ok: bool)
    requires conn.state == Active && (conn.queue != [] ==> !IsDelete(conn.queue[0]))
    ensures var d := SendQueued(conn, now, ok).0; d.state == Active && Progress(d) == Progress(conn)
  {
    if conn.queue != [] {
      var rest := conn.(queue := conn.queue[1..]);
      NoteKeepsData(rest, Lost(conn.queue[0]));
      NoteKeepsData(rest.(txTime := now), Sent(conn.queue[0]));
      hide Observe;
      hide Seen;
    }
  }

  lemma PollMessageOnActive(conn: Conn, c: byte, delay: nat, now: Time, ok: bool)
    requires conn.state == Active
    ensures var d := PollIfDue(conn, c, delay, now, ok).0; d.state == Active && Progress(d) == Progress(conn)
  {
    NoteKeepsData(conn.(lastPoll := now, txTime := now), Wrote(PollMessage(c)));
    hide Observe;
    hide Seen;
  }

  lemma TimeoutOnActive(conn: Conn, timeout: nat, now: Time)
    requires conn.state == Active
    ensures var d := CheckTimeout(conn, timeout, now).0; d.state == Active && Progress(d) == Progress(conn)
  {
  }

  /** Whatever else happens on the slot, the callback of an active connection gets exactly the
      joined MORE* LAST groups of the TPDUs addressed to it. */
  lemma {:induction false} Reassembly(slots: seq<Slot>, steps: seq<Step>, s: byte, c: byte)
    requires Sized(slots) && AllGood(slots) && IsActive(slots, s, c)
    requires forall step :: step in steps ==> KeepsOpen(step, s, c)
    ensures IsActive(Run(slots, steps), s, c)
    ensures Progress(Run(slots, steps)[s].conns[c]) == Assemble(Progress(slots[s].conns[c]), DataFor(steps, s, c))
    decreases |steps|
  {
    if steps != [] {
      StepOnActive(slots, steps[0], s, c);
      NextGood(slots, steps[0]);
      var next := Next(slots, steps[0]).slots;
      Reassembly(next, steps[1..], s, c);
      var rest := DataFor(steps[1..], s, c);
      if IsDataFor(steps[0], s, c) {
        assert DataFor(steps, s, c) == [steps[0].tpdu] + rest;
        assert ([steps[0].tpdu] + rest)[1..] == rest;
      } else {
        assert DataFor(steps, s, c) == rest;
      }
    }
  }

  /** A packet cut into fragments arrives as if it had been sent in one piece, provided the last
      fragment is not empty; with an empty last fragment it is swallowed. */
  lemma {:induction false} FragmentsJoin(a: Assembly, c: byte, pieces: seq<seq<byte>>, last: seq<byte>)
    ensures var ts := seq(|pieces|, i requires 0 <= i < |pieces| => Tpdu(T_DATA_MORE, c, pieces[i])) + [Tpdu(T_DATA_LAST, c, last)];
            Assemble(a, ts) ==
            if |last| > 0 then Assembly(a.packets + [Joined(a.pending, Flatten(pieces) + last)], None)
            else Assembly(a.packets, None)
    decreases |pieces|
  {
    var ts := seq(|pieces|, i requires 0 <= i < |pieces| => Tpdu(T_DATA_MORE, c, pieces[i])) + [Tpdu(T_DATA_LAST, c, last)];
    if pieces == [] {
      assert ts == [Tpdu(T_DATA_LAST, c, last)];
      assert Flatten(pieces) + last == last;
    } else {
      var rest := pieces[1..];
      var a' := AssembleOne(a, ts[0]);
      FragmentsJoin(a', c, rest, last);
      assert ts[1..] == seq(|rest|, i requires 0 <= i < |rest| => Tpdu(T_DATA_MORE, c, rest[i])) + [Tpdu(T_DATA_LAST, c, last)];
      assert Joined(a'.pending, Flatten(rest) + last) == Joined(a.pending, Flatten(pieces) + last);
    }
  }
}
