/** What lib/libdvben50221/en50221_transport.c does with each TPDU and at each turn of its poll loop, in octets
    and plain arithmetic (EN 50221 section 7.1 and annex A). */
module TransportMeaning {
  import opened Bytes
  import opened Connection
  import opened Transport

  // ---------------------------------------------------------------- polling

  /** A message can be sent: it is queued, no answer is outstanding, and the state allows it. */
  predicate CanSend(c: Conn) {
    (c.state == InCreation || c.state == Active || c.state == ActiveDeleteQueued) && c.queue != [] && c.txTime == 0
  }

  /** A turn that sends takes the oldest message and does nothing else; a T_DELETE_T_C starts the deletion. */
  lemma TurnSends(c: Conn, id: byte, delay: nat, timeout: nat, now: Time, ok1: bool, ok2: bool)
    requires CanSend(c)
    ensures var (d, r) := PollStep(c, id, delay, timeout, now, ok1, ok2);
      var msg, deletes := c.queue[0], c.queue[0][0] == 0x84;
      if ok1 then
        && r == Ok(0)
        && d == c.(queue := c.queue[1..], hist := c.hist + [Sent(msg)], txTime := now,
                   state := if deletes then InDeletion else c.state, chain := if deletes then None else c.chain)
      else r == Failed(CaWrite) && d == c.(queue := c.queue[1..], hist := c.hist + [Lost(msg)])
  {
    hide Seen;
    hide Observe;
  }

  /** A turn with nothing to send: when a poll is written, and when the time for an answer is over. */
  lemma TurnWaits(c: Conn, id: byte, delay: nat, timeout: nat, now: Time, ok1: bool, ok2: bool)
    requires !CanSend(c)
    ensures var (d, r) := PollStep(c, id, delay, timeout, now, ok1, ok2);
      var due := c.state == Active && c.txTime == 0 && now > c.lastPoll + delay;
      var late := c.txTime != 0 && now > c.txTime + timeout;
      && (r == Failed(Timeout) <==> (c.state == Active || c.state == ActiveDeleteQueued) && late)
      && (r == Failed(CaWrite) <==> due && !ok2)
      && (r == Ok(0) || r == Failed(Timeout) || r == Failed(CaWrite))
      && d == c.(state := if (c.state == InCreation || c.state == InDeletion) && late then Idle else c.state,
                 txTime := if due then now else c.txTime, lastPoll := if due then now else c.lastPoll,
                 hist := if due && ok2 then c.hist + [Wrote([0xA0, 1, id])] else c.hist)
  {
    hide Seen;
    hide Observe;
  }

  /** One turn of the poll loop for one connection, with the delays of its slot. */
  lemma PollMeans(slots: seq<Slot>, s: byte, c: byte, link: Link)
    requires Sized(slots) && s < |slots| && slots[s].handle != -1 && c < |slots[s].conns|
    ensures var o, slot, conn := Next(slots, Poll(s, c, link)), slots[s], slots[s].conns[c];
      && o.callback == NoCallback && |o.slots| == |slots| && |o.slots[s].conns| == |slot.conns|
      && var d := o.slots[s].conns[c];
      && o.slots == slots[s := slot.(conns := slot.conns[c := d])]
      && var sends, answered := CanSend(conn), conn.txTime == 0;
      && var due := !sends && conn.state == Active && answered && link.now > conn.lastPoll + slot.pollDelay;
      && var late := !sends && !answered && link.now > conn.txTime + slot.timeout;
      && (sends ==> d.queue == conn.queue[1..] && (d.hist == conn.hist + if link.first then [Sent(conn.queue[0])] else [Lost(conn.queue[0])]))
      && (!sends ==> d.queue == conn.queue && d.hist == conn.hist + if due && link.second then [Wrote([0xA0, 1, c])] else [])
      && d.lastPoll == (if due then link.now else conn.lastPoll)
      && d.txTime == (if due || (sends && link.first) then link.now else conn.txTime)
      && (o.status == Failed(CaWrite) <==> (sends && !link.first) || (due && !link.second))
      && (o.status == Failed(Timeout) <==> late && (conn.state == Active || conn.state == ActiveDeleteQueued))
      && (o.status == Ok(0) || o.status == Failed(CaWrite) || o.status == Failed(Timeout))
      && d.state == if late && (conn.state == InCreation || conn.state == InDeletion) then Idle
                    else if sends && link.first && conn.queue[0][0] == 0x84 then InDeletion else conn.state
  {
    hide PollStep;
    var slot, conn := slots[s], slots[s].conns[c];
    assert conn.hist + [] == conn.hist;
    if CanSend(conn) { TurnSends(conn, c, slot.pollDelay, slot.timeout, link.now, link.first, link.second); }
    else { TurnWaits(conn, c, slot.pollDelay, slot.timeout, link.now, link.first, link.second); }
  }

  // ---------------------------------------------------------------- TPDUs of the module

  /** Only this connection changes. */
  predicate Only(before: seq<Conn>, after: seq<Conn>, c: nat) { c < |before| == |after| && after == before[c := after[c]] }

  /** T_SB: with data available the host asks for it with T_RCV, otherwise the connection is free to send. */
  lemma SbMeans(s: byte, conns: seq<Conn>, c: byte, value: byte, link: Link)
    requires c < |conns| <= 0x100 && conns[c].state == Active
    ensures var h, conn := HandleTpdu(s, conns, Tpdu(0x80, c, [value]), link), conns[c];
      var available := value / 128 == 1;
      && h.callback == NoCallback && Only(conns, h.conns, c)
      && (available && link.first ==> h.status == Ok(0) && h.conns[c] == conn.(txTime := link.now, hist := conn.hist + [Wrote([0x81, 1, c])]))
      && (available && !link.first ==> h.status == Failed(CaWrite) && h.conns == conns)
      && (!available ==> h.status == Ok(0) && h.conns[c] == conn.(txTime := 0, hist := conn.hist + [Answered(0x80)]))
  {
    hide Seen;
    hide Observe;
  }

  /** T_C_T_C_REPLY */
  lemma CreateReplyMeans(s: byte, conns: seq<Conn>, c: byte, body: seq<byte>, link: Link)
    requires c < |conns| <= 0x100 && conns[c].state == InCreation
    ensures var h, conn := HandleTpdu(s, conns, Tpdu(0x83, c, body), link), conns[c];
      && h.status == Ok(0) && h.callback == ConnectionOpen(s, c) && Only(conns, h.conns, c)
      && h.conns[c] == conn.(state := Active, txTime := 0, hist := conn.hist + [Answered(0x83)])
  {
    hide Seen;
    hide Observe;
  }

  /** T_DELETE_T_C */
  lemma DeleteMeans(s: byte, conns: seq<Conn>, c: byte, body: seq<byte>, link: Link)
    requires c < |conns| <= 0x100 && (conns[c].state == Active || conns[c].state == InDeletion)
    ensures var h, conn := HandleTpdu(s, conns, Tpdu(0x84, c, body), link), conns[c];
      && Only(conns, h.conns, c)
      && h.conns[c] == conn.(state := Idle, chain := None, hist := conn.hist + [Closed] + if link.first then [Wrote([0x85, 1, c])] else [])
      && h.status == (if link.first then Ok(0) else Failed(CaWrite))
      && h.callback == if link.first then ConnectionClose(s, c) else NoCallback
  {
    hide Seen;
    hide Observe;
  }

  /** T_D_T_C_REPLY */
  lemma DeleteReplyMeans(s: byte, conns: seq<Conn>, c: byte, body: seq<byte>, link: Link)
    requires c < |conns| <= 0x100 && conns[c].state == InDeletion
    ensures var h := HandleTpdu(s, conns, Tpdu(0x85, c, body), link);
      h.status == Ok(0) && h.callback == NoCallback && Only(conns, h.conns, c) && h.conns[c] == conns[c].(state := Idle)
  {
    hide Seen;
    hide Observe;
  }

  /** T_DATA_MORE */
  lemma MoreMeans(s: byte, conns: seq<Conn>, c: byte, body: seq<byte>, link: Link)
    requires c < |conns| <= 0x100 && conns[c].state == Active
    ensures var h, conn := HandleTpdu(s, conns, Tpdu(0xA1, c, body), link), conns[c];
      && h.status == Ok(0) && h.callback == NoCallback && Only(conns, h.conns, c)
      && h.conns[c] == conn.(txTime := 0, hist := conn.hist + [Answered(0xA1), Fragment(body)],
                             chain := Some((if conn.chain.None? then [] else conn.chain.value) + body))
  {
    hide Seen;
    hide Observe;
    assert [] + body == body;
  }

  /** T_DATA_LAST: the callback gets what came with T_DATA_MORE and this, unless this is empty. */
  lemma LastMeans(s: byte, conns: seq<Conn>, c: byte, body: seq<byte>, link: Link)
    requires c < |conns| <= 0x100 && conns[c].state == Active
    ensures var h, conn := HandleTpdu(s, conns, Tpdu(0xA0, c, body), link), conns[c];
      var whole := (if conn.chain.None? then [] else conn.chain.value) + body;
      && h.status == Ok(0) && Only(conns, h.conns, c)
      && h.callback == (if body == [] then NoCallback else Data(s, c, whole))
      && h.conns[c] == conn.(txTime := 0, chain := None,
                             hist := conn.hist + [Answered(0xA0), Final(body)] + if body == [] then [] else [Delivered(whole)])
  {
    hide Seen;
    hide Observe;
    assert [] + body == body;
  }

  predicate FirstUnused(conns: seq<Conn>, n: nat) {
    1 <= n < |conns| && conns[n].state == Idle && forall i :: 1 <= i < n ==> conns[i].state != Idle
  }

  /** T_REQUEST_T_C with no connection left: T_T_C_ERROR, reason 1. */
  lemma RequestRefused(s: byte, conns: seq<Conn>, c: byte, body: seq<byte>, link: Link)
    requires c < |conns| <= 0x100 && forall i :: 1 <= i < |conns| ==> conns[i].state != Idle
    ensures var h, conn := HandleTpdu(s, conns, Tpdu(0x86, c, body), link), conns[c];
      && h.callback == NoCallback && Only(conns, h.conns, c)
      && (link.first ==> h.status == Ok(0) && h.conns[c] == conn.(txTime := 0, hist := conn.hist + [Wrote([0x77, 2, c, 1]), Answered(0x86)]))
      && (!link.first ==> h.status == Failed(CaWrite) && h.conns == conns)
  {
    hide Seen;
    hide Observe;
  }

  lemma Joins(h: seq<Event>, a: Event, b: Event)
    ensures h + [a] + [b] == h + [a, b]
  {
  }

  lemma GrantMeans(conn: Conn, c: byte, n: byte)
    ensures Grant(conn, c, n) == conn.(txTime := 0, hist := conn.hist + [Wrote([0x87, 2, c, n]), Answered(0x86)])
  {
    hide Seen;
    hide Observe;
    Joins(conn.hist, Wrote([0x87, 2, c, n]), Answered(0x86));
  }

  /** T_REQUEST_T_C: T_NEW_T_C on the connection it came on, T_CREATE_T_C on the new one, which may be the
      same; if a write fails the new one is unused again. */
  lemma RequestGranted(s: byte, conns: seq<Conn>, c: byte, n: byte, body: seq<byte>, link: Link)
    requires c < |conns| <= 0x100 && FirstUnused(conns, n)
    ensures var h, taken := HandleTpdu(s, conns, Tpdu(0x86, c, body), link),
              conns[n].(state := InCreation, chain := None, hist := conns[n].hist + [Allocated]);
      var asking := if c == n then taken else conns[c];
      var granted := asking.(txTime := 0, hist := asking.hist + [Wrote([0x87, 2, c, n]), Answered(0x86)]);
      var given := if c == n then granted else taken;
      if link.first && link.second then
        && h.status == Ok(0) && h.callback == CamConnectionOpen(s, n)
        && h.conns == conns[c := granted][n := given.(txTime := link.now, hist := given.hist + [Wrote([0x82, 1, n])])]
      else
        && h.status == Failed(CaWrite) && h.callback == NoCallback
        && h.conns == if link.first then conns[c := granted][n := given.(state := Idle)] else conns[n := taken.(state := Idle)]
  {
    hide Seen;
    hide Observe;
    var taken := Allocate(conns[n]);
    var asking := if c == n then taken else conns[c];
    GrantMeans(asking, c, n);
    hide Grant;
    assert FirstIdle(conns, 1) == Some(n);
    assert Granted(conns, c, n) == conns[n := taken][c := Grant(asking, c, n)];
    var given := if c == n then Grant(asking, c, n) else taken;
    PutTwice(conns, c, n, taken, Grant(asking, c, n), given.(state := Idle));
    PutTwice(conns, c, n, taken, Grant(asking, c, n), Create(given, n, link.now));
    PutTwice(conns, c, n, taken, Grant(asking, c, n), taken.(state := Idle));
  }

  lemma PutTwice(conns: seq<Conn>, c: nat, n: nat, a: Conn, b: Conn, x: Conn)
    requires c < |conns| && n < |conns|
    ensures conns[n := a][c := b][n := x] == conns[c := b][n := x] && conns[n := a][n := x] == conns[n := x]
  {
  }

  /** Every other TPDU is refused and changes nothing. */
  lemma OtherwiseRefused(s: byte, conns: seq<Conn>, t: Tpdu, link: Link)
    requires |conns| <= 0x100
    requires t.conn < |conns| ==>
      var state := conns[t.conn].state;
      && t.tag != 0x86 && (t.tag == 0x83 ==> state != InCreation) && (t.tag == 0x84 ==> state != Active && state != InDeletion)
      && (t.tag == 0x85 ==> state != InDeletion) && (t.tag == 0xA0 || t.tag == 0xA1 ==> state != Active)
      && (t.tag == 0x80 ==> state != Active || |t.body| != 1)
    ensures HandleTpdu(s, conns, t, link) == Handled(conns, Failed(if t.conn < |conns| then BadCamData else BadConnectionId), NoCallback)
  {
    hide Seen;
    hide Observe;
  }

  // ---------------------------------------------------------------- calls of the host

  /** en50221_tl_create: every slot free, every connection idle with nothing queued, kept or timed. */
  lemma CreatedMeans(maxSlots: byte, maxConns: byte)
    ensures var slots := Created(maxSlots, maxConns);
      |slots| == maxSlots && forall s :: 0 <= s < |slots| ==>
        && slots[s] == Slot(-1, 0, 0, 0, slots[s].conns) && |slots[s].conns| == maxConns
        && forall c :: 0 <= c < |slots[s].conns| ==> slots[s].conns[c] == Conn(Idle, 0, 0, None, [], [])
  {
  }

  /** TPDUs for a slot that is not registered, and polls of such a slot or a connection it does not have, do nothing;
      a TPDU for a registered one goes to the connections of that slot. */
  lemma ReceivedBy(slots: seq<Slot>, s: byte, t: Tpdu, c: byte, link: Link)
    requires Sized(slots)
    ensures var known, o := s < |slots| && slots[s].handle != -1, Next(slots, Receive(s, t, link));
      && (!known ==> o == Outcome(slots, Ok(0), NoCallback))
      && (known ==>
        var h := HandleTpdu(s, slots[s].conns, t, link);
        o == Outcome(slots[s := slots[s].(conns := h.conns)], h.status, h.callback))
      && (!known || c >= |slots[s].conns| ==> Next(slots, Poll(s, c, link)) == Outcome(slots, Ok(0), NoCallback))
  {
    hide HandleTpdu;
  }

  /** en50221_tl_new_tc: the first unused connection and a T_CREATE_T_C in its queue. */
  lemma NewTcMeans(slots: seq<Slot>, s: byte, c: byte)
    requires Sized(slots) && s < |slots| && slots[s].handle != -1 && FirstUnused(slots[s].conns, c)
    ensures var o, conn := Next(slots, NewTc(s)), slots[s].conns[c];
      var m: Message := [0x82, 1, c];
      && o.status == Ok(c) && o.callback == NoCallback
      && o.slots == slots[s := slots[s].(conns := slots[s].conns[c := conn.(state := InCreation, chain := None,
           queue := conn.queue + [m], hist := conn.hist + [Allocated, Queued(m)])])]
  {
    var conn := slots[s].conns[c];
    var m: Message := [0x82, 1, c];
    Joins(conn.hist, Allocated, Queued(m));
    assert FirstIdle(slots[s].conns, 1) == Some(c);
    hide Seen;
    hide Observe;
  }

  /** en50221_tl_del_tc: a T_DELETE_T_C behind what is queued. */
  lemma DelTcMeans(slots: seq<Slot>, s: byte, c: byte)
    requires Sized(slots) && s < |slots| && slots[s].handle != -1 && c < |slots[s].conns|
    requires slots[s].conns[c].state == Active || slots[s].conns[c].state == InDeletion
    ensures var o, conn := Next(slots, DelTc(s, c)), slots[s].conns[c];
      var m: Message := [0x84, 1, c];
      && o.status == Ok(0) && o.callback == NoCallback
      && o.slots == slots[s := slots[s].(conns := slots[s].conns[c := conn.(state := ActiveDeleteQueued,
           queue := conn.queue + [m], hist := conn.hist + [Queued(m)])])]
  {
    hide Seen;
    hide Observe;
  }

  /** en50221_tl_destroy_slot: the slot is free and its connections are as at the start. */
  lemma DestroyMeans(slots: seq<Slot>, s: byte)
    requires Sized(slots) && s < |slots|
    ensures var o := Next(slots, DestroySlot(s));
      && o.callback == SlotClose(s) && o.slots[s].handle == -1
      && (forall c :: 0 <= c < |slots[s].conns| ==>
        o.slots[s].conns[c] == Conn(Idle, 0, 0, None, [], slots[s].conns[c].hist + [Flushed]))
      && forall k :: 0 <= k < |slots| && k != s ==> o.slots[k] == slots[k]
  {
    hide Seen;
    hide Observe;
  }

  /** en50221_tl_register_slot: the first free slot gets the parameters and keeps its connections. */
  lemma RegisterMeans(slots: seq<Slot>, handle: int, cam: byte, timeout: nat, delay: nat, s: nat)
    requires Sized(slots) && s < |slots| && slots[s].handle == -1 && forall i :: 0 <= i < s ==> slots[i].handle != -1
    ensures Next(slots, Register(handle, cam, timeout, delay)) ==
      Outcome(slots[s := Slot(handle, cam, timeout, delay, slots[s].conns)], Ok(s), NoCallback)
  {
    FreeFrom(slots, s, 0);
  }

  lemma {:induction false} FreeFrom(slots: seq<Slot>, s: nat, from: nat)
    requires from <= s < |slots| && slots[s].handle == -1 && forall i :: 0 <= i < s ==> slots[i].handle != -1
    ensures FirstFreeSlot(slots, from) == Some(s)
    decreases s - from
  {
    if from < s { FreeFrom(slots, s, from + 1); }
  }

  /** The calls that fail: slot, then connection, then its state. */
  lemma CallsFail(slots: seq<Slot>, s: byte, c: byte, data: seq<byte>)
    requires Sized(slots)
    ensures var known := s < |slots| && slots[s].handle != -1;
      && (!known ==> Next(slots, NewTc(s)) == Next(slots, DelTc(s, c)) == Next(slots, SendData(s, c, data)) == Outcome(slots, Failed(BadSlotId), NoCallback))
      && (known && c >= |slots[s].conns| ==>
        Next(slots, DelTc(s, c)) == Next(slots, SendData(s, c, data)) == Outcome(slots, Failed(BadConnectionId), NoCallback))
      && (known && c < |slots[s].conns| && slots[s].conns[c].state != Active ==>
        && Next(slots, SendData(s, c, data)) == Outcome(slots, Failed(BadConnectionId), NoCallback)
        && (slots[s].conns[c].state != InDeletion ==> Next(slots, DelTc(s, c)) == Outcome(slots, Failed(BadState), NoCallback)))
      && (known && (forall i :: 1 <= i < |slots[s].conns| ==> slots[s].conns[i].state != Idle) ==>
        Next(slots, NewTc(s)) == Outcome(slots, Failed(OutOfConnections), NoCallback))
  {
    hide Seen;
    hide Observe;
  }
}
