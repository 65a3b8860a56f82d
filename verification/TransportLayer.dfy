/** struct en50221_transport_layer as an object: the functions of
    lib/libdvben50221/en50221_transport.c as methods that update its slots, each proved to take the
    step of the state machine in module Transport. */
module TransportObject {
  import opened Bytes
  import Asn1
  import opened Connection
  import opened Transport
  import opened TransportCallbacks

  class TransportLayer {
    var slots: seq<Slot>

    ghost predicate Valid()
      reads this
    {
      Sized(slots)
    }

    /** en50221_tl_create */
    constructor (maxSlots: byte, maxConns: byte)
      ensures Valid() && slots == Created(maxSlots, maxConns)
    {
      var made: seq<Slot> := [];
      var i := 0;
      while i < maxSlots
        invariant i <= maxSlots && |made| == i
        invariant forall k :: 0 <= k < i ==> made[k] == Created(maxSlots, maxConns)[k]
      {
        var conns: seq<Conn> := [];
        var j := 0;
        while j < maxConns
          invariant j <= maxConns && |conns| == j
          invariant forall k :: 0 <= k < j ==> conns[k] == Fresh
        {
          conns := conns + [Fresh];
          j := j + 1;
        }
        assert conns == seq(maxConns, _ => Fresh);
        made := made + [Slot(-1, 0, 0, 0, conns)];
        i := i + 1;
      }
      slots := made;
    }

    /** en50221_tl_register_slot: takes the first slot that is not in use. */
    method RegisterSlot(handle: int, cam: byte, timeout: nat, pollDelay: nat) returns (status: Status)
      requires Valid()
      modifies this
      ensures Valid()
      ensures var o := Next(old(slots), Register(handle, cam, timeout, pollDelay)); slots == o.slots && status == o.status
    {
      var i := 0;
      while i < |slots| && slots[i].handle != -1
        invariant i <= |slots| && slots == old(slots)
        invariant FirstFreeSlot(slots, 0) == FirstFreeSlot(slots, i)
      {
        i := i + 1;
      }
      if i == |slots| { return Failed(OutOfSlots); }
      slots := slots[i := slots[i].(handle := handle, cam := cam, timeout := timeout, pollDelay := pollDelay)];
      return Ok(i);
    }

    /** en50221_tl_destroy_slot: resets every connection; the callback is SLOTCLOSE. */
    method Destroy(s: byte) returns (callback: Callback)
      requires Valid()
      modifies this
      ensures Valid()
      ensures var o := Next(old(slots), DestroySlot(s)); slots == o.slots && callback == o.callback
    {
      if s >= |slots| { return NoCallback; }
      var conns := slots[s].conns;
      ghost var before := conns;
      var i := 0;
      while i < |conns|
        invariant i <= |conns| == |before|
        invariant forall k :: 0 <= k < i ==> conns[k] == Flush(before[k])
        invariant forall k :: i <= k < |conns| ==> conns[k] == before[k]
      {
        conns := conns[i := Flush(conns[i])];
        i := i + 1;
      }
      assert conns == FlushAll(before);
      slots := slots[s := slots[s].(handle := -1, conns := conns)];
      return SlotClose(s);
    }

    /** en50221_tl_send_data: header, length field, connection id and data, then queue_message. */
    method Send(s: byte, c: byte, data: seq<byte>) returns (status: Status)
      requires Valid()
      modifies this
      ensures Valid()
      ensures var o := Next(old(slots), SendData(s, c, data)); slots == o.slots && status == o.status
    {
      if s >= |slots| || slots[s].handle == -1 { return Failed(BadSlotId); }
      if c >= |slots[s].conns| { return Failed(BadConnectionId); }
      if slots[s].conns[c].state != Active { return Failed(BadConnectionId); }
      var head := new byte[4];
      head[0] := T_DATA_LAST;
      var n := Asn1.Encode((|data| + 1) % 0x1_0000, head, 1, 3);
      assert head[..1 + n] == [T_DATA_LAST] + Asn1.LengthField((|data| + 1) % 0x1_0000);
      var msg: Message := head[..1 + n] + [c] + data;
      slots := WithConn(slots, s, c, Enqueue(slots[s].conns[c], msg));
      return Ok(0);
    }

    /** en50221_tl_send_datav: the same message from scattered pieces. */
    method SendVector(s: byte, c: byte, vector: seq<seq<byte>>) returns (status: Status)
      requires Valid()
      modifies this
      ensures Valid()
      ensures var o := Next(old(slots), SendData(s, c, Flatten(vector))); slots == o.slots && status == o.status
    {
      var data: seq<byte> := [];
      var i := 0;
      while i < |vector|
        invariant i <= |vector| && Flatten(vector) == data + Flatten(vector[i..])
      {
        assert vector[i..][1..] == vector[i + 1..];
        data := data + vector[i];
        i := i + 1;
      }
      assert vector[i..] == [] && Flatten(vector) == data;
      status := Send(s, c, data);
    }

    /** The search loop of en50221_tl_alloc_new_tc. */
    method FindIdle(s: byte) returns (conid: Option<nat>)
      requires Valid() && s < |slots|
      ensures conid == FirstIdle(slots[s].conns, 1)
    {
      var i := 1;
      while i < |slots[s].conns|
        invariant 1 <= i
        invariant FirstIdle(slots[s].conns, 1) == FirstIdle(slots[s].conns, i)
      {
        if slots[s].conns[i].state == Idle { return Some(i); }
        i := i + 1;
      }
      return None;
    }

    /** en50221_tl_new_tc */
    method NewConnection(s: byte) returns (status: Status)
      requires Valid()
      modifies this
      ensures Valid()
      ensures var o := Next(old(slots), NewTc(s)); slots == o.slots && status == o.status
    {
      if s >= |slots| || slots[s].handle == -1 { return Failed(BadSlotId); }
      var conid := FindIdle(s);
      if conid.None? { return Failed(OutOfConnections); }
      var c := conid.value;
      var conn := Allocate(slots[s].conns[c]);
      conn := Enqueue(conn, [T_CREATE_T_C, 1, c]);
      slots := WithConn(slots, s, c, conn);
      return Ok(c);
    }

    /** en50221_tl_del_tc */
    method DeleteConnection(s: byte, c: byte) returns (status: Status)
      requires Valid()
      modifies this
      ensures Valid()
      ensures var o := Next(old(slots), DelTc(s, c)); slots == o.slots && status == o.status
    {
      if s >= |slots| || slots[s].handle == -1 { return Failed(BadSlotId); }
      if c >= |slots[s].conns| { return Failed(BadConnectionId); }
      var conn := slots[s].conns[c];
      if conn.state != Active && conn.state != InDeletion { return Failed(BadState); }
      conn := Enqueue(conn, [T_DELETE_T_C, 1, c]);
      conn := conn.(state := ActiveDeleteQueued);
      slots := WithConn(slots, s, c, conn);
      return Ok(0);
    }

    /** One turn of the connection loop of en50221_tl_poll: queue, poll, timeout. */
    method PollConnection(s: byte, c: byte, link: Link) returns (status: Status)
      requires Valid() && Registered(slots, s) && c < |slots[s].conns|
      modifies this
      ensures Valid()
      ensures var o := Next(old(slots), Poll(s, c, link)); slots == o.slots && status == o.status
    {
      hide Seen;
      hide Observe;
      var slot := slots[s];
      var conn := slot.conns[c];
      if conn.state == Idle {
        assert slot.conns[c := conn] == slot.conns;
        return Ok(0);
      }
      if conn.state != InDeletion && conn.queue != [] && conn.txTime == 0 {
        var msg := conn.queue[0];
        conn := conn.(queue := conn.queue[1..]);
        if !link.first {
          slots := WithConn(slots, s, c, Note(conn, Lost(msg)));
          return Failed(CaWrite);
        }
        conn := conn.(txTime := link.now);
        if IsDelete(msg) { conn := conn.(state := InDeletion, chain := None); }
        conn := Note(conn, Sent(msg));
      }
      assert SendQueued(slot.conns[c], link.now, link.first) == (conn, Ok(0));
      ghost var sent := conn;
      if conn.state == Active && conn.txTime == 0 && TimeAfter(conn.lastPoll, slot.pollDelay, link.now) {
        conn := conn.(lastPoll := link.now, txTime := link.now);
        if !link.second {
          slots := WithConn(slots, s, c, conn);
          return Failed(CaWrite);
        }
        conn := Note(conn, Wrote(PollMessage(c)));
      }
      assert PollIfDue(sent, c, slot.pollDelay, link.now, link.second) == (conn, Ok(0));
      status := Ok(0);
      if conn.txTime != 0 && TimeAfter(conn.txTime, slot.timeout, link.now) {
        if conn.state == InCreation || conn.state == InDeletion {
          conn := conn.(state := Idle);
        } else if conn.state == Active || conn.state == ActiveDeleteQueued {
          status := Failed(Timeout);
        }
      }
      slots := WithConn(slots, s, c, conn);
    }

    /** The connection loop of en50221_tl_poll for one slot: it is a run of poll steps, ended by
        the first error. */
    method PollSlot(s: byte, links: nat -> Link) returns (status: Status, ghost steps: seq<Step>)
      requires Valid() && Registered(slots, s)
      modifies this
      ensures Valid() && slots == Run(old(slots), steps)
      ensures |steps| <= |old(slots)[s].conns| && forall k :: 0 <= k < |steps| ==> steps[k] == Poll(s, k, links(k))
      ensures status.Ok? ==> |steps| == |old(slots)[s].conns|
    {
      steps := [];
      var j := 0;
      while j < |slots[s].conns|
        invariant Valid() && Registered(slots, s) && |slots[s].conns| == |old(slots)[s].conns|
        invariant |steps| == j <= |slots[s].conns| && slots == Run(old(slots), steps)
        invariant forall k :: 0 <= k < j ==> steps[k] == Poll(s, k, links(k))
      {
        RunSnoc(old(slots), steps, Poll(s, j, links(j)));
        status := PollConnection(s, j, links(j));
        steps := steps + [Poll(s, j, links(j))];
        if status.Failed? { return; }
        j := j + 1;
      }
      status := Ok(0);
    }

    /** en50221_tl_handle_create_tc_reply */
    method HandleCreateReply(s: byte, t: Tpdu, link: Link) returns (status: Status, callback: Callback)
      requires Valid() && Registered(slots, s) && t.conn < |slots[s].conns| && t.tag == T_C_T_C_REPLY
      modifies this
      ensures Valid()
      ensures var h := HandleTpdu(s, old(slots)[s].conns, t, link);
              slots == WithConns(old(slots), s, h.conns) && status == h.status && callback == h.callback
    {
      var c := t.conn;
      var conn := slots[s].conns[c];
      assert slots[s].conns[c := conn] == slots[s].conns;
      status, callback := Failed(BadCamData), NoCallback;
      if conn.state == InCreation {
        conn := Answer(conn.(state := Active), t.tag);
        status, callback := Ok(0), ConnectionOpen(s, c);
      }
      slots := WithConn(slots, s, c, conn);
    }

    /** en50221_tl_handle_delete_tc */
    method HandleDelete(s: byte, t: Tpdu, link: Link) returns (status: Status, callback: Callback)
      requires Valid() && Registered(slots, s) && t.conn < |slots[s].conns| && t.tag == T_DELETE_T_C
      modifies this
      ensures Valid()
      ensures var h := HandleTpdu(s, old(slots)[s].conns, t, link);
              slots == WithConns(old(slots), s, h.conns) && status == h.status && callback == h.callback
    {
      var c := t.conn;
      var conn := slots[s].conns[c];
      assert slots[s].conns[c := conn] == slots[s].conns;
      status, callback := Failed(BadCamData), NoCallback;
      if conn.state == Active || conn.state == InDeletion {
        conn := Note(conn.(state := Idle, chain := None), Closed);
        if link.first {
          conn := Note(conn, Wrote([T_D_T_C_REPLY, 1, c]));
          status, callback := Ok(0), ConnectionClose(s, c);
        } else {
          status := Failed(CaWrite);
        }
      }
      slots := WithConn(slots, s, c, conn);
    }

    /** en50221_tl_handle_delete_tc_reply */
    method HandleDeleteReply(s: byte, t: Tpdu, link: Link) returns (status: Status, callback: Callback)
      requires Valid() && Registered(slots, s) && t.conn < |slots[s].conns| && t.tag == T_D_T_C_REPLY
      modifies this
      ensures Valid()
      ensures var h := HandleTpdu(s, old(slots)[s].conns, t, link);
              slots == WithConns(old(slots), s, h.conns) && status == h.status && callback == h.callback
    {
      var c := t.conn;
      var conn := slots[s].conns[c];
      assert slots[s].conns[c := conn] == slots[s].conns;
      status, callback := Failed(BadCamData), NoCallback;
      if conn.state == InDeletion {
        conn := conn.(state := Idle);
        status := Ok(0);
      }
      slots := WithConn(slots, s, c, conn);
    }

    /** en50221_tl_handle_data_more */
    method HandleMore(s: byte, t: Tpdu, link: Link) returns (status: Status, callback: Callback)
      requires Valid() && Registered(slots, s) && t.conn < |slots[s].conns| && t.tag == T_DATA_MORE
      modifies this
      ensures Valid()
      ensures var h := HandleTpdu(s, old(slots)[s].conns, t, link);
              slots == WithConns(old(slots), s, h.conns) && status == h.status && callback == h.callback
    {
      MoreHandled(s, slots[s].conns, t, link);
      hide HandleTpdu;
      var c := t.conn;
      var conn := slots[s].conns[c];
      assert slots[s].conns[c := conn] == slots[s].conns;
      status, callback := Failed(BadCamData), NoCallback;
      if conn.state == Active {
        conn := Answer(conn, t.tag);
        conn := conn.(chain := Some(if conn.chain.None? then t.body else conn.chain.value + t.body));
        conn := Note(conn, Fragment(t.body));
        status := Ok(0);
      }
      slots := WithConn(slots, s, c, conn);
    }

    /** en50221_tl_handle_data_last; the callback is returned to the caller, which makes it next. */
    method HandleLast(s: byte, t: Tpdu, link: Link) returns (status: Status, callback: Callback)
      requires Valid() && Registered(slots, s) && t.conn < |slots[s].conns| && t.tag == T_DATA_LAST
      modifies this
      ensures Valid()
      ensures var h := HandleTpdu(s, old(slots)[s].conns, t, link);
              slots == WithConns(old(slots), s, h.conns) && status == h.status && callback == h.callback
    {
      LastHandled(s, slots[s].conns, t, link);
      hide HandleTpdu;
      var c := t.conn;
      var conn := slots[s].conns[c];
      assert slots[s].conns[c := conn] == slots[s].conns;
      status, callback := Failed(BadCamData), NoCallback;
      if conn.state == Active {
        conn := Answer(conn, t.tag);
        var data := if conn.chain.None? then t.body else conn.chain.value + t.body;
        conn := Note(conn.(chain := None), Final(t.body));
        if |t.body| > 0 {
          conn := Note(conn, Delivered(data));
          callback := Data(s, c, data);
        }
        status := Ok(0);
      }
      slots := WithConn(slots, s, c, conn);
    }

    /** en50221_tl_handle_sb */
    method HandleSb(s: byte, t: Tpdu, link: Link) returns (status: Status, callback: Callback)
      requires Valid() && Registered(slots, s) && t.conn < |slots[s].conns| && t.tag == T_SB
      modifies this
      ensures Valid()
      ensures var h := HandleTpdu(s, old(slots)[s].conns, t, link);
              slots == WithConns(old(slots), s, h.conns) && status == h.status && callback == h.callback
    {
      var c := t.conn;
      var conn := slots[s].conns[c];
      assert slots[s].conns[c := conn] == slots[s].conns;
      status, callback := Failed(BadCamData), NoCallback;
      if conn.state == Active && |t.body| == 1 {
        if t.body[0] < 0x80 {
          conn := Answer(conn, t.tag);
          status := Ok(0);
        } else if link.first {
          conn := Note(conn.(txTime := link.now), Wrote([T_RCV, 1, c]));
          status := Ok(0);
        } else {
          status := Failed(CaWrite);
        }
      }
      slots := WithConn(slots, s, c, conn);
    }

    /** The dispatch of en50221_tl_process_data for one TPDU. */
    method Handle(s: byte, t: Tpdu, link: Link) returns (status: Status, callback: Callback)
      requires Valid() && Registered(slots, s)
      modifies this
      ensures Valid()
      ensures var o := Next(old(slots), Receive(s, t, link)); slots == o.slots && status == o.status && callback == o.callback
    {
      UnknownTpdu(s, slots[s].conns, t, link);
      assert WithConns(slots, s, slots[s].conns) == slots;
      hide HandleRequest;
      RequestTpdu(s, slots[s].conns, t, link);
      hide HandleTpdu;
      status, callback := Failed(BadCamData), NoCallback;
      if t.conn >= |slots[s].conns| { return Failed(BadConnectionId), NoCallback; }
      if t.tag == T_REQUEST_T_C { status, callback := HandleRequestTc(s, t.conn, link); }
      else if t.tag == T_C_T_C_REPLY { status, callback := HandleCreateReply(s, t, link); }
      else if t.tag == T_DELETE_T_C { status, callback := HandleDelete(s, t, link); }
      else if t.tag == T_D_T_C_REPLY { status, callback := HandleDeleteReply(s, t, link); }
      else if t.tag == T_DATA_MORE { status, callback := HandleMore(s, t, link); }
      else if t.tag == T_DATA_LAST { status, callback := HandleLast(s, t, link); }
      else if t.tag == T_SB { status, callback := HandleSb(s, t, link); }
    }

    /** en50221_tl_handle_request_tc */
    method HandleRequestTc(s: byte, c: byte, link: Link) returns (status: Status, callback: Callback)
      requires Valid() && Registered(slots, s) && c < |slots[s].conns|
      modifies this
      ensures Valid()
      ensures var h := HandleRequest(s, old(slots)[s].conns, c, link);
              slots == WithConns(old(slots), s, h.conns) && status == h.status && callback == h.callback
    {
      var conid := FindIdle(s);
      var conns := slots[s].conns;
      status, callback := Failed(CaWrite), NoCallback;
      if conid.None? {
        if link.first {
          conns := conns[c := Refuse(conns[c], c)];
          status := Ok(0);
        }
      } else {
        var n := conid.value;
        conns := conns[n := Allocate(conns[n])];
        if !link.first {
          conns := conns[n := conns[n].(state := Idle)];
        } else {
          conns := conns[c := Grant(conns[c], c, n)];
          if !link.second {
            conns := conns[n := conns[n].(state := Idle)];
          } else {
            conns := conns[n := Create(conns[n], n, link.now)];
            status, callback := Ok(0), CamConnectionOpen(s, n);
          }
        }
      }
      slots := WithConns(slots, s, conns);
    }
  }

  lemma UnknownTpdu(s: byte, conns: seq<Conn>, t: Tpdu, link: Link)
    requires |conns| <= 0x100
    ensures t.conn >= |conns| ==> HandleTpdu(s, conns, t, link) == Handled(conns, Failed(BadConnectionId), NoCallback)
    ensures t.conn < |conns| && t.tag != T_REQUEST_T_C && t.tag != T_C_T_C_REPLY && t.tag != T_DELETE_T_C && t.tag != T_D_T_C_REPLY
        && t.tag != T_DATA_MORE && t.tag != T_DATA_LAST && t.tag != T_SB
      ==> HandleTpdu(s, conns, t, link) == Handled(conns, Failed(BadCamData), NoCallback)
  {
  }

  lemma RequestTpdu(s: byte, conns: seq<Conn>, t: Tpdu, link: Link)
    requires |conns| <= 0x100
    ensures t.conn < |conns| && t.tag == T_REQUEST_T_C ==> HandleTpdu(s, conns, t, link) == HandleRequest(s, conns, t.conn, link)
  {
  }

  lemma {:induction false} RunSnoc(slots: seq<Slot>, steps: seq<Step>, step: Step)
    requires Sized(slots)
    ensures Run(slots, steps + [step]) == Next(Run(slots, steps), step).slots
    decreases |steps|
  {
    if steps == [] {
      assert [step][1..] == [];
      assert Run(slots, [step]) == Run(Next(slots, step).slots, []);
      assert steps + [step] == [step];
    } else {
      assert (steps + [step])[1..] == steps[1..] + [step];
      RunSnoc(Next(slots, steps[0]).slots, steps[1..], step);
    }
  }
}
