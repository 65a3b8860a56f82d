/** What the transport layer's data callback is called with, over whole runs. */
module TransportCallbacks {
  import opened Bytes
  import opened Connection
  import opened Transport

  /** What a callback hands to the data callback of one connection. */
  function Given(cb: Callback, s: byte, c: byte): seq<seq<byte>> {
    if cb.Data? && cb.slot == s && cb.conn == c then [cb.data] else []
  }

  function DeliveredSoFar(conn: Conn): seq<seq<byte>> { Seen(conn.hist).delivered }

  lemma RequestDeliversNothing(slot: byte, conns: seq<Conn>, from: byte, link: Link, c: byte)
    requires c < |conns| <= 0x100 && from < |conns|
    ensures var h := HandleRequest(slot, conns, from, link);
      !h.callback.Data? && DeliveredSoFar(h.conns[c]) == DeliveredSoFar(conns[c])
  {
    hide Observe;
    hide Seen;
    var free := FirstIdle(conns, 1);
    GrantKeepsData(conns[c], from, 0);
    if free.Some? {
      var n: byte := free.value;
      var taken := Taken(conns, n)[c];
      assert DeliveredSoFar(taken) == DeliveredSoFar(conns[c]) by { NoteKeepsData(conns[c].(state := InCreation, chain := None), Allocated); }
      GrantKeepsData(taken, from, n);
      var granted := Granted(conns, from, n)[c];
      assert DeliveredSoFar(granted) == DeliveredSoFar(conns[c]);
      NoteKeepsData(granted.(txTime := link.now), Wrote([T_CREATE_T_C, 1, n]));
    }
  }

  /** A TPDU is followed by the data callback of a connection exactly when its history says so, and with
      the same octets. */
  lemma CallbackIsDelivery(slot: byte, conns: seq<Conn>, t: Tpdu, link: Link, c: byte)
    requires c < |conns| <= 0x100
    ensures var h := HandleTpdu(slot, conns, t, link);
      DeliveredSoFar(h.conns[c]) == DeliveredSoFar(conns[c]) + Given(h.callback, slot, c)
  {
    if t.conn < |conns| {
      var conn := conns[t.conn];
      if t.tag == T_REQUEST_T_C {
        RequestDeliversNothing(slot, conns, t.conn, link, c);
        hide HandleRequest;
        assert DeliveredSoFar(conns[c]) + [] == DeliveredSoFar(conns[c]);
      } else {
        TouchesOne(slot, conns, t, link);
        if t.tag == T_DATA_MORE || t.tag == T_DATA_LAST {
          DataDelivery(slot, conns, t, link);
        } else {
          ControlDelivery(slot, conns, t, link);
        }
        hide HandleTpdu;
        assert DeliveredSoFar(conns[c]) + [] == DeliveredSoFar(conns[c]);
      }
    }
  }

  lemma TouchesOne(slot: byte, conns: seq<Conn>, t: Tpdu, link: Link)
    requires t.conn < |conns| <= 0x100 && t.tag != T_REQUEST_T_C
    ensures var h := HandleTpdu(slot, conns, t, link);
      h.conns == conns[t.conn := h.conns[t.conn]] && (h.callback.Data? ==> h.callback.slot == slot && h.callback.conn == t.conn)
  {
    hide Answer;
    hide AcceptMore;
    hide AcceptLast;
    hide AcceptDelete;
    hide AcceptSb;
  }

  lemma MoreHandled(slot: byte, conns: seq<Conn>, t: Tpdu, link: Link)
    requires t.conn < |conns| <= 0x100 && t.tag == T_DATA_MORE
    ensures HandleTpdu(slot, conns, t, link) ==
      if conns[t.conn].state == Active then Handled(conns[t.conn := AcceptMore(conns[t.conn], t.body)], Ok(0), NoCallback)
      else Handled(conns, Failed(BadCamData), NoCallback)
  {
    hide AcceptMore;
  }

  lemma LastHandled(slot: byte, conns: seq<Conn>, t: Tpdu, link: Link)
    requires t.conn < |conns| <= 0x100 && t.tag == T_DATA_LAST
    ensures HandleTpdu(slot, conns, t, link) ==
      if conns[t.conn].state == Active then Handled(conns[t.conn := AcceptLast(conns[t.conn], t.body)], Ok(0),
        if |t.body| > 0 then Data(slot, t.conn, Joined(conns[t.conn].chain, t.body)) else NoCallback)
      else Handled(conns, Failed(BadCamData), NoCallback)
  {
    hide AcceptLast;
    hide Joined;
  }

  lemma DataDelivery(slot: byte, conns: seq<Conn>, t: Tpdu, link: Link)
    requires t.conn < |conns| <= 0x100 && (t.tag == T_DATA_MORE || t.tag == T_DATA_LAST)
    ensures var h := HandleTpdu(slot, conns, t, link);
      DeliveredSoFar(h.conns[t.conn]) == DeliveredSoFar(conns[t.conn]) + Given(h.callback, slot, t.conn)
  {
    hide HandleTpdu;
    hide AcceptMore;
    hide AcceptLast;
    hide DeliveredSoFar;
    var conn := conns[t.conn];
    assert DeliveredSoFar(conn) + [] == DeliveredSoFar(conn);
    if t.tag == T_DATA_MORE {
      MoreDelivers(conn, t.body);
      MoreHandled(slot, conns, t, link);
    } else {
      LastDelivers(conn, t.body);
      LastHandled(slot, conns, t, link);
    }
  }

  lemma ControlDelivery(slot: byte, conns: seq<Conn>, t: Tpdu, link: Link)
    requires t.conn < |conns| <= 0x100 && t.tag != T_REQUEST_T_C && t.tag != T_DATA_MORE && t.tag != T_DATA_LAST
    ensures var h := HandleTpdu(slot, conns, t, link);
      !h.callback.Data? && DeliveredSoFar(h.conns[t.conn]) == DeliveredSoFar(conns[t.conn])
  {
    var conn := conns[t.conn];
    assert DeliveredSoFar(conn) == DeliveredSoFar(conn.(state := Active)) == DeliveredSoFar(conn.(state := Idle));
    hide Answer;
    hide AcceptDelete;
    hide AcceptSb;
    hide DeliveredSoFar;
    AnswerDelivers(conn.(state := Active), t.tag);
    DeleteDelivers(conn, t.conn, link.first);
    if |t.body| == 1 { SbDelivers(conn, t.conn, t.body[0], link.now, link.first); }
  }

  lemma SbDelivers(conn: Conn, id: byte, flags: byte, now: nat, ok: bool)
    ensures DeliveredSoFar(AcceptSb(conn, id, flags, now, ok).0) == DeliveredSoFar(conn)
  {
    AnswerDelivers(conn, T_SB);
    NoteKeepsData(conn.(txTime := now), Wrote([T_RCV, 1, id]));
  }

  lemma AnswerDelivers(conn: Conn, tag: byte)
    ensures DeliveredSoFar(Answer(conn, tag)) == DeliveredSoFar(conn)
  {
    NoteKeepsData(conn.(txTime := 0), Answered(tag));
  }

  lemma DeleteDelivers(conn: Conn, id: byte, ok: bool)
    ensures DeliveredSoFar(AcceptDelete(conn, id, ok).0) == DeliveredSoFar(conn)
  {
    var d := conn.(state := Idle, chain := None);
    NoteKeepsData(d, Closed);
    NoteKeepsData(Note(d, Closed), Wrote([T_D_T_C_REPLY, 1, id]));
  }

  lemma MoreDelivers(conn: Conn, body: seq<byte>)
    ensures DeliveredSoFar(AcceptMore(conn, body)) == DeliveredSoFar(conn)
  {
    AnswerDelivers(conn, T_DATA_MORE);
    NoteKeepsData(Answer(conn, T_DATA_MORE).(chain := Some(Joined(conn.chain, body))), Fragment(body));
  }

  lemma LastDelivers(conn: Conn, body: seq<byte>)
    ensures DeliveredSoFar(AcceptLast(conn, body)) == DeliveredSoFar(conn) + if |body| > 0 then [Joined(conn.chain, body)] else []
  {
    AnswerDelivers(conn, T_DATA_LAST);
    NoteKeepsData(Answer(conn, T_DATA_LAST).(chain := None), Final(body));
  }

  /** The packets the data callback of a connection gets in a run. */
  function Callbacks(slots: seq<Slot>, steps: seq<Step>, s: byte, c: byte): seq<seq<byte>>
    requires Sized(slots)
    decreases |steps|
  {
    if steps == [] then [] else
      var o := Next(slots, steps[0]);
      Given(o.callback, s, c) + Callbacks(o.slots, steps[1..], s, c)
  }

  lemma StepCallback(slots: seq<Slot>, step: Step, s: byte, c: byte)
    requires Sized(slots) && AllGood(slots) && IsActive(slots, s, c) && KeepsOpen(step, s, c)
    ensures var o := Next(slots, step);
      IsActive(o.slots, s, c) && DeliveredSoFar(o.slots[s].conns[c]) == DeliveredSoFar(slots[s].conns[c]) + Given(o.callback, s, c)
  {
    StepOnActive(slots, step, s, c);
    if step.Receive? {
      if step.slot == s {
        CallbackIsDelivery(s, slots[s].conns, step.tpdu, step.link, c);
        hide HandleTpdu;
      } else if Registered(slots, step.slot) {
        OwnSlot(step.slot, slots[step.slot].conns, step.tpdu, step.link);
        hide HandleTpdu;
      }
    }
  }

  lemma OwnSlot(slot: byte, conns: seq<Conn>, t: Tpdu, link: Link)
    requires |conns| <= 0x100
    ensures var cb := HandleTpdu(slot, conns, t, link).callback; cb.Data? ==> cb.slot == slot
  {
  }

  /** Over every run the data callback of an active connection is called with the joined MORE* LAST groups
      addressed to it, and with nothing else, whatever is received for other connections. */
  lemma {:induction false} CallbacksAreTheGroups(slots: seq<Slot>, steps: seq<Step>, s: byte, c: byte)
    requires Sized(slots) && AllGood(slots) && IsActive(slots, s, c)
    requires forall step :: step in steps ==> KeepsOpen(step, s, c)
    ensures Assemble(Progress(slots[s].conns[c]), DataFor(steps, s, c)).packets
      == DeliveredSoFar(slots[s].conns[c]) + Callbacks(slots, steps, s, c)
    decreases |steps|
  {
    hide Next;
    Reassembly(slots, steps, s, c);
    DeliveredInRun(slots, steps, s, c);
  }

  lemma {:induction false} DeliveredInRun(slots: seq<Slot>, steps: seq<Step>, s: byte, c: byte)
    requires Sized(slots) && AllGood(slots) && IsActive(slots, s, c)
    requires forall step :: step in steps ==> KeepsOpen(step, s, c)
    ensures IsActive(Run(slots, steps), s, c)
    ensures DeliveredSoFar(Run(slots, steps)[s].conns[c]) == DeliveredSoFar(slots[s].conns[c]) + Callbacks(slots, steps, s, c)
    decreases |steps|
  {
    hide Next;
    hide KeepsOpen;
    hide AllGood;
    hide DeliveredSoFar;
    hide Given;
    if steps != [] {
      var o := Next(slots, steps[0]);
      StepCallback(slots, steps[0], s, c);
      NextGood(slots, steps[0]);
      DeliveredInRun(o.slots, steps[1..], s, c);
      var d, first, rest := DeliveredSoFar(slots[s].conns[c]), Given(o.callback, s, c), Callbacks(o.slots, steps[1..], s, c);
      assert d + first + rest == d + (first + rest);
    }
  }
}
