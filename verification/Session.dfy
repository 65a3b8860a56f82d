/** One session of lib/libdvben50221/en50221_session.c and the history it leaves behind. */
module Session {
  import opened Bytes

  const ST_SESSION_NUMBER: byte := 0x90
  const ST_OPEN_SESSION_REQ: byte := 0x91
  const ST_OPEN_SESSION_RES: byte := 0x92
  const ST_CREATE_SESSION: byte := 0x93
  const ST_CREATE_SESSION_RES: byte := 0x94
  const ST_CLOSE_SESSION_REQ: byte := 0x95
  const ST_CLOSE_SESSION_RES: byte := 0x96

  const S_STATUS_OPEN := 0x00
  const S_STATUS_CLOSE_NO_RES := 0xF0
  const S_STATUS_CLOSE_RES_UNAVAILABLE := 0xF1
  const S_STATUS_CLOSE_RES_LOW_VERSION := 0xF2
  const S_STATUS_CLOSE_RES_BUSY := 0xF3

  datatype SessionState = Idle | Active | InCreation | InDeletion

  /** What a session is allocated for; callback 0 is the null pointer. */
  datatype Binding = Binding(resource: nat, slot: byte, conn: byte, callback: nat)

  datatype Event =
    | Bound(to: Binding)                                       // alloc_new_session
    | Opened                                                   // became ACTIVE
    | Closing                                                  // became IN_DELETION
    | Ended                                                    // became IDLE
    | Apdu(slot: byte, conn: byte, to: Binding, data: seq<byte>) // handed to the callback of `to`

  /** struct en50221_session; `hist` is a history variable. */
  datatype Session = Session(state: SessionState, binding: Binding, hist: seq<Event>)

  /** What the history says: the present binding, whether the session is open, and whether every
      APDU so far went to the bound callback of an open session from the bound connection. */
  datatype View = View(binding: Option<Binding>, open: bool, honest: bool)

  function Observe(v: View, e: Event): View {
    match e
    case Bound(b) => View(Some(b), false, v.honest && v.binding.None?)
    case Opened => v.(open := true)
    case Closing => v.(open := false)
    case Ended => v.(binding := None, open := false)
    case Apdu(slot, conn, to, _) => v.(honest := v.honest && v.open && v.binding == Some(to) && slot == to.slot && conn == to.conn)
  }

  function Seen(hist: seq<Event>): View {
    if hist == [] then View(None, false, true) else Observe(Seen(hist[..|hist| - 1]), hist[|hist| - 1])
  }

  /** State, binding and history agree. */
  predicate Good(s: Session) {
    var v := Seen(s.hist);
    && v.honest
    && v.binding == (if s.state == Idle then None else Some(s.binding))
    && (v.open <==> s.state == Active)
  }

  function Note(s: Session, e: Event): (t: Session)
    ensures Seen(t.hist) == Observe(Seen(s.hist), e)
    ensures t == s.(hist := t.hist) && t.hist == s.hist + [e]
  {
    assert (s.hist + [e])[..|s.hist|] == s.hist;
    s.(hist := s.hist + [e])
  }

  function Bind(s: Session, b: Binding): Session { Note(s.(state := InCreation, binding := b), Bound(b)) }

  function Open(s: Session): Session { Note(s.(state := Active), Opened) }

  function Close(s: Session): Session { Note(s.(state := InDeletion), Closing) }

  function End(s: Session): Session { Note(s.(state := Idle), Ended) }

  /** The APDUs of one accepted package, one callback each. */
  function Deliver(s: Session, slot: byte, conn: byte, apdus: seq<seq<byte>>): (t: Session)
    ensures t == s.(hist := t.hist)
    decreases |apdus|
  {
    if apdus == [] || s.binding.callback == 0 then s
    else Deliver(Note(s, Apdu(slot, conn, s.binding, apdus[0])), slot, conn, apdus[1..])
  }

  lemma {:induction false} DeliverGood(s: Session, apdus: seq<seq<byte>>)
    requires Good(s) && s.state == Active
    ensures Good(Deliver(s, s.binding.slot, s.binding.conn, apdus))
    decreases |apdus|
  {
    if apdus != [] && s.binding.callback != 0 {
      DeliverGood(Note(s, Apdu(s.binding.slot, s.binding.conn, s.binding, apdus[0])), apdus[1..]);
    }
  }

  /** The callback gets each APDU, in order. */
  lemma {:induction false} DeliverHistory(s: Session, slot: byte, conn: byte, apdus: seq<seq<byte>>)
    requires s.binding.callback != 0
    ensures Deliver(s, slot, conn, apdus).hist ==
            s.hist + seq(|apdus|, i requires 0 <= i < |apdus| => Apdu(slot, conn, s.binding, apdus[i]))
    decreases |apdus|
  {
    if apdus != [] {
      DeliverHistory(Note(s, Apdu(slot, conn, s.binding, apdus[0])), slot, conn, apdus[1..]);
    }
  }

  /** Every APDU that reached a callback came from the slot and connection its session was
      allocated for, between the opening of that session and its closing or end. */
  lemma {:induction false} HonestMeans(h: seq<Event>, j: nat)
    requires Seen(h).honest && j < |h| && h[j].Apdu?
    ensures h[j].slot == h[j].to.slot && h[j].conn == h[j].to.conn
    ensures exists i, k :: 0 <= i < k < j && h[i] == Bound(h[j].to) && h[k] == Opened
                           && (forall m :: i < m < j ==> !h[m].Bound? && !h[m].Ended?)
                           && (forall m :: k < m < j ==> !h[m].Closing?)
  {
    HonestPrefix(h, j + 1);
    assert h[..j + 1][..j] == h[..j];
    HonestPrefix(h, j);
    var i, k := OpenSince(h[..j]);
    assert h[..j][i] == h[i] && h[..j][k] == h[k];
    forall m | i < m < j ensures !h[m].Bound? && !h[m].Ended? { assert h[..j][m] == h[m]; }
    forall m | k < m < j ensures !h[m].Closing? { assert h[..j][m] == h[m]; }
  }

  lemma {:induction false} HonestPrefix(h: seq<Event>, n: nat)
    requires n <= |h| && Seen(h).honest
    ensures Seen(h[..n]).honest
    decreases |h|
  {
    if n == |h| {
      assert h[..n] == h;
    } else {
      HonestPrefix(h[..|h| - 1], n);
      assert h[..|h| - 1][..n] == h[..n];
    }
  }

  lemma {:induction false} BoundSince(h: seq<Event>) returns (i: nat)
    requires Seen(h).binding.Some?
    ensures i < |h| && h[i] == Bound(Seen(h).binding.value)
    ensures forall m :: i < m < |h| ==> !h[m].Bound? && !h[m].Ended?
  {
    var n := |h| - 1;
    if h[n].Bound? {
      i := n;
    } else {
      i := BoundSince(h[..n]);
      forall m | i < m < |h| ensures !h[m].Bound? && !h[m].Ended? { if m < n { assert h[..n][m] == h[m]; } }
    }
  }

  lemma {:induction false} OpenSince(h: seq<Event>) returns (i: nat, k: nat)
    requires Seen(h).honest && Seen(h).open && Seen(h).binding.Some?
    ensures i < k < |h| && h[i] == Bound(Seen(h).binding.value) && h[k] == Opened
    ensures forall m :: i < m < |h| ==> !h[m].Bound? && !h[m].Ended?
    ensures forall m :: k < m < |h| ==> !h[m].Closing?
  {
    var n := |h| - 1;
    if h[n] == Opened {
      k := n;
      i := BoundSince(h[..n]);
      assert h[..n][i] == h[i];
      forall m | i < m < |h| ensures !h[m].Bound? && !h[m].Ended? { if m < n { assert h[..n][m] == h[m]; } }
    } else {
      i, k := OpenSince(h[..n]);
      assert h[..n][i] == h[i] && h[..n][k] == h[k];
      forall m | i < m < |h| ensures !h[m].Bound? && !h[m].Ended? { if m < n { assert h[..n][m] == h[m]; } }
      forall m | k < m < |h| ensures !h[m].Closing? { if m < n { assert h[..n][m] == h[m]; } }
    }
  }
}
