/** APDUs from the host's send call through both protocol layers and back to a session callback. */
module RoundTrip {
  import opened Bytes
  import opened Asn1
  import C = Connection
  import opened Transport
  import S = Session
  import opened CamStack

  /** Three octets of tag, a length field and a body of that length. */
  predicate IsApdu(a: seq<byte>) {
    && |a| >= 3 && DecodeLength(a[3..]).Some?
    && |a| == 3 + DecodeLength(a[3..]).value.size + DecodeLength(a[3..]).value.length
  }

  /** An APDU as the application resources make it up. */
  function MakeApdu(tag: seq<byte>, body: seq<byte>): seq<byte>
    requires |tag| == 3 && |body| <= 0xFFFF
  {
    tag + LengthField(|body|) + body
  }

  /** It is well formed, and its tag and body are read back from it. */
  lemma MadeIsApdu(tag: seq<byte>, body: seq<byte>)
    requires |tag| == 3 && |body| <= 0xFFFF
    ensures var a := MakeApdu(tag, body);
      && IsApdu(a) && a[..3] == tag
      && a[3 + DecodeLength(a[3..]).value.size..] == body
  {
    LengthRoundTrip(|body|, body);
    assert MakeApdu(tag, body)[3..] == LengthField(|body|) + body;
  }

  /** Splitting joined APDUs gives them back. */
  lemma {:induction false} SplitOfJoined(apdus: seq<seq<byte>>)
    requires forall a :: a in apdus ==> IsApdu(a)
    ensures SplitApdus(Flatten(apdus)) == apdus
    decreases |apdus|
  {
    if apdus != [] {
      var a, rest := apdus[0], Flatten(apdus[1..]);
      assert IsApdu(a) by { assert a in apdus; }
      var f := DecodeLength(a[3..]).value;
      EncodingIsShortest(a[3..], a[3..][f.size..] + rest);
      assert Flatten(apdus)[3..] == a[3..][..f.size] + (a[3..][f.size..] + rest);
      assert Flatten(apdus)[..|a|] == a && Flatten(apdus)[|a|..] == rest;
      SplitOfJoined(apdus[1..]);
    }
  }

  /** Joining what was split gives a prefix of the data, made of well-formed APDUs only, and the
      splitter stops only where no further APDU starts. */
  lemma {:induction false} JoinOfSplit(data: seq<byte>)
    ensures var apdus := SplitApdus(data);
            && Flatten(apdus) <= data
            && (forall a :: a in apdus ==> IsApdu(a))
            && SplitApdus(data[|Flatten(apdus)|..]) == []
    decreases |data|
  {
    var apdus := SplitApdus(data);
    if apdus != [] {
      var n := |apdus[0]|;
      JoinOfSplit(data[n..]);
      var f := DecodeLength(data[3..]).value;
      EncodingIsShortest(data[3..], data[..n][3..][f.size..]);
      assert data[..n][3..] == data[3..][..f.size] + data[..n][3..][f.size..];
      assert data[n..][|Flatten(apdus[1..])|..] == data[|Flatten(apdus)|..];
      assert data == data[..n] + data[n..];
    }
  }

  /** A session that can take a package: open, with a callback, on an active connection without a
      half-received packet. */
  predicate Receptive(st: Stack, n: u16) {
    && n < |st.sessions| && st.sessions[n].state == S.Active && st.sessions[n].binding.callback != 0
    && IsActive(st.slots, st.sessions[n].binding.slot, st.sessions[n].binding.conn)
    && st.slots[st.sessions[n].binding.slot].conns[st.sessions[n].binding.conn].chain == None
  }

  function Apdus(b: S.Binding, apdus: seq<seq<byte>>): seq<S.Event> {
    seq(|apdus|, i requires 0 <= i < |apdus| => S.Apdu(b.slot, b.conn, b, apdus[i]))
  }

  function TpduOf(b: S.Binding, n: u16, apdus: seq<seq<byte>>): C.Message {
    DataTpdu(b.conn, Package(n, Flatten(apdus)))
  }

  predicate Sendable(apdus: seq<seq<byte>>) {
    (forall a :: a in apdus ==> IsApdu(a)) && 5 + |Flatten(apdus)| <= 0xFFFF
  }

  /** en50221_sl_send_data queues exactly one TPDU. */
  lemma SendQueues(st: Stack, n: u16, apdus: seq<seq<byte>>)
    requires Sized(st.slots) && Receptive(st, n)
    ensures var b := st.sessions[n].binding;
            && DoSend(st, n, Flatten(apdus)).1 == 0
            && DoSend(st, n, Flatten(apdus)).0.slots[b.slot].conns[b.conn].queue ==
               st.slots[b.slot].conns[b.conn].queue + [TpduOf(b, n, apdus)]
  {
  }

  /** The package TPDU as the module's T_DATA_LAST: the callback gets each APDU, in order. */
  lemma PackageArrives(st: Stack, n: u16, apdus: seq<seq<byte>>, link: Link, app: App)
    requires Sized(st.slots) && Receptive(st, n) && Sendable(apdus)
    ensures var b := st.sessions[n].binding;
            var step := Receive(b.slot, Tpdu(C.T_DATA_LAST, b.conn, Package(n, Flatten(apdus))), link);
            var after := StackNext(st, OnLink(step, app));
            && Next(st.slots, step).status.Ok?
            && Receptive(after, n) && after.sessions[n].binding == b
            && after.sessions[n].hist == st.sessions[n].hist + Apdus(b, apdus)
  {
    var b := st.sessions[n].binding;
    var body := Package(n, Flatten(apdus));
    LastTpdu(st.slots, b.slot, b.conn, body, link);
    var o := Next(st.slots, Receive(b.slot, Tpdu(C.T_DATA_LAST, b.conn, body), link));
    PackageDelivered(st.(slots := o.slots), n, apdus, app);
  }

  /** The transport layer hands an unfragmented packet straight to its callback. */
  lemma LastTpdu(slots: seq<Slot>, s: byte, c: byte, body: seq<byte>, link: Link)
    requires Sized(slots) && IsActive(slots, s, c) && slots[s].conns[c].chain == None && |body| > 0
    ensures var o := Next(slots, Receive(s, Tpdu(C.T_DATA_LAST, c, body), link));
            && o.status.Ok? && o.callback == Data(s, c, body)
            && IsActive(o.slots, s, c) && o.slots[s].conns[c].chain == None
  {
  }

  /** The session layer hands each APDU of a package to the callback. */
  lemma PackageDelivered(st: Stack, n: u16, apdus: seq<seq<byte>>, app: App)
    requires Sized(st.slots) && Receptive(st, n) && forall a :: a in apdus ==> IsApdu(a)
    ensures var b := st.sessions[n].binding;
            var after := OnData(st, Package(n, Flatten(apdus)), b.slot, b.conn, app);
            && Receptive(after, n) && after.sessions[n].binding == b
            && after.sessions[n].hist == st.sessions[n].hist + Apdus(b, apdus)
  {
    var b := st.sessions[n].binding;
    PackageDispatched(st, n, Flatten(apdus), app);
    SplitOfJoined(apdus);
    S.DeliverHistory(st.sessions[n], b.slot, b.conn, apdus);
  }

  lemma PackageDispatched(st: Stack, n: u16, data: seq<byte>, app: App)
    requires Sized(st.slots) && Receptive(st, n)
    ensures var b := st.sessions[n].binding;
            OnData(st, Package(n, data), b.slot, b.conn, app) ==
            Put(st, n, S.Deliver(st.sessions[n], b.slot, b.conn, SplitApdus(data)))
  {
    WordOfHighLow(n);
    assert Package(n, data)[1..] == [2, High(n), Low(n)] + data;
    assert ([2, High(n), Low(n)] + data)[3..] == data;
  }

  /** One turn of the loop of en50221_tl_process_data on a data TPDU. */
  lemma ProcessOne(st: Stack, s: byte, c: byte, body: seq<byte>, rest: seq<byte>, links: nat -> Link, apps: nat -> App, k: nat)
    requires Sized(st.slots) && |body| + 1 <= 0xFFFF
    ensures var step := Receive(s, Tpdu(C.T_DATA_LAST, c, body), links(k));
            Next(st.slots, step).status.Ok? ==>
              ProcessData(st, s, DataTpdu(c, body) + rest, links, apps, k) ==
              ProcessData(StackNext(st, OnLink(step, apps(k))), s, rest, links, apps, k + 1)
  {
    DataTpduRoundTrip(c, body, rest);
    assert (DataTpdu(c, body) + rest)[|DataTpdu(c, body)|..] == rest;
  }

  lemma ApdusJoin(b: S.Binding, xs: seq<seq<byte>>, ys: seq<seq<byte>>)
    ensures Apdus(b, xs + ys) == Apdus(b, xs) + Apdus(b, ys)
  {
  }

  lemma SendArrives(st: Stack, n: u16, apdus: seq<seq<byte>>, rest: seq<byte>, links: nat -> Link, apps: nat -> App, k: nat) returns (next: Stack)
    requires Sized(st.slots) && Receptive(st, n) && Sendable(apdus)
    ensures Sized(next.slots) && Receptive(next, n)
    ensures var b := st.sessions[n].binding;
            && next.sessions[n].binding == b
            && next.sessions[n].hist == st.sessions[n].hist + Apdus(b, apdus)
            && ProcessData(st, b.slot, TpduOf(b, n, apdus) + rest, links, apps, k) ==
               ProcessData(next, b.slot, rest, links, apps, k + 1)
  {
    var b := st.sessions[n].binding;
    var body := Package(n, Flatten(apdus));
    PackageArrives(st, n, apdus, links(k), apps(k));
    ProcessOne(st, b.slot, b.conn, body, rest, links, apps, k);
    next := StackNext(st, OnLink(Receive(b.slot, Tpdu(C.T_DATA_LAST, b.conn, body), links(k)), apps(k)));
  }

  // ---------------------------------------------------------------- any number of sends

  function Tpdus(b: S.Binding, n: u16, sends: seq<seq<seq<byte>>>): seq<C.Message> {
    seq(|sends|, i requires 0 <= i < |sends| => TpduOf(b, n, sends[i]))
  }

  /** One call of en50221_sl_send_data for each block of APDUs, and whether all of them succeed. */
  function SendAll(st: Stack, n: u16, sends: seq<seq<seq<byte>>>): (r: (Stack, bool))
    requires Sized(st.slots)
    ensures Sized(r.0.slots)
    decreases |sends|
  {
    if sends == [] then (st, true) else
      var (next, answer) := DoSend(st, n, Flatten(sends[0]));
      var (last, ok) := SendAll(next, n, sends[1..]);
      (last, answer == 0 && ok)
  }

  function QueueOf(st: Stack, n: u16): seq<C.Message>
    requires Receptive(st, n)
  {
    st.slots[st.sessions[n].binding.slot].conns[st.sessions[n].binding.conn].queue
  }

  lemma SendKeeps(st: Stack, n: u16, apdus: seq<seq<byte>>)
    requires Sized(st.slots) && Receptive(st, n)
    ensures var (after, answer) := DoSend(st, n, Flatten(apdus));
      && answer == 0 && after.sessions == st.sessions && Receptive(after, n)
      && QueueOf(after, n) == QueueOf(st, n) + [TpduOf(st.sessions[n].binding, n, apdus)]
  {
    SendQueues(st, n, apdus);
  }

  /** Each of any number of sends queues its TPDU behind those of the sends before it, and nothing else
      changes for the session. */
  lemma {:induction false} SendsQueue(st: Stack, n: u16, sends: seq<seq<seq<byte>>>)
    requires Sized(st.slots) && Receptive(st, n)
    ensures var (after, ok) := SendAll(st, n, sends);
      && ok && after.sessions == st.sessions && Receptive(after, n)
      && QueueOf(after, n) == QueueOf(st, n) + Tpdus(st.sessions[n].binding, n, sends)
    decreases |sends|
  {
    hide TpduOf;
    hide DoSend;
    if sends != [] {
      var b, tail := st.sessions[n].binding, sends[1..];
      SendKeeps(st, n, sends[0]);
      SendsQueue(DoSend(st, n, Flatten(sends[0])).0, n, tail);
      assert Tpdus(b, n, sends) == [TpduOf(b, n, sends[0])] + Tpdus(b, n, tail);
    }
  }

  /** TPDUs of packages read in one piece reach the session's callback as exactly the APDUs in them, in
      order, with every octet consumed. */
  lemma {:induction false} TpdusArrive(st: Stack, n: u16, sends: seq<seq<seq<byte>>>, links: nat -> Link, apps: nat -> App, k: nat)
    requires Sized(st.slots) && Receptive(st, n)
    requires forall apdus :: apdus in sends ==> Sendable(apdus)
    ensures var b := st.sessions[n].binding;
            var (after, ok) := ProcessData(st, b.slot, Flatten(Tpdus(b, n, sends)), links, apps, k);
            && ok && n < |after.sessions|
            && after.sessions[n].hist == st.sessions[n].hist + Apdus(b, Flatten(sends))
    decreases |sends|
  {
    hide StackNext;
    hide Next;
    hide ParseTpdu;
    hide Sendable;
    hide TpduOf;
    if sends != [] {
      var b, tail := st.sessions[n].binding, sends[1..];
      assert sends[0] in sends;
      assert Tpdus(b, n, sends) == [TpduOf(b, n, sends[0])] + Tpdus(b, n, tail);
      var next := SendArrives(st, n, sends[0], Flatten(Tpdus(b, n, tail)), links, apps, k);
      TpdusArrive(next, n, tail, links, apps, k + 1);
      ApdusJoin(b, sends[0], Flatten(tail));
    }
  }

  /** The whole stack: after any number of sends, the octets they queued, read back in one link read by
      a session at the other end with the same number and connection, reach its callback as exactly the
      APDUs that were sent, in order, with every octet consumed. */
  lemma StackRoundTrip(host: Stack, peer: Stack, n: u16, sends: seq<seq<seq<byte>>>, links: nat -> Link, apps: nat -> App)
    requires Sized(host.slots) && Receptive(host, n) && Sized(peer.slots) && Receptive(peer, n)
    requires peer.sessions[n].binding.conn == host.sessions[n].binding.conn
    requires forall apdus :: apdus in sends ==> Sendable(apdus)
    ensures var (sent, sentAll) := SendAll(host, n, sends);
      && sentAll && Receptive(sent, n) && QueueOf(host, n) <= QueueOf(sent, n)
      && var (after, ok) := ProcessData(peer, peer.sessions[n].binding.slot, Flatten(QueueOf(sent, n)[|QueueOf(host, n)|..]), links, apps, 0);
      && ok && n < |after.sessions|
      && after.sessions[n].hist == peer.sessions[n].hist + Apdus(peer.sessions[n].binding, Flatten(sends))
  {
    SendsQueue(host, n, sends);
    TpdusArrive(peer, n, sends, links, apps, 0);
    assert Tpdus(host.sessions[n].binding, n, sends) == Tpdus(peer.sessions[n].binding, n, sends);
    hide Receptive;
    hide Tpdus;
    hide ProcessData;
    hide SendAll;
  }
}
