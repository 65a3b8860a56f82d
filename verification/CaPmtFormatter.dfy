/** en50221_ca_format_pmt (lib/libdvben50221/en50221_app_ca.c, lines 201-544) with its stream records,
    which are changed in place, and its output buffer. */
module CaPmtFormatter {
  import opened Bytes
  import opened CaPmt

  /** struct ca_pmt_stream; its list of descriptors is a sequence. */
  class StreamRecord {
    const streamType: byte
    const pid: Pid
    var descriptors: seq<Descriptor>
    var descriptorsLength: nat
    var descriptorsCount: nat

    constructor (streamType: byte, pid: Pid)
      ensures this.streamType == streamType && this.pid == pid && descriptors == [] && descriptorsCount == 0
    {
      this.streamType := streamType;
      this.pid := pid;
      descriptors := [];
      descriptorsLength := 0;
      descriptorsCount := 0;
    }

    /** The stream the record stands for. */
    ghost predicate Is(s: Stream)
      reads this
    {
      streamType == s.streamType && pid == s.pid && descriptors == s.descriptors && descriptorsCount == |descriptors|
    }
  }

  ghost predicate Are(records: seq<StreamRecord>, ss: seq<Stream>)
    reads records
  {
    |records| == |ss| && forall i :: 0 <= i < |records| ==> records[i].Is(ss[i])
  }

  predicate Different(records: seq<StreamRecord>) {
    forall i, k :: 0 <= i < k < |records| ==> records[i] != records[k]
  }

  lemma {:induction false} CaOfAppend(a: seq<Descriptor>, b: seq<Descriptor>)
    ensures CaOf(a + b) == CaOf(a) + CaOf(b)
  {
    if a == [] {
      assert a + b == b;
    } else {
      assert (a + b)[1..] == a[1..] + b;
      CaOfAppend(a[1..], b);
    }
  }

  /** en50221_ca_extract_pmt_descriptors, and the same loop for a stream. */
  method ExtractDescriptors(ds: seq<Descriptor>) returns (found: seq<Descriptor>)
    ensures found == CaOf(ds)
  {
    found := [];
    var i := 0;
    while i < |ds|
      invariant i <= |ds| && found == CaOf(ds[..i])
    {
      assert ds[..i + 1] == ds[..i] + [ds[i]];
      CaOfAppend(ds[..i], [ds[i]]);
      if ds[i].tag == CA_DESCRIPTOR {
        found := found + [ds[i]];
      }
      i := i + 1;
    }
    assert ds[..i] == ds;
  }

  /** One turn of en50221_ca_extract_streams. */
  method ExtractStream(s: Stream) returns (r: StreamRecord)
    ensures fresh(r) && r.Is(s.(descriptors := CaOf(s.descriptors)))
  {
    r := new StreamRecord(s.streamType, s.pid);
    r.descriptors := ExtractDescriptors(s.descriptors);
    r.descriptorsCount := |r.descriptors|;
  }

  /** en50221_ca_extract_streams */
  method ExtractStreams(pmt: Pmt) returns (records: seq<StreamRecord>)
    ensures fresh(records) && Different(records) && Are(records, CaStreams(pmt.streams))
  {
    ghost var ss := CaStreams(pmt.streams);
    records := [];
    while |records| < |pmt.streams|
      invariant |records| <= |pmt.streams| && Different(records)
      invariant forall k :: 0 <= k < |records| ==> fresh(records[k]) && records[k].Is(ss[k])
    {
      var r := ExtractStream(pmt.streams[|records|]);
      records := records + [r];
    }
  }

  /** The checking loops of en50221_ca_try_move_pmt_descriptors. */
  method AllAlike(records: seq<StreamRecord>, ghost ss: seq<Stream>) returns (alike: bool)
    requires |records| > 0 && Are(records, ss)
    ensures alike <==> Alike(ss)
  {
    var first := records[0];
    var i := 1;
    while i < |records|
      invariant 1 <= i <= |records| && forall k :: 0 <= k < i ==> ss[k].descriptors == ss[0].descriptors
    {
      var cur := records[i];
      if cur.descriptorsCount != first.descriptorsCount { return false; }
      var k := 0;
      while k < |cur.descriptors|
        invariant k <= |cur.descriptors| == |first.descriptors|
        invariant cur.descriptors[..k] == first.descriptors[..k]
      {
        if cur.descriptors[k] != first.descriptors[k] {
          assert ss[i].descriptors != ss[0].descriptors;
          return false;
        }
        k := k + 1;
      }
      assert cur.descriptors == cur.descriptors[..k] && first.descriptors == first.descriptors[..k];
      i := i + 1;
    }
    return true;
  }

  /** en50221_ca_try_move_pmt_descriptors, for a programme without CA descriptors. */
  method TryMove(records: seq<StreamRecord>, ghost ss: seq<Stream>) returns (program: seq<Descriptor>)
    requires Different(records) && Are(records, ss)
    modifies records
    ensures program == Hoisted(ss).program && Are(records, Hoisted(ss).streams)
  {
    hide Alike;
    hide Bare;
    if |records| == 0 { return []; }
    var alike := AllAlike(records, ss);
    if !alike { return []; }
    program := records[0].descriptors;
    var i := 0;
    while i < |records|
      invariant i <= |records| && program == ss[0].descriptors
      invariant forall k :: 0 <= k < |records| ==> records[k].Is(if k < i then Bare(ss)[k] else ss[k])
    {
      records[i].descriptors := [];
      records[i].descriptorsCount := 0;
      i := i + 1;
    }
  }

  lemma {:induction false} LoopBodyAppend(a: seq<Descriptor>, b: seq<Descriptor>)
    ensures LoopBody(a + b) == LoopBody(a) + LoopBody(b)
  {
    if a == [] {
      assert a + b == b;
    } else {
      assert (a + b)[1..] == a[1..] + b;
      LoopBodyAppend(a[1..], b);
    }
  }

  /** The inner loops of en50221_ca_calculate_length. */
  method CalculateLoop(ds: seq<Descriptor>) returns (n: nat)
    ensures n == LoopLength(ds)
  {
    n := 0;
    var i := 0;
    while i < |ds|
      invariant i <= |ds| && n == |LoopBody(ds[..i])|
    {
      assert ds[..i + 1] == ds[..i] + [ds[i]];
      LoopBodyAppend(ds[..i], [ds[i]]);
      assert LoopBody([ds[i]]) == DescriptorBytes(ds[i]);
      n := n + |ds[i].body| + 2;
      i := i + 1;
    }
    assert ds[..i] == ds;
    if n != 0 { n := n + 1; }
  }

  lemma {:induction false} StreamsLengthAppend(a: seq<Stream>, b: seq<Stream>)
    ensures StreamsLength(a + b) == StreamsLength(a) + StreamsLength(b)
  {
    if a == [] {
      assert a + b == b;
    } else {
      assert (a + b)[1..] == a[1..] + b;
      StreamsLengthAppend(a[1..], b);
    }
  }

  /** en50221_ca_calculate_length */
  method CalculateLength(program: seq<Descriptor>, records: seq<StreamRecord>, ghost ss: seq<Stream>)
    returns (total: nat, programLength: nat)
    requires Different(records) && Are(records, ss)
    modifies records`descriptorsLength
    ensures total == RequiredLength(Chosen(program, ss)) && programLength == LoopLength(program)
    ensures forall i :: 0 <= i < |records| ==> records[i].descriptorsLength == LoopLength(ss[i].descriptors)
  {
    programLength := CalculateLoop(program);
    total := 6 + programLength;
    var i := 0;
    while i < |records|
      invariant i <= |records| && Are(records, ss)
      invariant total == 6 + programLength + StreamsLength(ss[..i])
      invariant forall k :: 0 <= k < i ==> records[k].descriptorsLength == LoopLength(ss[k].descriptors)
    {
      assert ss[..i + 1] == ss[..i] + [ss[i]];
      StreamsLengthAppend(ss[..i], [ss[i]]);
      var n := CalculateLoop(records[i].descriptors);
      records[i].descriptorsLength := n;
      total := total + 5 + n;
      i := i + 1;
    }
    assert ss[..i] == ss;
  }

  // ---------------------------------------------------------------- the output buffer

  /** The octets up to `pos` are `now`, and those from `pos` on are those of `was`. */
  ghost predicate Written(data: array<byte>, pos: nat, now: seq<byte>, was: seq<byte>)
    reads data
  {
    pos == |now| <= data.Length == |was| && data[..pos] == now && data[pos..] == was[pos..]
  }

  lemma Regroup(a: seq<byte>, b: seq<byte>, c: seq<byte>)
    ensures (a + b) + c == a + (b + c)
  {
  }

  /** data[data_pos++] = b */
  method Put(data: array<byte>, pos: nat, b: byte, ghost now: seq<byte>, ghost was: seq<byte>) returns (next: nat)
    requires pos < data.Length && Written(data, pos, now, was)
    modifies data
    ensures next == pos + 1 && Written(data, next, now + [b], was)
  {
    data[pos] := b;
    next := pos + 1;
    assert data[..next] == data[..pos] + [b];
    assert data[next..] == was[pos..][1..] == was[next..];
  }

  /** The memcpy of one descriptor. */
  method Copy(data: array<byte>, pos: nat, b: seq<byte>, ghost now: seq<byte>, ghost was: seq<byte>) returns (next: nat)
    requires pos + |b| <= data.Length && Written(data, pos, now, was)
    modifies data
    ensures next == pos + |b| && Written(data, next, now + b, was)
  {
    next := pos;
    while next < pos + |b|
      invariant pos <= next <= pos + |b| && Written(data, next, now + b[..next - pos], was)
    {
      ghost var done := b[..next - pos];
      next := Put(data, next, b[next - pos], now + done, was);
      assert b[..next - pos] == done + [b[next - 1 - pos]];
      assert (now + done) + [b[next - 1 - pos]] == now + b[..next - pos];
    }
    assert b[..next - pos] == b;
  }

  /** The descriptors of a loop. */
  method PutDescriptors(data: array<byte>, pos: nat, ds: seq<Descriptor>, ghost now: seq<byte>, ghost was: seq<byte>)
    returns (next: nat)
    requires pos + |LoopBody(ds)| <= data.Length && Written(data, pos, now, was)
    modifies data
    ensures next == pos + |LoopBody(ds)| && Written(data, next, now + LoopBody(ds), was)
  {
    hide Written;
    hide DescriptorBytes;
    next := pos;
    var i := 0;
    assert now + LoopBody(ds[..0]) == now;
    while i < |ds|
      invariant i <= |ds| && next == pos + |LoopBody(ds[..i])|
      invariant Written(data, next, now + LoopBody(ds[..i]), was)
    {
      ghost var done, d := LoopBody(ds[..i]), ds[i];
      LoopBodyAppend(ds[..i], [d]);
      LoopBodyAppend(ds[..i + 1], ds[i + 1..]);
      assert ds[..i + 1] == ds[..i] + [d] && ds == ds[..i + 1] + ds[i + 1..];
      assert LoopBody([d]) == DescriptorBytes(d);
      next := Copy(data, next, DescriptorBytes(ds[i]), now + done, was);
      Regroup(now, done, DescriptorBytes(d));
      i := i + 1;
    }
    assert ds[..i] == ds;
  }

  /** A descriptor loop with its length field. */
  method PutLoop(data: array<byte>, pos: nat, length: nat, cmd: byte, ds: seq<Descriptor>, ghost now: seq<byte>, ghost was: seq<byte>)
    returns (next: nat)
    requires length == LoopLength(ds) && pos + 2 + length <= data.Length && Written(data, pos, now, was)
    modifies data
    ensures next == pos + 2 + length && Written(data, next, now + LoopBytes(ds, cmd), was)
  {
    ghost var field, body := LengthBytes(length), LoopBody(ds);
    assert length != 0 ==> |body| + 1 == length && LoopBytes(ds, cmd) == field + ([cmd] + body);
    assert length == 0 ==> LoopBytes(ds, cmd) == field;
    hide Written;
    hide LoopBody;
    hide LoopBytes;
    next := Put(data, pos, length / 0x100 % 0x10, now, was);
    next := Put(data, next, length % 0x100, now + [field[0]], was);
    assert now + [field[0]] + [field[1]] == now + field;
    if length != 0 {
      next := Put(data, next, cmd, now + field, was);
      next := PutDescriptors(data, next, ds, now + field + [cmd], was);
      assert now + field + [cmd] + body == now + (field + ([cmd] + body));
    }
  }

  lemma {:induction false} StreamsBytesAppend(a: seq<Stream>, b: seq<Stream>, cmd: byte)
    ensures StreamsBytes(a + b, cmd) == StreamsBytes(a, cmd) + StreamsBytes(b, cmd)
  {
    if a == [] {
      assert a + b == b;
    } else {
      assert (a + b)[1..] == a[1..] + b;
      StreamsBytesAppend(a[1..], b, cmd);
    }
  }

  /** One turn of the stream loop. */
  method PutStream(data: array<byte>, pos: nat, r: StreamRecord, cmd: byte, ghost s: Stream, ghost now: seq<byte>, ghost was: seq<byte>)
    returns (next: nat)
    requires r.Is(s) && r.descriptorsLength == LoopLength(s.descriptors)
    requires pos + 5 + LoopLength(s.descriptors) <= data.Length && Written(data, pos, now, was)
    modifies data
    ensures next == pos + 5 + LoopLength(s.descriptors) && Written(data, next, now + StreamBytes(s, cmd), was)
  {
    hide Written;
    hide LoopBytes;
    ghost var front := [r.streamType, r.pid / 0x100 % 0x20, r.pid % 0x100];
    next := Put(data, pos, r.streamType, now, was);
    next := Put(data, next, r.pid / 0x100 % 0x20, now + front[..1], was);
    assert now + front[..1] + [front[1]] == now + front[..2];
    next := Put(data, next, r.pid % 0x100, now + front[..2], was);
    assert now + front[..2] + [front[2]] == now + front;
    next := PutLoop(data, next, r.descriptorsLength, cmd, r.descriptors, now + front, was);
    assert now + front + LoopBytes(s.descriptors, cmd) == now + StreamBytes(s, cmd);
  }

  lemma StreamsStep(ss: seq<Stream>, i: nat, cmd: byte)
    requires i < |ss|
    ensures StreamsBytes(ss[..i + 1], cmd) == StreamsBytes(ss[..i], cmd) + StreamBytes(ss[i], cmd)
    ensures StreamsLength(ss[..i + 1]) == StreamsLength(ss[..i]) + 5 + LoopLength(ss[i].descriptors) <= StreamsLength(ss)
  {
    assert ss[..i + 1] == ss[..i] + [ss[i]] && ss == ss[..i + 1] + ss[i + 1..];
    hide StreamBytes;
    hide LoopLength;
    StreamsLengthAppend(ss[..i], [ss[i]]);
    StreamsLengthAppend(ss[..i + 1], ss[i + 1..]);
    StreamsBytesAppend(ss[..i], [ss[i]], cmd);
  }

  /** The stream loop. */
  method PutStreams(data: array<byte>, pos: nat, records: seq<StreamRecord>, cmd: byte, ghost ss: seq<Stream>, ghost now: seq<byte>,
                    ghost was: seq<byte>)
    returns (next: nat)
    requires Are(records, ss) && forall k :: 0 <= k < |ss| ==> records[k].descriptorsLength == LoopLength(ss[k].descriptors)
    requires pos + StreamsLength(ss) <= data.Length && Written(data, pos, now, was)
    modifies data
    ensures next == pos + StreamsLength(ss) && Written(data, next, now + StreamsBytes(ss, cmd), was)
  {
    next := pos;
    var i := 0;
    assert now + StreamsBytes(ss[..0], cmd) == now && StreamsLength(ss[..0]) == 0;
    hide Written;
    hide StreamBytes;
    hide StreamsBytes;
    hide StreamsLength;
    hide LoopLength;
    while i < |records|
      invariant i <= |records| && next == pos + StreamsLength(ss[..i])
      invariant Written(data, next, now + StreamsBytes(ss[..i], cmd), was)
    {
      ghost var done := StreamsBytes(ss[..i], cmd);
      StreamsStep(ss, i, cmd);
      next := PutStream(data, next, records[i], cmd, ss[i], now + done, was);
      Regroup(now, done, StreamBytes(ss[i], cmd));
      i := i + 1;
    }
    assert ss[..i] == ss;
  }

  /** The first four octets. */
  method PutHeader(pmt: Pmt, data: array<byte>, management: byte) returns (next: nat)
    requires data.Length >= 4
    modifies data
    ensures next == 4 && Written(data, next, HeaderBytes(pmt, management), old(data[..]))
  {
    ghost var was, head := data[..], HeaderBytes(pmt, management);
    assert Written(data, 0, [], was);
    hide Written;
    next := Put(data, 0, management, [], was);
    assert [] + [management] == head[..1];
    next := Put(data, next, High(pmt.program), head[..1], was);
    assert head[..1] + [head[1]] == head[..2];
    next := Put(data, next, Low(pmt.program), head[..2], was);
    assert head[..2] + [head[2]] == head[..3];
    next := Put(data, next, pmt.version * 2 + pmt.current, head[..3], was);
    assert head[..3] + [head[3]] == head;
  }

  /** The first half of en50221_ca_format_pmt: what goes into the object. */
  method Collect(pmt: Pmt, move: bool) returns (program: seq<Descriptor>, records: seq<StreamRecord>)
    ensures fresh(records) && Different(records)
    ensures program == Choose(pmt, move).program && Are(records, Choose(pmt, move).streams)
  {
    program := ExtractDescriptors(pmt.descriptors);
    records := ExtractStreams(pmt);
    if |program| == 0 && move {
      program := TryMove(records, CaStreams(pmt.streams));
    }
  }

  /** The second half: the octets. */
  method Emit(pmt: Pmt, data: array<byte>, program: seq<Descriptor>, programLength: nat, records: seq<StreamRecord>, management: byte,
              cmd: byte, ghost ss: seq<Stream>)
    returns (r: nat)
    requires Are(records, ss) && programLength == LoopLength(program)
    requires forall k :: 0 <= k < |ss| ==> records[k].descriptorsLength == LoopLength(ss[k].descriptors)
    requires RequiredLength(Chosen(program, ss)) <= data.Length
    modifies data
    ensures r == RequiredLength(Chosen(program, ss))
    ensures Written(data, r, ObjectBytes(pmt, Chosen(program, ss), management, cmd), old(data[..]))
  {
    hide HeaderBytes;
    hide LoopBytes;
    hide Written;
    ghost var was, head := data[..], HeaderBytes(pmt, management);
    r := PutHeader(pmt, data, management);
    r := PutLoop(data, r, programLength, cmd, program, head, was);
    r := PutStreams(data, r, records, cmd, ss, head + LoopBytes(program, cmd), was);
  }

  /** en50221_ca_format_pmt: fails, without writing, exactly when the object needs more room than the
      caller gave; otherwise the object fills the start of the buffer and nothing behind it changes. */
  method FormatPmt(pmt: Pmt, data: array<byte>, dataLength: nat, move: bool, management: byte, cmd: byte) returns (r: int)
    requires dataLength <= data.Length
    modifies data
    ensures r == -1 <==> RequiredLength(Choose(pmt, move)) > dataLength
    ensures r == -1 ==> data[..] == old(data[..])
    ensures r != -1 ==> 0 <= r <= dataLength && r == RequiredLength(Choose(pmt, move))
    ensures r != -1 ==> data[..r] == ObjectBytes(pmt, Choose(pmt, move), management, cmd) && data[r..] == old(data[r..])
  {
    hide ObjectBytes;
    hide Choose;
    hide RequiredLength;
    ghost var c := Choose(pmt, move);
    var program, records := Collect(pmt, move);
    var total, programLength := CalculateLength(program, records, c.streams);
    if total > dataLength { return -1; }
    r := Emit(pmt, data, program, programLength, records, management, cmd, c.streams);
  }
}
