/** The section reassembler of lib/libucsi/section_buf.c. */
module SectionBuffer {
  import opened Bytes

  const SECTION_HDR_SIZE := 3
  const SECTION_PAD: byte := 0xFF

  /** section_status: 0, 1, -ERANGE and -EINVAL. */
  datatype Status = More | Complete | TooBig | BadPointer

  /** The value of a struct section_buf; `data` are its first `count` octets. */
  datatype Buf = Buf(max: nat, data: seq<byte>, len: nat, header: bool, waitPdu: bool)

  datatype Added = Added(buf: Buf, used: nat, status: Status)

  /** The whole length a section header announces. */
  function AnnouncedLength(data: seq<byte>): (n: nat)
    requires |data| >= SECTION_HDR_SIZE
    ensures n >= SECTION_HDR_SIZE
  {
    Announced(data[1], data[2])
  }

  function Announced(high: nat, low: nat): (n: nat)
    ensures n >= SECTION_HDR_SIZE
  {
    SECTION_HDR_SIZE + high % 0x10 * 0x100 + low
  }

  predicate Finished(b: Buf) { b.header && b.len == |b.data| }

  /** What section_buf_init establishes and every operation keeps. */
  predicate Consistent(b: Buf) {
    && b.max >= SECTION_HDR_SIZE && |b.data| <= b.max
    && (b.header ==> |b.data| >= SECTION_HDR_SIZE && b.len == AnnouncedLength(b.data) && |b.data| <= b.len <= b.max)
    && (!b.header ==> |b.data| <= SECTION_HDR_SIZE)
    && (!b.header && |b.data| < SECTION_HDR_SIZE ==> b.len == SECTION_HDR_SIZE)
    && (!b.header && |b.data| == SECTION_HDR_SIZE ==> b.len == AnnouncedLength(b.data) > b.max)
  }

  /** section_buf_init */
  function Init(max: nat): (b: Buf)
    requires max >= SECTION_HDR_SIZE
    ensures Consistent(b)
  {
    Buf(max, [], SECTION_HDR_SIZE, false, true)
  }

  /** The number of leading padding octets. */
  function Padding(frag: seq<byte>): (n: nat)
    ensures n <= |frag| && (n < |frag| ==> frag[n] != SECTION_PAD)
    ensures forall k :: 0 <= k < n ==> frag[k] == SECTION_PAD
  {
    if frag != [] && frag[0] == SECTION_PAD then 1 + Padding(frag[1..]) else 0
  }

  function Min(a: nat, b: nat): nat { if a < b then a else b }

  function Shift(r: Added, more: nat): Added { Added(r.buf, r.used + more, r.status) }

  /** The tail of section_buf_add: append up to the announced length. */
  function Accumulate(b: Buf, rest: seq<byte>): Added
    requires |b.data| <= b.len
  {
    var copy := Min(b.len - |b.data|, |rest|);
    var b' := b.(data := b.data + rest[..copy]);
    Added(b', copy, if Finished(b') then Complete else More)
  }

  /** section_buf_add once the three octets of the header are in `data`. */
  function StartBody(b: Buf, data: seq<byte>, rest: seq<byte>): Added
    requires |data| == SECTION_HDR_SIZE
  {
    var len := AnnouncedLength(data);
    if len > b.max then Added(b.(data := data, len := len), |rest|, TooBig)
    else Accumulate(b.(data := data, len := len, header := true), rest)
  }

  /** section_buf_add behind the padding. */
  function Grab(b: Buf, rest: seq<byte>): Added
    requires Consistent(b)
  {
    if b.header then Accumulate(b, rest) else
      var copy := Min(SECTION_HDR_SIZE - |b.data|, |rest|);
      var data := b.data + rest[..copy];
      if |data| != SECTION_HDR_SIZE then Added(b.(data := data), copy, More)
      else Shift(StartBody(b, data, rest[copy..]), copy)
  }

  /** section_buf_add */
  function Add(b: Buf, frag: seq<byte>): Added
    requires Consistent(b)
  {
    if Finished(b) then Added(b, 0, Complete) else
      var pad := if b.data == [] then Padding(frag) else 0;
      if b.data == [] && pad == |frag| then Added(b, pad, More) else Shift(Grab(b, frag[pad..]), pad)
  }

  /** Nothing overflows: never more octets are used than given, nor stored than fit. */
  lemma AddKeeps(b: Buf, frag: seq<byte>)
    requires Consistent(b)
    ensures var r := Add(b, frag);
            && Consistent(r.buf) && r.used <= |frag| && r.buf.max == b.max && r.buf.waitPdu == b.waitPdu
            && b.data <= r.buf.data
            && (r.status == Complete <==> Finished(r.buf))
            && (r.status == TooBig <==> !r.buf.header && |r.buf.data| == SECTION_HDR_SIZE)
  {
    hide Announced;
    if !Finished(b) { GrabKeeps(b, frag[if b.data == [] then Padding(frag) else 0..]); }
  }

  lemma GrabKeeps(b: Buf, rest: seq<byte>)
    requires Consistent(b) && !Finished(b)
    ensures var r := Grab(b, rest);
            && Consistent(r.buf) && r.used <= |rest| && r.buf.max == b.max && r.buf.waitPdu == b.waitPdu
            && b.data <= r.buf.data
            && (r.status == Complete <==> Finished(r.buf))
            && (r.status == TooBig <==> !r.buf.header && |r.buf.data| == SECTION_HDR_SIZE)
  {
    hide Announced;
  }

  // ---------------------------------------------------------------- fragmentation independence

  /** Behind the first octet there is no padding any more. */
  lemma AddIsGrab(b: Buf, frag: seq<byte>)
    requires Consistent(b) && !Finished(b) && b.data != []
    ensures Add(b, frag) == Grab(b, frag)
  {
  }

  lemma GrabJoined(b: Buf, x: seq<byte>, y: seq<byte>)
    requires Consistent(b) && !Finished(b) && (b.data == [] ==> x != [])
    ensures var first := Grab(b, x);
            Consistent(first.buf) && Grab(b, x + y) == Shift(Add(first.buf, y), first.used)
  {
    hide Announced;
    if b.header {
      AccumulateJoined(b, x, y);
    } else if |b.data| + |x| < SECTION_HDR_SIZE {
      PartJoined(b, x, y);
    } else {
      HeaderJoined(b, x, y);
    }
  }

  lemma AccumulateJoined(b: Buf, x: seq<byte>, y: seq<byte>)
    requires Consistent(b) && b.header
    ensures var first := Accumulate(b, x);
            Consistent(first.buf) && Accumulate(b, x + y) == Shift(Add(first.buf, y), first.used)
  {
    hide Announced;
    var copy := Min(b.len - |b.data|, |x|);
    var first := Accumulate(b, x);
    if Finished(first.buf) {
      assert (x + y)[..copy] == x[..copy];
    } else {
      AddIsGrab(first.buf, y);
      var copy' := Min(b.len - |first.buf.data|, |y|);
      assert x[..copy] == x && (x + y)[..copy + copy'] == x + y[..copy'];
      assert b.data + (x + y[..copy']) == (b.data + x) + y[..copy'];
    }
  }

  /** The header is complete with `x`. */
  lemma HeaderJoined(b: Buf, x: seq<byte>, y: seq<byte>)
    requires Consistent(b) && !b.header && SECTION_HDR_SIZE <= |b.data| + |x|
    ensures var first := Grab(b, x);
            Consistent(first.buf) && Grab(b, x + y) == Shift(Add(first.buf, y), first.used)
  {
    hide Announced;
    hide Add;
    var copy := SECTION_HDR_SIZE - |b.data|;
    var data := b.data + x[..copy];
    assert (x + y)[..copy] == x[..copy] && (x + y)[copy..] == x[copy..] + y;
    var begun := b.(data := data, len := AnnouncedLength(data), header := true);
    if AnnouncedLength(data) <= b.max {
      AccumulateJoined(begun, x[copy..], y);
      hide Accumulate;
      hide Finished;
    } else {
      TooBigStays(Grab(b, x).buf, y);
    }
  }

  /** A section that is too big swallows everything. */
  lemma TooBigStays(b: Buf, y: seq<byte>)
    requires Consistent(b) && !b.header && |b.data| == SECTION_HDR_SIZE
    ensures Add(b, y) == Added(b, |y|, TooBig)
  {
  }

  /** The header is still incomplete after `x`. */
  lemma PartJoined(b: Buf, x: seq<byte>, y: seq<byte>)
    requires Consistent(b) && !b.header && |b.data| + |x| < SECTION_HDR_SIZE && (b.data == [] ==> x != [])
    ensures var first := Grab(b, x);
            Consistent(first.buf) && Grab(b, x + y) == Shift(Add(first.buf, y), first.used)
  {
    hide Announced;
    hide StartBody;
    var data := b.data + x;
    assert x[..|x|] == x;
    AddIsGrab(b.(data := data), y);
    var copy := Min(SECTION_HDR_SIZE - |data|, |y|);
    assert (x + y)[..|x| + copy] == x + y[..copy] && (x + y)[|x| + copy..] == y[copy..];
    assert b.data + (x + y[..copy]) == data + y[..copy];
    BodyStart(b, x, data + y[..copy], y[copy..]);
  }

  /** The partial header is overwritten by the whole one. */
  lemma BodyStart(b: Buf, x: seq<byte>, data: seq<byte>, rest: seq<byte>)
    requires Consistent(b)
    ensures |data| == SECTION_HDR_SIZE ==> StartBody(b, data, rest) == StartBody(b.(data := b.data + x), data, rest)
  {
  }

  lemma {:induction false} PaddingJoined(x: seq<byte>, y: seq<byte>)
    ensures Padding(x + y) == if Padding(x) < |x| then Padding(x) else |x| + Padding(y)
  {
    if x == [] {
      assert x + y == y;
    } else if x[0] == SECTION_PAD {
      assert (x + y)[1..] == x[1..] + y;
      PaddingJoined(x[1..], y);
    }
  }

  /** Adding `x` and then `y` is adding `x + y`: same buffer, flags and status, same total use. */
  lemma AddJoined(b: Buf, x: seq<byte>, y: seq<byte>)
    requires Consistent(b)
    ensures var first := Add(b, x);
            Consistent(first.buf) && Add(b, x + y) == Shift(Add(first.buf, y), first.used)
  {
    hide Announced;
    hide Grab;
    hide Consistent;
    PaddingJoined(x, y);
    hide Padding;
    if !Finished(b) && b.data == [] {
      var pad := Padding(x);
      if pad < |x| {
        assert (x + y)[pad..] == x[pad..] + y;
        GrabJoined(b, x[pad..], y);
      } else {
        assert (x + y)[pad + Padding(y)..] == y[Padding(y)..];
      }
    } else if !Finished(b) {
      assert (x + y)[0..] == x + y && x[0..] == x;
      GrabJoined(b, x, y);
    }
  }

  /** Any number of fragments, added one after the other. */
  function AddAll(b: Buf, frags: seq<seq<byte>>): Added
    requires Consistent(b)
    decreases |frags|
  {
    if frags == [] then Add(b, []) else
      AddKeeps(b, frags[0]);
      var first := Add(b, frags[0]);
      var rest := AddAll(first.buf, frags[1..]);
      Shift(rest, first.used)
  }

  lemma {:induction false} AnyFragmentation(b: Buf, frags: seq<seq<byte>>)
    requires Consistent(b)
    ensures AddAll(b, frags) == Add(b, Flatten(frags))
    decreases |frags|
  {
    if frags != [] {
      AddKeeps(b, frags[0]);
      AnyFragmentation(Add(b, frags[0]).buf, frags[1..]);
      AddJoined(b, frags[0], Flatten(frags[1..]));
    }
  }

  // ---------------------------------------------------------------- transport payloads

  /** section_buf_add_transport_payload; a flagged payload holds at least its pointer_field. */
  function AddPayload(b: Buf, payload: seq<byte>, pduStart: bool): Added
    requires Consistent(b) && (pduStart ==> |payload| >= 1)
  {
    if Finished(b) then Added(b, 0, Complete)
    else if b.waitPdu && !pduStart then Added(b, |payload|, More)
    else if pduStart then
      var offset: nat := payload[0];
      var b' := b.(waitPdu := false);
      if offset + 1 > |payload| then Added(b.(waitPdu := true), |payload|, BadPointer)
      else if b'.data != [] then
        var r := Add(b', payload[1..1 + offset]);
        if r.used != offset || r.status != Complete then Added(r.buf.(waitPdu := true), 1 + r.used, TooBig)
        else Added(r.buf, 1 + r.used, Complete)
      else
        var r := Add(b', payload[1 + offset..]);
        Added(if r.status == TooBig then r.buf.(waitPdu := true) else r.buf, 1 + offset + r.used, r.status)
    else
      var r := Add(b, payload);
      Added(if r.status == TooBig then r.buf.(waitPdu := true) else r.buf, r.used, r.status)
  }

  lemma AddPayloadKeeps(b: Buf, payload: seq<byte>, pduStart: bool)
    requires Consistent(b) && (pduStart ==> |payload| >= 1)
    ensures var r := AddPayload(b, payload, pduStart);
            Consistent(r.buf) && r.used <= |payload| && r.buf.max == b.max
  {
    var c := if pduStart then b.(waitPdu := false) else b;
    AddKeeps(c, payload);
    if pduStart && payload[0] + 1 <= |payload| {
      AddKeeps(c, payload[1..1 + payload[0]]);
      AddKeeps(c, payload[1 + payload[0]..]);
    }
  }

  /** A section that fits: a header, its announced length, and no padding octet in front. */
  predicate IsSection(s: seq<byte>, max: nat) {
    SECTION_HDR_SIZE <= |s| <= max && |s| == AnnouncedLength(s) && s[0] != SECTION_PAD
  }

  /** The state in which the first `n` octets of the section `s` have arrived. */
  function Holding(s: seq<byte>, n: nat, max: nat): (b: Buf)
    requires IsSection(s, max) && n <= |s|
    ensures Consistent(b) && (Finished(b) <==> n == |s|)
  {
    Buf(max, s[..n], if n >= SECTION_HDR_SIZE then |s| else SECTION_HDR_SIZE, n >= SECTION_HDR_SIZE, false)
  }

  /** Octets of the section are taken as they come. */
  lemma AddExact(s: seq<byte>, n: nat, m: nat, max: nat)
    requires IsSection(s, max) && n <= m <= |s| && n < |s|
    ensures Add(Holding(s, n, max), s[n..m]) == Added(Holding(s, m, max), m - n, if m == |s| then Complete else More)
  {
    hide Announced;
    var b, frag := Holding(s, n, max), s[n..m];
    assert s[..n] + frag == s[..m];
    if n == 0 {
      if m > 0 { assert Padding(frag) == 0 && frag[0..] == frag; }
    } else {
      AddIsGrab(b, frag);
    }
    if n == 0 == m {
    } else if n >= SECTION_HDR_SIZE {
      assert frag[..m - n] == frag;
    } else if m < SECTION_HDR_SIZE {
      assert frag[..m - n] == frag;
    } else {
      GrabHeader(s, n, m, max);
    }
  }

  lemma GrabHeader(s: seq<byte>, n: nat, m: nat, max: nat)
    requires IsSection(s, max) && n < SECTION_HDR_SIZE <= m <= |s|
    ensures Grab(Holding(s, n, max), s[n..m]) == Added(Holding(s, m, max), m - n, if m == |s| then Complete else More)
  {
    hide Announced;
    var frag, copy := s[n..m], SECTION_HDR_SIZE - n;
    assert s[..n] + frag[..copy] == s[..SECTION_HDR_SIZE];
    assert frag[copy..] == s[SECTION_HDR_SIZE..m];
    assert frag[copy..][..m - SECTION_HDR_SIZE] == s[SECTION_HDR_SIZE..m];
    assert s[..SECTION_HDR_SIZE] + s[SECTION_HDR_SIZE..m] == s[..m];
  }

  /** Octets of the section, followed by anything, are taken up to the end of the section. */
  lemma AddFromSection(s: seq<byte>, n: nat, max: nat, frag: seq<byte>)
    requires IsSection(s, max) && n <= |s|
    requires frag[..Min(|frag|, |s| - n)] == s[n..n + Min(|frag|, |s| - n)]
    ensures var take := Min(|frag|, |s| - n);
            Add(Holding(s, n, max), frag) == Added(Holding(s, n + take, max), take, if n + take == |s| then Complete else More)
  {
    hide Add;
    hide Consistent;
    if n < |s| {
      var take := Min(|frag|, |s| - n);
      AddExact(s, n, n + take, max);
      if n + take == |s| {
        assert frag == s[n..n + take] + frag[take..];
        AddJoined(Holding(s, n, max), s[n..n + take], frag[take..]);
        AddWhenFinished(Holding(s, |s|, max), frag[take..]);
      } else {
        assert frag == frag[..take];
      }
    } else {
      AddWhenFinished(Holding(s, n, max), frag);
    }
  }

  lemma AddWhenFinished(b: Buf, frag: seq<byte>)
    requires Consistent(b) && Finished(b)
    ensures Add(b, frag) == Added(b, 0, Complete)
  {
  }

  /** The buffer after a flagged payload (`offset` octets to skip, then the first piece) and
      unflagged payloads carrying the other pieces, with the statuses along the way. */
  function Feed(b: Buf, pieces: seq<seq<byte>>): (r: (Buf, seq<Status>))
    requires Consistent(b)
    decreases |pieces|
  {
    if pieces == [] then (b, []) else
      AddPayloadKeeps(b, pieces[0], false);
      var first := AddPayload(b, pieces[0], false);
      var (last, statuses) := Feed(first.buf, pieces[1..]);
      (last, [first.status] + statuses)
  }

  /** The length of the first `k` pieces together. */
  function Total(pieces: seq<seq<byte>>, k: nat): nat
    requires k <= |pieces|
  {
    if k == 0 then 0 else Total(pieces, k - 1) + |pieces[k - 1]|
  }

  lemma {:induction false} TotalTail(pieces: seq<seq<byte>>, k: nat)
    requires 0 < k <= |pieces|
    ensures Total(pieces, k) == |pieces[0]| + Total(pieces[1..], k - 1)
  {
    if k > 1 { TotalTail(pieces, k - 1); }
  }

  /** A piece, and what is left for the pieces behind it. */
  lemma PieceOfRest(s: seq<byte>, n: nat, p: seq<byte>, more: seq<byte>)
    requires n <= |s| && s[n..] <= p + more
    ensures var take := Min(|p|, |s| - n); p[..take] == s[n..n + take] && s[n + take..] <= more
  {
    var take := Min(|p|, |s| - n);
    assert p[..take] == (p + more)[..take] == s[n..][..take];
    if |p| < |s| - n {
      assert (p + more)[|p|..] == more;
      assert s[n..][|p|..] == s[n + take..];
    }
  }

  lemma FeedOne(s: seq<byte>, n: nat, max: nat, p: seq<byte>)
    requires IsSection(s, max) && n <= |s|
    requires p[..Min(|p|, |s| - n)] == s[n..n + Min(|p|, |s| - n)]
    ensures var take := Min(|p|, |s| - n);
      AddPayload(Holding(s, n, max), p, false) == Added(Holding(s, n + take, max), take, if n + |p| >= |s| then Complete else More)
  {
    hide Add;
    hide Announced;
    AddFromSection(s, n, max, p);
  }

  lemma {:induction false} FeedFromSection(s: seq<byte>, n: nat, max: nat, pieces: seq<seq<byte>>)
    requires IsSection(s, max) && n <= |s| && s[n..] <= Flatten(pieces)
    ensures var (last, statuses) := Feed(Holding(s, n, max), pieces);
            && last == Holding(s, |s|, max)
            && |statuses| == |pieces|
            && forall i :: 0 <= i < |pieces| ==> statuses[i] == if n + Total(pieces, i + 1) >= |s| then Complete else More
    decreases |pieces|
  {
    hide Add;
    hide AddPayload;
    hide Announced;
    hide Consistent;
    hide IsSection;
    if pieces != [] {
      var p, rest := pieces[0], pieces[1..];
      var take := Min(|p|, |s| - n);
      PieceOfRest(s, n, p, Flatten(rest));
      FeedOne(s, n, max, p);
      FeedFromSection(s, n + take, max, rest);
      hide Holding;
      forall i | 0 <= i < |pieces| ensures Total(pieces, i + 1) == |p| + Total(rest, i) { TotalTail(pieces, i + 1); }
    }
  }

  /** The first, flagged payload. */
  lemma FirstPayload(s: seq<byte>, max: nat, skipped: seq<byte>, first: seq<byte>)
    requires IsSection(s, max) && |skipped| < 0x100
    requires first[..Min(|first|, |s|)] == s[..Min(|first|, |s|)]
    ensures var take := Min(|first|, |s|);
            AddPayload(Init(max), [|skipped|] + skipped + first, true) ==
            Added(Holding(s, take, max), 1 + |skipped| + take, if take == |s| then Complete else More)
  {
    hide Add;
    hide Announced;
    var payload := [|skipped|] + skipped + first;
    assert payload[1 + |skipped|..] == first;
    assert Init(max).(waitPdu := false) == Holding(s, 0, max);
    AddFromSection(s, 0, max, first);
  }

  /** Transport payloads: a section cut in any way into payloads, the first one flagged and with a
      valid pointer_field, is rebuilt octet for octet; status 1 appears with the payload that
      brings its last octet and stays. */
  lemma PayloadRoundTrip(s: seq<byte>, max: nat, skipped: seq<byte>, first: seq<byte>, pieces: seq<seq<byte>>)
    requires IsSection(s, max) && |skipped| < 0x100 && s <= first + Flatten(pieces)
    ensures var r := AddPayload(Init(max), [|skipped|] + skipped + first, true);
            && Consistent(r.buf)
            && r.used == 1 + |skipped| + Min(|first|, |s|)
            && (r.status == if |first| >= |s| then Complete else More)
            && var (last, statuses) := Feed(r.buf, pieces);
            && last.data == s && Finished(last)
            && |statuses| == |pieces|
            && forall i :: 0 <= i < |pieces| ==> statuses[i] == if |first| + Total(pieces, i + 1) >= |s| then Complete else More
  {
    hide AddPayload;
    hide Feed;
    hide AnnouncedLength;
    PrefixSplit(s, first, Flatten(pieces));
    FirstPayload(s, max, skipped, first);
    FeedFromSection(s, Min(|first|, |s|), max, pieces);
  }

  lemma PrefixSplit(s: seq<byte>, first: seq<byte>, rest: seq<byte>)
    requires s <= first + rest
    ensures var take := Min(|first|, |s|); first[..take] == s[..take] && s[take..] <= rest
  {
  }

  /** A flagged payload that ends a section under way: accepted exactly when its pointer_field
      is the number of octets the section still lacks. */
  lemma ClosingPayload(s: seq<byte>, n: nat, max: nat, offset: byte, tail: seq<byte>)
    requires IsSection(s, max) && 0 < n < |s| && offset <= |tail|
    requires tail[..Min(offset, |s| - n)] == s[n..n + Min(offset, |s| - n)]
    ensures var r := AddPayload(Holding(s, n, max), [offset] + tail, true);
            && (r.status == Complete <==> offset == |s| - n)
            && (r.status == Complete ==> r.buf == Holding(s, |s|, max) && r.used == 1 + offset)
            && (r.status != Complete ==> r.status == TooBig && r.buf.waitPdu && r.used == 1 + Min(offset, |s| - n))
  {
    hide Add;
    hide Announced;
    var frag := ([offset] + tail)[1..1 + offset];
    assert frag == tail[..offset];
    assert frag[..Min(offset, |s| - n)] == tail[..Min(offset, |s| - n)];
    AddFromSection(s, n, max, frag);
  }

  // ---------------------------------------------------------------- payloads that bring nothing

  /** The length in a section header: twelve bits in the second and third octet, and the three octets themselves. */
  lemma AnnouncedMeans(tableId: byte, flags: nat, length: nat, tail: seq<byte>)
    requires flags < 16 && length < 4096
    ensures AnnouncedLength([tableId, 16 * flags + length / 256, length % 256] + tail) == length + 3
  {
    assert (16 * flags + length / 256) % 16 == length / 256;
  }

  /** A new buffer waits for the start of a section. */
  lemma NewBufferWaits(max: nat)
    requires max >= 3
    ensures var b := Init(max); b.waitPdu && b.data == [] && !b.header && b.max == max
  {
  }

  /** While it waits, unflagged payloads are passed over and change nothing. */
  lemma PassedOver(b: Buf, payload: seq<byte>)
    requires Consistent(b) && b.waitPdu && !(b.header && b.len == |b.data|)
    ensures AddPayload(b, payload, false) == Added(b, |payload|, More)
  {
  }

  /** A complete section stays until it is taken out. */
  lemma CompleteStays(b: Buf, payload: seq<byte>, pduStart: bool)
    requires Consistent(b) && b.header && b.len == |b.data| && (pduStart ==> payload != [])
    ensures AddPayload(b, payload, pduStart) == Added(b, 0, Complete) && Add(b, payload) == Added(b, 0, Complete)
  {
  }

  /** A pointer field that points behind the payload is an error, and the buffer waits again. */
  lemma PointerTooFar(b: Buf, pointer: byte, tail: seq<byte>)
    requires Consistent(b) && !(b.header && b.len == |b.data|) && pointer > |tail|
    ensures AddPayload(b, [pointer] + tail, true) == Added(b.(waitPdu := true), 1 + |tail|, BadPointer)
  {
  }

  lemma PointersAreNotSections(b: Buf, frag: seq<byte>)
    requires Consistent(b)
    ensures Add(b, frag).status != BadPointer
  {
    hide Announced;
  }

  /** After a payload the buffer waits exactly if it was refused, or if it waited and the payload was not flagged. */
  lemma WaitsExactly(b: Buf, payload: seq<byte>, pduStart: bool)
    requires Consistent(b) && !(b.header && b.len == |b.data|) && (pduStart ==> payload != [])
    ensures var r := AddPayload(b, payload, pduStart);
      r.buf.waitPdu <==> r.status == TooBig || r.status == BadPointer || (b.waitPdu && !pduStart)
  {
    var c := if pduStart then b.(waitPdu := false) else b;
    forall frag ensures Add(c, frag).status != BadPointer { PointersAreNotSections(c, frag); }
    hide Add;
    AddKeeps(c, payload);
    if pduStart && payload[0] + 1 <= |payload| {
      AddKeeps(c, payload[1..1 + payload[0]]);
      AddKeeps(c, payload[1 + payload[0]..]);
    }
  }

  /** Octets 0xFF in front of a section are padding. */
  lemma PaddingSkipped(s: seq<byte>, max: nat, k: nat)
    requires IsSection(s, max)
    ensures Add(Holding(s, 0, max), seq(k, _ => 0xFF) + s) == Added(Holding(s, |s|, max), k + |s|, Complete)
  {
    var b, pad := Holding(s, 0, max), seq(k, _ => 0xFF);
    OnlyPadding(b, k);
    AddJoined(b, pad, s);
    AddExact(s, 0, |s|, max);
    assert s[0..|s|] == s;
    hide Add;
    hide Holding;
  }

  lemma OnlyPadding(b: Buf, k: nat)
    requires Consistent(b) && b.data == [] && !Finished(b)
    ensures Add(b, seq(k, _ => 0xFF)) == Added(b, k, More)
  {
    var pad := seq(k, _ => 0xFF);
    PaddingIsAll(k);
    hide Grab;
  }

  lemma {:induction false} PaddingIsAll(k: nat)
    ensures Padding(seq(k, _ => 0xFF)) == k
  {
    if k > 0 {
      assert seq(k, _ => 0xFF)[1..] == seq(k - 1, _ => 0xFF);
      PaddingIsAll(k - 1);
    }
  }

  /** A section that announces more than the buffer holds is refused with the payload it starts in, and the
      buffer waits for the next one. */
  lemma TooBigRefused(max: nat, skipped: seq<byte>, tableId: byte, flags: nat, length: nat, tail: seq<byte>)
    requires max >= 3 && |skipped| < 0x100 && tableId != 0xFF && flags < 16 && length < 4096 && length + 3 > max
    ensures var front := [tableId, 16 * flags + length / 256, length % 256];
      var payload := [|skipped|] + skipped + (front + tail);
      AddPayload(Init(max), payload, true) == Added(Buf(max, front, length + 3, false, true), |payload|, TooBig)
  {
    var front := [tableId, 16 * flags + length / 256, length % 256];
    var first := front + tail;
    var payload := [|skipped|] + skipped + first;
    AnnouncedMeans(tableId, flags, length, []);
    assert front + [] == front;
    assert payload[1 + |skipped|..] == first && first[0..] == first && first[..3] == front && first[3..] == tail && [] + front == front;
    hide Announced;
  }

  // ---------------------------------------------------------------- the object

  /** struct section_buf and the `max` octets behind it. */
  class SectionBuf {
    var max: nat
    var count: nat
    var len: nat
    var header: bool
    var waitPdu: bool
    var bytes: array<byte>

    ghost function Model(): Buf
      reads this, bytes
      requires count <= bytes.Length
    {
      Buf(max, bytes[..count], len, header, waitPdu)
    }

    ghost predicate Valid()
      reads this, bytes
    {
      bytes.Length == max && count <= max && Consistent(Model())
    }

    /** section_buf_init */
    constructor (max: nat)
      requires max >= SECTION_HDR_SIZE
      ensures Valid() && fresh(bytes) && Model() == Init(max)
    {
      this.max := max;
      this.count := 0;
      this.len := SECTION_HDR_SIZE;
      this.header := false;
      this.waitPdu := true;
      this.bytes := new byte[max](_ => 0);
    }

    /** memcpy to the write position. */
    method Copy(frag: seq<byte>, from: nat, copy: nat)
      requires count + copy <= bytes.Length && from + copy <= |frag|
      modifies this`count, bytes
      ensures count == old(count) + copy && bytes[..count] == old(bytes[..count]) + frag[from..from + copy]
    {
      var k := 0;
      while k < copy
        invariant k <= copy && count == old(count)
        invariant bytes[..count] == old(bytes[..count])
        invariant bytes[count..count + k] == frag[from..from + k]
      {
        bytes[count + k] := frag[from + k];
        k := k + 1;
      }
      count := count + copy;
    }

    /** section_buf_add */
    method AddFragment(frag: seq<byte>) returns (used: nat, status: Status)
      requires Valid()
      modifies this, bytes
      ensures Valid() && bytes == old(bytes) && Added(Model(), used, status) == Add(old(Model()), frag)
    {
      hide Grab;
      hide Announced;
      if header && len == count { return 0, Complete; }
      var pos := 0;
      if count == 0 {
        pos := SkipPadding(frag);
        if pos == |frag| { return pos, More; }
      }
      used, status := GrabFragment(frag, pos);
    }

    /** section_buf_add behind the padding: the header first, then the body. */
    method GrabFragment(frag: seq<byte>, from: nat) returns (used: nat, status: Status)
      requires Valid() && !Finished(Model()) && from <= |frag|
      modifies this, bytes
      ensures Valid() && bytes == old(bytes) && Added(Model(), used, status) == Shift(Grab(old(Model()), frag[from..]), from)
    {
      hide Announced;
      hide Accumulate;
      hide StartBody;
      hide Grab;
      GrabKeeps(Model(), frag[from..]);
      ghost var b := Model();
      GrabCases(b, frag, from);
      if header {
        used, status := AccumulateFragment(frag, from);
      } else {
        var copy := Min(SECTION_HDR_SIZE - count, |frag| - from);
        Copy(frag, from, copy);
        if count != SECTION_HDR_SIZE { return from + copy, More; }
        ghost var data := bytes[..count];
        SameStart(b, data, frag[from + copy..]);
        used, status := StartFragment(frag, from + copy);
      }
    }

    /** The header is complete: work out the length and check that it is not too big. */
    method StartFragment(frag: seq<byte>, pos: nat) returns (used: nat, status: Status)
      requires count == SECTION_HDR_SIZE <= max == bytes.Length && !header && pos <= |frag|
      modifies this, bytes
      ensures bytes == old(bytes) && max == old(max) && count <= max
      ensures Added(Model(), used, status) == Shift(StartBody(old(Model()), old(bytes[..count]), frag[pos..]), pos)
    {
      hide Announced;
      len := AnnouncedLength(bytes[..count]);
      if len > max { return |frag|, TooBig; }
      header := true;
      used, status := AccumulateFragment(frag, pos);
    }

    /** The tail of section_buf_add. */
    method AccumulateFragment(frag: seq<byte>, pos: nat) returns (used: nat, status: Status)
      requires count <= len <= bytes.Length && pos <= |frag|
      modifies this`count, bytes
      ensures count <= len
      ensures Added(Model(), used, status) == Shift(Accumulate(old(Model()), frag[pos..]), pos)
    {
      var copy := Min(len - count, |frag| - pos);
      assert frag[pos..][..copy] == frag[pos..pos + copy];
      Copy(frag, pos, copy);
      return pos + copy, if header && len == count then Complete else More;
    }

    /** The padding loop of section_buf_add. */
    method SkipPadding(frag: seq<byte>) returns (n: nat)
      ensures n == Padding(frag)
    {
      n := 0;
      while n < |frag| && frag[n] == SECTION_PAD
        invariant n <= |frag| && Padding(frag) == n + Padding(frag[n..])
      {
        assert frag[n..][1..] == frag[n + 1..];
        n := n + 1;
      }
    }

    /** The part of section_buf_add_transport_payload that adds the end of the section before. */
    method AddFinalFragment(payload: seq<byte>, offset: nat) returns (used: nat, status: Status)
      requires Valid() && !Finished(Model()) && 1 + offset <= |payload|
      modifies this, bytes
      ensures Valid() && bytes == old(bytes)
      ensures var r := Add(old(Model()), payload[1..1 + offset]);
        Added(Model(), used, status) ==
          if r.used != offset || r.status != Complete then Added(r.buf.(waitPdu := true), 1 + r.used, TooBig)
          else Added(r.buf, 1 + r.used, Complete)
    {
      hide Add;
      hide Announced;
      hide Padding;
      AddEnds(Model(), payload[1..1 + offset]);
      used, status := AddFragment(payload[1..1 + offset]);
      if used != offset || len != count || status != Complete {
        status := TooBig;
        waitPdu := true;
      }
      used := 1 + used;
    }

    /** section_buf_add_transport_payload */
    method AddTransportPayload(payload: seq<byte>, pduStart: bool) returns (used: nat, status: Status)
      requires Valid() && (pduStart ==> |payload| >= 1)
      modifies this, bytes
      ensures Valid() && bytes == old(bytes)
      ensures Added(Model(), used, status) == AddPayload(old(Model()), payload, pduStart)
    {
      hide Add;
      hide Announced;
      hide Padding;
      if header && len == count { return 0, Complete; }
      if waitPdu && !pduStart { return |payload|, More; }
      var at := 0;
      if pduStart {
        waitPdu := false;
        var offset: nat := payload[0];
        if offset + 1 > |payload| {
          waitPdu := true;
          return |payload|, BadPointer;
        }
        if count != 0 {
          used, status := AddFinalFragment(payload, offset);
          return;
        }
        at := 1 + offset;
      }
      assert payload[0..] == payload;
      used, status := AddFragment(payload[at..]);
      if status == TooBig { waitPdu := true; }
      used := at + used;
    }
  }

  lemma GrabCases(b: Buf, frag: seq<byte>, from: nat)
    requires Consistent(b) && from <= |frag|
    ensures b.header ==> Grab(b, frag[from..]) == Accumulate(b, frag[from..])
    ensures !b.header ==>
      var copy := Min(SECTION_HDR_SIZE - |b.data|, |frag| - from);
      var data := b.data + frag[from..from + copy];
      Grab(b, frag[from..]) == if |data| != SECTION_HDR_SIZE then Added(b.(data := data), copy, More)
        else Shift(StartBody(b, data, frag[from + copy..]), copy)
  {
    if !b.header {
      var copy := Min(SECTION_HDR_SIZE - |b.data|, |frag| - from);
      assert frag[from..][..copy] == frag[from..from + copy] && frag[from..][copy..] == frag[from + copy..];
    }
  }

  /** What the buffer held of the header does not matter any more. */
  lemma SameStart(b: Buf, data: seq<byte>, rest: seq<byte>)
    requires |data| == SECTION_HDR_SIZE
    ensures StartBody(b.(data := data), data, rest) == StartBody(b, data, rest)
  {
  }

  /** Status 1 is given with a full section only. */
  lemma AddEnds(b: Buf, frag: seq<byte>)
    requires Consistent(b)
    ensures var r := Add(b, frag); r.status == Complete ==> r.buf.len == |r.buf.data|
  {
  }
}
