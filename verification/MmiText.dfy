/** The texts inside menu and list objects (EN 50221 section 8.6.5), as en50221_app_mmi_defragment_text and
    the text loop of en50221_app_mmi_parse_list_menu take them apart. */
module MmiText {
  import opened Bytes
  import opened Asn1

  const TEXT_LAST: nat := 0x9f8803
  const TEXT_MORE: nat := 0x9f8804

  function TagBytes(tag: nat): seq<byte> { [tag / 0x1_0000 % 0x100, tag / 0x100 % 0x100, tag % 0x100] }

  function TagOf(data: seq<byte>): nat
    requires |data| >= 3
  {
    data[0] as int * 0x1_0000 + data[1] as int * 0x100 + data[2] as int
  }

  /** The outcomes of taking one text off: the error return; a block that claims more octets than are
      left, which the code does not look for; or the joined text, the octets it took, and whether it had
      to be copied together. */
  datatype Taken = Failed | Overrun | Text(text: seq<byte>, consumed: nat, joined: bool)

  /** One block: its tag, its octets and how many it takes in all. */
  datatype Block = Broken | Beyond | Block(tag: nat, body: seq<byte>, size: nat)

  function FirstBlock(data: seq<byte>): (b: Block)
    ensures b.Block? ==> 3 < b.size <= |data|
  {
    if |data| < 3 then Broken else
      match DecodeLength(data[3..])
      case None => Broken
      case Some(field) =>
        var start := 3 + field.size;
        if TagOf(data) != TEXT_LAST && TagOf(data) != TEXT_MORE then Broken
        else if field.length > |data| - start then Beyond
        else Block(TagOf(data), data[start..start + field.length], start + field.length)
  }

  /** en50221_app_mmi_defragment_text */
  function TakeText(data: seq<byte>): (r: Taken)
    ensures r.Text? ==> 0 < r.consumed <= |data|
    decreases |data|
  {
    match FirstBlock(data)
    case Broken => Failed
    case Beyond => Overrun
    case Block(tag, body, size) =>
      if tag == TEXT_LAST then Text(body, size, false)
      else
        match TakeText(data[size..])
        case Failed => Failed
        case Overrun => Overrun
        case Text(rest, consumed, _) => Text(body + rest, size + consumed, true)
  }

  /** What a loop that takes off `n` texts ends with. */
  datatype Texts = Bad | Outside | Texts(texts: seq<seq<byte>>, rest: seq<byte>)

  function TakeTexts(data: seq<byte>, n: nat): (r: Texts)
    ensures r.Texts? ==> |r.texts| == n
  {
    if n == 0 then Texts([], data) else
      match TakeText(data)
      case Failed => Bad
      case Overrun => Outside
      case Text(text, consumed, _) =>
        match TakeTexts(data[consumed..], n - 1)
        case Bad => Bad
        case Outside => Outside
        case Texts(more, rest) => Texts([text] + more, rest)
  }

  /** The number of texts, kept in eight bits; 0xff says that the items are not texts. */
  function TextCount(choices: byte): nat { if choices == 0xff then 3 else (choices as int + 3) % 0x100 }

  /** The body of a complete menu or list object. */
  function ParseItems(data: seq<byte>): Texts {
    if |data| < 1 then Bad else TakeTexts(data[1..], TextCount(data[0]))
  }

  // ---------------------------------------------------------------- encoding, as the standard lays it out

  predicate Short(s: seq<byte>) { |s| <= 0xFFFF }

  function BlockBytes(tag: nat, body: seq<byte>): seq<byte>
    requires Short(body)
  {
    TagBytes(tag) + LengthField(|body|) + body
  }

  /** A text sent as one block or more, all but the last marked so. */
  function TextBytes(chunks: seq<seq<byte>>): seq<byte>
    requires chunks != [] && forall i :: 0 <= i < |chunks| ==> Short(chunks[i])
  {
    if |chunks| == 1 then BlockBytes(TEXT_LAST, chunks[0]) else BlockBytes(TEXT_MORE, chunks[0]) + TextBytes(chunks[1..])
  }

  predicate Sendable(texts: seq<seq<seq<byte>>>) {
    forall i, k :: 0 <= i < |texts| && 0 <= k < |texts[i]| ==> Short(texts[i][k])
  }

  predicate NoneEmpty(texts: seq<seq<seq<byte>>>) { forall i :: 0 <= i < |texts| ==> texts[i] != [] }

  function AllTextBytes(texts: seq<seq<seq<byte>>>): seq<byte>
    requires Sendable(texts) && NoneEmpty(texts)
  {
    if texts == [] then [] else
      assert forall k :: 0 <= k < |texts[0]| ==> Short(texts[0][k]);
      TextBytes(texts[0]) + AllTextBytes(texts[1..])
  }

  function Joined(texts: seq<seq<seq<byte>>>): seq<seq<byte>> {
    if texts == [] then [] else [Flatten(texts[0])] + Joined(texts[1..])
  }

  lemma BlockRoundTrip(tag: nat, body: seq<byte>, rest: seq<byte>)
    requires Short(body) && (tag == TEXT_LAST || tag == TEXT_MORE)
    ensures FirstBlock(BlockBytes(tag, body) + rest) == Block(tag, body, |BlockBytes(tag, body)|)
  {
    var data, field := BlockBytes(tag, body) + rest, LengthField(|body|);
    assert data[3..] == field + (body + rest);
    LengthRoundTrip(|body|, body + rest);
    assert TagOf(data) == tag;
    hide LengthField;
    hide DecodeLength;
    assert data[3 + |field|..3 + |field| + |body|] == body;
  }

  /** A chain of blocks gives its joined text and takes exactly its own octets, whatever follows. */
  lemma {:induction false} TextRoundTrip(chunks: seq<seq<byte>>, rest: seq<byte>)
    requires chunks != [] && forall i :: 0 <= i < |chunks| ==> Short(chunks[i])
    ensures TakeText(TextBytes(chunks) + rest) == Text(Flatten(chunks), |TextBytes(chunks)|, |chunks| > 1)
  {
    hide BlockBytes;
    hide FirstBlock;
    var data := TextBytes(chunks) + rest;
    if |chunks| == 1 {
      BlockRoundTrip(TEXT_LAST, chunks[0], rest);
    } else {
      var first, more := BlockBytes(TEXT_MORE, chunks[0]), TextBytes(chunks[1..]);
      assert data == first + (more + rest);
      BlockRoundTrip(TEXT_MORE, chunks[0], more + rest);
      assert data[|first|..] == more + rest;
      TextRoundTrip(chunks[1..], rest);
    }
  }

  /** The tags of EN 50221 section 8.6.5: a text ends with the block that has tag 9F 88 03, and goes on behind one with
      9F 88 04; a block with any other tag is an error. */
  lemma BlocksMean(last: byte, body: seq<byte>, rest: seq<byte>)
    requires |body| < 0x80
    ensures TakeText([0x9F, 0x88, last, |body|] + body + rest) ==
      if last == 3 then Text(body, 4 + |body|, false)
      else if last != 4 then Failed
      else match TakeText(rest)
        case Text(more, consumed, _) => Text(body + more, 4 + |body| + consumed, true)
        case other => other
  {
    var data := [0x9F, 0x88, last, |body|] + body + rest;
    assert data[3..] == [|body|] + body + rest;
    assert data[4..4 + |body|] == body && data[4 + |body|..] == rest;
    assert TagOf(data) == 0x9f8800 + last as int;
  }

  /** Octets that begin otherwise are no text. */
  lemma OtherTagsFail(data: seq<byte>)
    requires |data| < 3 || data[0] != 0x9F || data[1] != 0x88
    ensures TakeText(data) == Failed
  {
  }

  /** The first octet of an object counts its choices; behind it are three texts and the choices, or, when it
      is FF, three texts and whatever follows. */
  lemma CountedTexts(choices: byte, body: seq<byte>)
    ensures ParseItems([choices] + body) == TakeTexts(body, if choices == 0xFF then 3 else (choices as int + 3) % 256)
    ensures ParseItems([]) == Bad
  {
    assert ([choices] + body)[1..] == body;
  }

  lemma {:induction false} TextsRoundTrip(texts: seq<seq<seq<byte>>>, rest: seq<byte>)
    requires Sendable(texts) && NoneEmpty(texts)
    ensures TakeTexts(AllTextBytes(texts) + rest, |texts|) == Texts(Joined(texts), rest)
  {
    if texts == [] {
      assert [] + rest == rest;
    } else {
      assert forall k :: 0 <= k < |texts[0]| ==> Short(texts[0][k]);
      var first, more := TextBytes(texts[0]), AllTextBytes(texts[1..]);
      TextRoundTrip(texts[0], more + rest);
      assert AllTextBytes(texts) + rest == first + (more + rest);
      assert (first + (more + rest))[|first|..] == more + rest;
      TextsRoundTrip(texts[1..], rest);
    }
  }

  /** A menu or list object: the number of choices, the title, sub-title and bottom texts, and the
      choices or, when their number is 0xff, octets of another coding. */
  function ItemsBytes(choices: byte, texts: seq<seq<seq<byte>>>, raw: seq<byte>): seq<byte>
    requires Sendable(texts) && NoneEmpty(texts)
  {
    [choices] + (AllTextBytes(texts) + raw)
  }

  /** All texts of an object with up to 252 choices, or with items of another coding, are recovered. With
      253 or 254 choices the count wraps and only none or one is. */
  lemma ItemsRoundTrip(choices: byte, texts: seq<seq<seq<byte>>>, raw: seq<byte>)
    requires Sendable(texts) && NoneEmpty(texts) && |texts| == if choices == 0xff then 3 else choices as int + 3
    ensures ParseItems(ItemsBytes(choices, texts, raw)) == Texts(Joined(texts), raw) <==> choices <= 252 || choices == 0xff
  {
    var body := AllTextBytes(texts) + raw;
    assert ItemsBytes(choices, texts, raw) == [choices] + body && ([choices] + body)[1..] == body;
    hide AllTextBytes;
    hide ItemsBytes;
    hide TakeTexts;
    JoinedLength(texts);
    CountMeans(choices);
    if choices <= 252 || choices == 0xff { TextsRoundTrip(texts, raw); }
  }

  lemma CountMeans(choices: byte)
    ensures TextCount(choices) == (if choices == 0xff then 3 else choices as int + 3) <==> choices <= 252 || choices == 0xff
  {
  }

  lemma {:induction false} JoinedLength(texts: seq<seq<seq<byte>>>)
    ensures |Joined(texts)| == |texts|
  {
    if texts != [] { JoinedLength(texts[1..]); }
  }

  // ---------------------------------------------------------------- where the texts lie

  function Behind(c: nat, at: seq<nat>): (r: seq<nat>)
    ensures |r| == |at| && forall i :: 0 <= i < |r| ==> r[i] == c + at[i]
  {
    seq(|at|, i requires 0 <= i < |at| => c + at[i])
  }

  /** A text is what is taken off at one position, and reaches up to another. */
  predicate LiesAt(data: seq<byte>, from: nat, to: nat, text: seq<byte>) {
    && from < to <= |data|
    && TakeText(data[from..]).Text? && TakeText(data[from..]).text == text && TakeText(data[from..]).consumed == to - from
  }

  lemma LiesBehind(data: seq<byte>, c: nat, from: nat, to: nat, text: seq<byte>)
    requires c <= |data| && LiesAt(data[c..], from, to, text)
    ensures LiesAt(data, c + from, c + to, text)
  {
    assert data[c..][from..] == data[c + from..];
  }

  /** The texts fill the octets between neighbouring positions. */
  predicate InRow(data: seq<byte>, at: seq<nat>, texts: seq<seq<byte>>) {
    |at| == |texts| + 1 && at[0] == 0 && forall i :: 0 <= i < |texts| ==> LiesAt(data, at[i], at[i + 1], texts[i])
  }

  lemma RowGrows(data: seq<byte>, c: nat, text: seq<byte>, at: seq<nat>, texts: seq<seq<byte>>)
    requires c <= |data| && LiesAt(data, 0, c, text) && InRow(data[c..], at, texts)
    ensures InRow(data, [0] + Behind(c, at), [text] + texts)
  {
    hide LiesAt;
    var wider, all := [0] + Behind(c, at), [text] + texts;
    forall i | 0 <= i < |all| ensures LiesAt(data, wider[i], wider[i + 1], all[i]) {
      if i > 0 {
        assert LiesAt(data[c..], at[i - 1], at[i - 1 + 1], texts[i - 1]);
        LiesBehind(data, c, at[i - 1], at[i], texts[i - 1]);
      }
    }
  }

  /** Texts that are recovered lie one behind the other inside the object, each reaching to the start of
      the next, and the rest is what is behind the last. */
  lemma {:induction false} TextsStayInside(data: seq<byte>, n: nat) returns (at: seq<nat>)
    requires TakeTexts(data, n).Texts?
    ensures InRow(data, at, TakeTexts(data, n).texts) && |at| == n + 1
    ensures at[n] <= |data| && TakeTexts(data, n).rest == data[at[n]..]
  {
    hide LiesAt;
    hide TakeText;
    hide TakeTexts;
    hide InRow;
    if n == 0 {
      NoTexts(data);
      at := [0];
    } else {
      TextFirst(data, n);
      var c, text := TakeText(data).consumed, TakeText(data).text;
      var tail := data[c..];
      var sub := TextsStayInside(tail, n - 1);
      RowLength(tail, sub, TakeTexts(tail, n - 1).texts);
      RowGrows(data, c, text, sub, TakeTexts(tail, n - 1).texts);
      at := [0] + Behind(c, sub);
      DropDrop(data, c, sub[n - 1]);
    }
  }

  lemma DropDrop(data: seq<byte>, c: nat, k: nat)
    requires c + k <= |data|
    ensures data[c..][k..] == data[c + k..]
  {
  }

  lemma RowLength(data: seq<byte>, at: seq<nat>, texts: seq<seq<byte>>)
    requires InRow(data, at, texts)
    ensures |at| == |texts| + 1
  {
  }

  lemma NoTexts(data: seq<byte>)
    ensures TakeTexts(data, 0) == Texts([], data) && InRow(data, [0], []) && data[0..] == data
  {
  }

  lemma TextFirst(data: seq<byte>, n: nat)
    requires n > 0 && TakeTexts(data, n).Texts?
    ensures TakeText(data).Text? && LiesAt(data, 0, TakeText(data).consumed, TakeText(data).text)
    ensures var more := TakeTexts(data[TakeText(data).consumed..], n - 1);
      more.Texts? && TakeTexts(data, n) == Texts([TakeText(data).text] + more.texts, more.rest)
  {
    assert data[0..] == data;
    hide TakeText;
  }

  // ---------------------------------------------------------------- blocks that claim too much

  /** A text block, of either kind, whose length field says more octets than are left. */
  predicate ClaimsTooMuch(data: seq<byte>) {
    && |data| >= 3 && (TagOf(data) == TEXT_LAST || TagOf(data) == TEXT_MORE)
    && DecodeLength(data[3..]).Some?
    && 3 + DecodeLength(data[3..]).value.size + DecodeLength(data[3..]).value.length > |data|
  }

  /** Complete blocks, each with more to follow, fill the octets up to `at`. */
  predicate MoreBlocksTo(data: seq<byte>, at: nat)
    decreases at
  {
    at == 0 ||
    (var b := FirstBlock(data); b.Block? && b.tag == TEXT_MORE && b.size <= at && MoreBlocksTo(data[b.size..], at - b.size))
  }

  lemma BeyondMeans(data: seq<byte>)
    ensures FirstBlock(data) == Beyond <==> ClaimsTooMuch(data)
  {
  }

  /** The code would read behind its octets exactly when a text block that claims more than is left comes
      first or behind complete blocks with more to follow. */
  lemma {:induction false} OverrunExactly(data: seq<byte>)
    ensures TakeText(data) == Overrun <==> exists at :: 0 <= at <= |data| && MoreBlocksTo(data, at) && ClaimsTooMuch(data[at..])
    decreases |data|
  {
    hide ClaimsTooMuch;
    assert data[0..] == data;
    BeyondMeans(data);
    var b := FirstBlock(data);
    if b.Block? && b.tag == TEXT_MORE {
      var tail := data[b.size..];
      OverrunExactly(tail);
      if at :| 0 <= at <= |data| && MoreBlocksTo(data, at) && ClaimsTooMuch(data[at..]) {
        assert at > 0;
        assert data[at..] == tail[at - b.size..];
      }
      if at :| 0 <= at <= |tail| && MoreBlocksTo(tail, at) && ClaimsTooMuch(tail[at..]) {
        assert data[b.size + at..] == tail[at..];
        assert MoreBlocksTo(data, b.size + at);
      }
    } else if b == Beyond {
      assert MoreBlocksTo(data, 0);
    }
  }

  /** The first `m` texts are taken off and the octets behind them overrun. */
  predicate OverrunsAfter(data: seq<byte>, m: nat) { TakeTexts(data, m).Texts? && TakeText(TakeTexts(data, m).rest) == Overrun }

  lemma OverrunsSooner(data: seq<byte>, m: nat, n: nat)
    requires m < n
    ensures OverrunsAfter(data, m) <==>
      if m == 0 then TakeText(data) == Overrun else TakeText(data).Text? && OverrunsAfter(data[TakeText(data).consumed..], m - 1)
    ensures TakeTexts(data, n) == Outside <==>
      TakeText(data) == Overrun || (TakeText(data).Text? && TakeTexts(data[TakeText(data).consumed..], n - 1) == Outside)
  {
    hide TakeText;
  }

  /** The text loop reaches such a block exactly when some number of texts before the last is taken off and
      the octets behind them overrun. */
  lemma {:induction false} OutsideExactly(data: seq<byte>, n: nat)
    ensures TakeTexts(data, n) == Outside <==> exists m :: 0 <= m < n && OverrunsAfter(data, m)
  {
    hide TakeText;
    hide OverrunsAfter;
    if n > 0 {
      OverrunsSooner(data, 0, n);
      hide TakeTexts;
      var r := TakeText(data);
      if r.Text? { OutsideExactly(data[r.consumed..], n - 1); }
      if TakeTexts(data, n) == Outside {
        if r == Overrun {
          assert OverrunsAfter(data, 0);
        } else {
          var m :| 0 <= m < n - 1 && OverrunsAfter(data[r.consumed..], m);
          OverrunsSooner(data, m + 1, n);
          assert OverrunsAfter(data, m + 1);
        }
      } else {
        forall m | 0 <= m < n ensures !OverrunsAfter(data, m) { OverrunsSooner(data, m, n); }
      }
    }
  }
}
