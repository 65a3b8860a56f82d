/** The MMI resource of lib/libdvben50221/en50221_app_mmi.c (lines 207-236, 602-671, 841-1009 and 1011-1397)
    with its session records, which are changed in place. */
module MmiObject {
  import opened Bytes
  import opened Asn1
  import MmiText
  import opened Mmi

  /** struct en50221_app_mmi_session; an absent block chain is an empty one. */
  class SessionRecord {
    const number: u16
    var menu: seq<byte>
    var list: seq<byte>
    var segment: seq<byte>
    var download: seq<byte>

    constructor (number: u16)
      ensures this.number == number && menu == list == segment == download == []
    {
      this.number := number;
      menu, list, segment, download := [], [], [], [];
    }

    function ToEntry(): Entry
      reads this
    {
      Entry(number, menu, list, segment, download)
    }

    /** The block chain that the tag of an object selects. */
    method SetChain(f: Family, chain: seq<byte>)
      modifies this
      ensures ToEntry() == WithChain(old(ToEntry()), f, chain)
    {
      match f
      case Menu => menu := chain;
      case List => list := chain;
      case Segment => segment := chain;
      case Download => download := chain;
    }
  }

  ghost function Entries(records: seq<SessionRecord>): (s: seq<Entry>)
    reads records
    ensures |s| == |records| && forall i :: 0 <= i < |s| ==> s[i] == records[i].ToEntry()
  {
    if records == [] then [] else [records[0].ToEntry()] + Entries(records[1..])
  }

  lemma FirstIs(s: seq<Entry>, n: u16, k: nat)
    requires k <= |s| && (k < |s| ==> s[k].session == n) && forall i :: 0 <= i < k ==> s[i].session != n
    ensures Find(s, n) == k
  {
  }

  class MmiApp {
    /** The linked list of sessions, first one first. */
    var sessions: seq<SessionRecord>

    ghost predicate Valid()
      reads this, sessions
    {
      Distinct(Entries(sessions))
    }

    constructor ()
      ensures Valid() && sessions == []
    {
      sessions := [];
    }

    /** The search both functions start with. */
    method FindSession(n: u16) returns (k: nat)
      ensures k == Find(Entries(sessions), n)
    {
      k := 0;
      while k < |sessions| && sessions[k].number != n
        invariant k <= |sessions| && forall i :: 0 <= i < k ==> sessions[i].number != n
      {
        k := k + 1;
      }
      FirstIs(Entries(sessions), n, k);
    }

    /** Sets one block chain of the session at `k`. */
    method Store(k: nat, f: Family, chain: seq<byte>)
      requires Valid() && k < |sessions|
      modifies sessions[k]
      ensures Valid() && Entries(sessions) == old(Entries(sessions))[k := WithChain(old(Entries(sessions))[k], f, chain)]
    {
      ghost var was := Entries(sessions);
      assert forall i :: 0 <= i < |sessions| && i != k ==> was[i].session != was[k].session && sessions[i] != sessions[k];
      sessions[k].SetChain(f, chain);
      hide Distinct;
      assert Entries(sessions) == was[k := WithChain(was[k], f, chain)];
      StoreKeepsDistinct(was, k, f, chain);
    }

    lemma StoreKeepsDistinct(was: seq<Entry>, k: nat, f: Family, chain: seq<byte>)
      requires Distinct(was) && k < |was|
      ensures Distinct(was[k := WithChain(was[k], f, chain)])
    {
    }

    /** A record for a session that has none, in front of the others. */
    method AddSession(n: u16)
      requires Valid() && Find(Entries(sessions), n) == |sessions|
      modifies this`sessions
      ensures Valid() && Entries(sessions) == [Entry(n, [], [], [], [])] + old(Entries(sessions))
      ensures forall o :: o in sessions ==> o in old(sessions) || fresh(o)
    {
      hide Distinct;
      NewEntry(Entries(sessions), n, n, Menu);
      var added := new SessionRecord(n);
      ghost var was := Entries(sessions);
      sessions := [added] + sessions;
      assert Entries(sessions) == [Entry(n, [], [], [], [])] + was;
    }

    /** The first half of en50221_app_mmi_defragment: a session for a fragment with more to follow. */
    method Obtain(n: u16) returns (k: nat)
      requires Valid()
      modifies this`sessions
      ensures Valid() && k < |sessions| && k == Find(Entries(sessions), n)
      ensures var was := old(Entries(sessions));
        Entries(sessions) == if Find(was, n) < |was| then was else [Entry(n, [], [], [], [])] + was
      ensures forall o :: o in sessions ==> o in old(sessions) || fresh(o)
    {
      hide Distinct;
      k := FindSession(n);
      if k == |sessions| {
        AddSession(n);
        FirstIs(Entries(sessions), n, 0);
        k := 0;
      }
    }

    /** en50221_app_mmi_defragment */
    method Defragment(n: u16, tag: nat, last: bool, data: seq<byte>) returns (r: Outcome)
      requires Valid()
      modifies this, sessions
      ensures Valid() && (Entries(sessions), r) == Mmi.Defragment(old(Entries(sessions)), n, tag, last, data)
    {
      hide Distinct;
      hide FamilyOf;
      hide Chain;
      hide WithChain;
      hide Find;
      hide Entries;
      r := Failed;
      var family := FamilyOf(tag);
      if !last {
        var k := Obtain(n);
        if family.Some? {
          assert sessions[k] in sessions;
          Store(k, family.value, Chain(sessions[k].ToEntry(), family.value) + data);
          r := Waiting;
        }
      } else {
        var k := FindSession(n);
        if k == |sessions| {
          r := Whole(data, false);
        } else if family.Some? {
          r := Whole(Chain(sessions[k].ToEntry(), family.value) + data, true);
          Store(k, family.value, []);
        }
      }
    }

    /** en50221_app_mmi_clear_session */
    method ClearSession(n: u16)
      requires Valid()
      modifies this`sessions
      ensures Valid() && Entries(sessions) == Clear(old(Entries(sessions)), n)
    {
      hide Distinct;
      hide Step;
      hide Pending;
      hide Entries;
      var k := FindSession(n);
      ghost var was := Entries(sessions);
      ClearMeans(was, n, n, Menu);
      if k < |sessions| {
        sessions := sessions[..k] + sessions[k + 1..];
        assert Entries(sessions) == was[..k] + was[k + 1..];
      }
    }

    /** en50221_app_mmi_message for an object that may come in fragments. */
    method Message(n: u16, tag: nat, data: seq<byte>) returns (r: Delivery)
      requires Valid() && FamilyOf(tag).Some?
      modifies this, sessions
      ensures Valid() && (Entries(sessions), r) == Mmi.Message(old(Entries(sessions)), n, tag, data)
    {
      hide Mmi.Defragment;
      hide Distinct;
      hide DecodeLength;
      hide MmiText.ParseItems;
      var field := DecodeLength(data);
      if field == None { return Refused; }
      if field.value.length > |data| - field.value.size { return Refused; }
      var body := data[field.value.size..field.value.size + field.value.length];
      var outcome := Defragment(n, tag, IsLast(tag), body);
      match outcome
      case Failed => r := Refused;
      case Waiting => r := Quiet;
      case Whole(whole, _) =>
        if FamilyOf(tag).value == Segment || FamilyOf(tag).value == Download {
          r := Subtitle(FamilyOf(tag).value, whole);
        } else {
          var items := ParseItems(whole);
          match items
          case Bad => r := Refused;
          case Outside => r := Overrun;
          case Texts(texts, rest) => r := Items(FamilyOf(tag).value, texts, if whole != [] && whole[0] == 0xff then Some(rest) else None);
        }
    }

    /** en50221_app_mmi_message; None for a tag whose handler is not part of this model. */
    method Receive(n: u16, data: seq<byte>) returns (r: Option<Delivery>)
      requires Valid()
      modifies this, sessions
      ensures Valid()
      ensures match Mmi.Receive(old(Entries(sessions)), n, data)
        case Some((entries, delivery)) => Entries(sessions) == entries && r == Some(delivery)
        case None => Entries(sessions) == old(Entries(sessions)) && r == None
    {
      hide Mmi.Message;
      hide Distinct;
      if |data| < 3 { return Some(Refused); }
      var tag := data[0] as int * 0x1_0000 + data[1] as int * 0x100 + data[2] as int;
      if FamilyOf(tag) == None { return None; }
      var delivery := Message(n, tag, data[3..]);
      r := Some(delivery);
    }
  }

  // ---------------------------------------------------------------- texts

  /** The outcome of the whole, given the text and the octets so far and the outcome of what is left. */
  ghost function Extended(text: Option<seq<byte>>, consumed: nat, r: MmiText.Taken): MmiText.Taken {
    match r
    case Text(more, n, joined) => MmiText.Text((if text.Some? then text.value else []) + more, consumed + n, joined || text.Some?)
    case _ => r
  }

  /** One turn of the loop, up to the switch on the tag. */
  method TakeBlock(data: seq<byte>, at: nat) returns (b: MmiText.Block)
    requires at <= |data|
    ensures b == MmiText.FirstBlock(data[at..])
  {
    ghost var rest := data[at..];
    if |data| - at < 3 { return MmiText.Broken; }
    var tag := MmiText.TagOf(data[at..]);
    var field := DecodeLength(data[at + 3..]);
    assert rest[3..] == data[at + 3..];
    if field == None { return MmiText.Broken; }
    var start, length := at + 3 + field.value.size, field.value.length;
    if tag != MmiText.TEXT_LAST && tag != MmiText.TEXT_MORE { return MmiText.Broken; }
    if length > |data| - start { return MmiText.Beyond; }
    assert rest[start - at..start - at + length] == data[start..start + length];
    return MmiText.Block(tag, data[start..start + length], start + length - at);
  }

  /** en50221_app_mmi_defragment_text; `text` is None while its pointer is null. */
  method DefragmentText(data: seq<byte>) returns (r: MmiText.Taken)
    ensures r == MmiText.TakeText(data)
  {
    hide MmiText.FirstBlock;
    var text: Option<seq<byte>> := None;
    var consumed := 0;
    assert data[0..] == data;
    while true
      invariant consumed <= |data|
      invariant MmiText.TakeText(data) == Extended(text, consumed, MmiText.TakeText(data[consumed..]))
      decreases |data| - consumed
    {
      var block := TakeBlock(data, consumed);
      match block {
        case Broken => return MmiText.Failed;
        case Beyond => return MmiText.Overrun;
        case Block(tag, body, size) =>
          var sofar := if text.Some? then text.value else [];
          if tag == MmiText.TEXT_LAST {
            return MmiText.Text(sofar + body, consumed + size, text.Some?);
          }
          assert data[consumed..][size..] == data[consumed + size..];
          ExtendedTwice(text, body, consumed, size, MmiText.TakeText(data[consumed + size..]));
          text := Some(sofar + body);
          consumed := consumed + size;
      }
    }
  }

  lemma ExtendedTwice(text: Option<seq<byte>>, body: seq<byte>, consumed: nat, size: nat, r: MmiText.Taken)
    ensures Extended(text, consumed, Extended(Some(body), size, r))
      == Extended(Some((if text.Some? then text.value else []) + body), consumed + size, r)
  {
  }

  /** The outcome of the whole loop, given the texts so far and the outcome of what is left. */
  ghost function Following(texts: seq<seq<byte>>, r: MmiText.Texts): MmiText.Texts {
    match r
    case Texts(more, end) => MmiText.Texts(texts + more, end)
    case _ => r
  }

  lemma FollowingStep(texts: seq<seq<byte>>, rest: seq<byte>, n: nat)
    requires n > 0
    ensures var r := MmiText.TakeText(rest);
      Following(texts, MmiText.TakeTexts(rest, n)) ==
        if r.Text? then Following(texts + [r.text], MmiText.TakeTexts(rest[r.consumed..], n - 1))
        else if r.Failed? then MmiText.Bad else MmiText.Outside
  {
  }

  /** The text loop of en50221_app_mmi_parse_list_menu. */
  method ParseItems(data: seq<byte>) returns (r: MmiText.Texts)
    ensures r == MmiText.ParseItems(data)
  {
    hide MmiText.TakeText;
    if |data| < 1 { return MmiText.Bad; }
    var count := MmiText.TextCount(data[0]);
    var rest := data[1..];
    var texts: seq<seq<byte>> := [];
    var i := 0;
    FollowingNone(MmiText.TakeTexts(rest, count));
    while i < count
      invariant i <= count && Following(texts, MmiText.TakeTexts(rest, count - i)) == MmiText.ParseItems(data)
    {
      FollowingStep(texts, rest, count - i);
      var text := DefragmentText(rest);
      match text {
        case Failed => return MmiText.Bad;
        case Overrun => return MmiText.Outside;
        case Text(t, consumed, _) =>
          texts := texts + [t];
          rest := rest[consumed..];
      }
      i := i + 1;
    }
    assert texts + [] == texts;
    return MmiText.Texts(texts, rest);
  }

  lemma FollowingNone(r: MmiText.Texts)
    ensures Following([], r) == r
  {
  }
}
