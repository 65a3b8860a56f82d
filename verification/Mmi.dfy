/** The fragments of menu, list and subtitle objects that lib/libdvben50221/en50221_app_mmi.c keeps for each
    session, on values. */
module Mmi {
  import opened Bytes
  import opened Asn1
  import MmiText

  /** The four kinds of object that may come in fragments, each with a tag for the last fragment and one
      for those before it. */
  datatype Family = Menu | List | Segment | Download

  const MENU_LAST: nat := 0x9f8809
  const MENU_MORE: nat := 0x9f880a
  const LIST_LAST: nat := 0x9f880c
  const LIST_MORE: nat := 0x9f880d
  const SEGMENT_LAST: nat := 0x9f880e
  const SEGMENT_MORE: nat := 0x9f880f
  const DOWNLOAD_LAST: nat := 0x9f8814
  const DOWNLOAD_MORE: nat := 0x9f8815

  function FamilyOf(tag: nat): Option<Family> {
    if tag == MENU_LAST || tag == MENU_MORE then Some(Menu)
    else if tag == LIST_LAST || tag == LIST_MORE then Some(List)
    else if tag == SEGMENT_LAST || tag == SEGMENT_MORE then Some(Segment)
    else if tag == DOWNLOAD_LAST || tag == DOWNLOAD_MORE then Some(Download)
    else None
  }

  /** struct en50221_app_mmi_session */
  datatype Entry = Entry(session: u16, menu: seq<byte>, list: seq<byte>, segment: seq<byte>, download: seq<byte>)

  function Chain(e: Entry, f: Family): seq<byte> {
    match f case Menu => e.menu case List => e.list case Segment => e.segment case Download => e.download
  }

  function WithChain(e: Entry, f: Family, chain: seq<byte>): Entry {
    match f
    case Menu => e.(menu := chain)
    case List => e.(list := chain)
    case Segment => e.(segment := chain)
    case Download => e.(download := chain)
  }

  /** The first entry of a session, or the length of the list. */
  function Find(s: seq<Entry>, n: u16): (k: nat)
    ensures k <= |s| && (k < |s| ==> s[k].session == n) && forall i :: 0 <= i < k ==> s[i].session != n
  {
    if s == [] || s[0].session == n then 0 else 1 + Find(s[1..], n)
  }

  /** The error return, more to come, or the whole object and whether it was put together. */
  datatype Outcome = Failed | Waiting | Whole(data: seq<byte>, joined: bool)

  /** en50221_app_mmi_defragment */
  function Defragment(s: seq<Entry>, n: u16, tag: nat, last: bool, data: seq<byte>): (seq<Entry>, Outcome) {
    var known := Find(s, n) < |s|;
    if !last then
      var t := if known then s else [Entry(n, [], [], [], [])] + s;
      match FamilyOf(tag)
      case None => (t, Failed)
      case Some(f) => (t[Find(t, n) := WithChain(t[Find(t, n)], f, Chain(t[Find(t, n)], f) + data)], Waiting)
    else if known then
      match FamilyOf(tag)
      case None => (s, Failed)
      case Some(f) => (s[Find(s, n) := WithChain(s[Find(s, n)], f, [])], Whole(Chain(s[Find(s, n)], f) + data, true))
    else (s, Whole(data, false))
  }

  /** en50221_app_mmi_clear_session */
  function Clear(s: seq<Entry>, n: u16): seq<Entry> {
    if Find(s, n) < |s| then s[..Find(s, n)] + s[Find(s, n) + 1..] else s
  }

  // ---------------------------------------------------------------- runs

  datatype Event = Fragment(session: u16, tag: nat, last: bool, data: seq<byte>) | Cleared(session: u16)

  function Next(s: seq<Entry>, e: Event): seq<Entry> {
    match e
    case Fragment(n, tag, last, data) => Defragment(s, n, tag, last, data).0
    case Cleared(n) => Clear(s, n)
  }

  function After(s: seq<Entry>, events: seq<Event>): seq<Entry>
    decreases |events|
  {
    if events == [] then s else After(Next(s, events[0]), events[1..])
  }

  predicate Distinct(s: seq<Entry>) { forall i, j :: 0 <= i < j < |s| ==> s[i].session != s[j].session }

  /** What is kept of a session's object. */
  function Pending(s: seq<Entry>, n: u16, f: Family): seq<byte> {
    if Find(s, n) < |s| then Chain(s[Find(s, n)], f) else []
  }

  /** What the events say is outstanding: the fragments of that session and family since its last
      complete object, or since the session was cleared. */
  function Outstanding(was: seq<byte>, events: seq<Event>, n: u16, f: Family): seq<byte>
    decreases |events|
  {
    if events == [] then was else Outstanding(Step(was, events[0], n, f), events[1..], n, f)
  }

  function Step(was: seq<byte>, e: Event, n: u16, f: Family): seq<byte> {
    match e
    case Fragment(m, tag, last, data) => if m == n && FamilyOf(tag) == Some(f) then if last then [] else was + data else was
    case Cleared(m) => if m == n then [] else was
  }

  lemma {:induction false} SameSessions(t: seq<Entry>, u: seq<Entry>, m: u16)
    requires |u| == |t| && forall i :: 0 <= i < |u| ==> u[i].session == t[i].session
    ensures Find(u, m) == Find(t, m)
  {
  }

  lemma NewEntry(s: seq<Entry>, n: u16, m: u16, g: Family)
    requires Distinct(s) && Find(s, n) == |s|
    ensures var t := [Entry(n, [], [], [], [])] + s; Distinct(t) && Find(t, n) == 0 && Pending(t, m, g) == Pending(s, m, g)
  {
    var t := [Entry(n, [], [], [], [])] + s;
    assert t[1..] == s;
  }

  lemma ChainSet(t: seq<Entry>, n: u16, f: Family, chain: seq<byte>, m: u16, g: Family)
    requires Distinct(t) && Find(t, n) < |t|
    ensures var u := t[Find(t, n) := WithChain(t[Find(t, n)], f, chain)];
      Distinct(u) && Pending(u, m, g) == if m == n && g == f then chain else Pending(t, m, g)
  {
    SameSessions(t, t[Find(t, n) := WithChain(t[Find(t, n)], f, chain)], m);
  }

  /** One fragment changes what is kept of its own session and family only. */
  lemma DefragmentMeans(s: seq<Entry>, n: u16, tag: nat, last: bool, data: seq<byte>, m: u16, g: Family)
    requires Distinct(s)
    ensures Distinct(Defragment(s, n, tag, last, data).0)
    ensures Pending(Defragment(s, n, tag, last, data).0, m, g) == Step(Pending(s, m, g), Fragment(n, tag, last, data), m, g)
  {
    hide Distinct;
    hide Find;
    var known := Find(s, n) < |s|;
    if !known { NewEntry(s, n, m, g); }
    if FamilyOf(tag).Some? {
      var f, t := FamilyOf(tag).value, if known || last then s else [Entry(n, [], [], [], [])] + s;
      if known || !last {
        var chain := if last then [] else Chain(t[Find(t, n)], f) + data;
        ChainSet(t, n, f, chain, m, g);
      }
    }
  }

  lemma ClearMeans(s: seq<Entry>, n: u16, m: u16, g: Family)
    requires Distinct(s)
    ensures Distinct(Clear(s, n))
    ensures Pending(Clear(s, n), m, g) == Step(Pending(s, m, g), Cleared(n), m, g)
  {
    var k, j, t := Find(s, n), Find(s, m), Clear(s, n);
    ClearRemoves(s, n);
    hide Distinct;
    hide Find;
    hide Clear;
    if k < |s| {
      if m == n { NotFound(t, n); }
      else if j < |s| { FoundAt(t, m, if j < k then j else j - 1); }
      else { NotFound(t, m); }
    }
  }

  lemma ClearRemoves(s: seq<Entry>, n: u16)
    requires Distinct(s)
    ensures var k, t := Find(s, n), Clear(s, n);
      if k == |s| then t == s
      else
        && |t| == |s| - 1 && Distinct(t)
        && forall i :: 0 <= i < |t| ==> t[i] == s[if i < k then i else i + 1] && t[i].session != n
  {
    var k, t := Find(s, n), Clear(s, n);
    hide Find;
    if k < |s| {
      assert forall i :: 0 <= i < |t| ==> t[i] == s[if i < k then i else i + 1];
      forall i | 0 <= i < |t| ensures t[i].session != n {
        var at := if i < k then i else i + 1;
        assert s[at].session != s[k].session;
      }
      forall i, j | 0 <= i < j < |t| ensures t[i].session != t[j].session {
        assert s[if i < k then i else i + 1].session != s[if j < k then j else j + 1].session;
      }
    }
  }

  lemma FoundAt(t: seq<Entry>, m: u16, k: nat)
    requires Distinct(t) && k < |t| && t[k].session == m
    ensures Find(t, m) == k
  {
  }

  lemma NotFound(t: seq<Entry>, m: u16)
    requires forall i :: 0 <= i < |t| ==> t[i].session != m
    ensures Find(t, m) == |t|
  {
  }

  /** In every reachable state each session has one entry, and what is kept for a session and family is
      what is outstanding of it. */
  lemma {:induction false} RunKeepsFragments(s: seq<Entry>, events: seq<Event>, n: u16, f: Family)
    requires Distinct(s)
    ensures Distinct(After(s, events)) && Pending(After(s, events), n, f) == Outstanding(Pending(s, n, f), events, n, f)
    decreases |events|
  {
    if events != [] {
      match events[0] {
        case Fragment(m, tag, last, data) => DefragmentMeans(s, m, tag, last, data, n, f);
        case Cleared(m) => ClearMeans(s, m, n, f);
      }
      RunKeepsFragments(Next(s, events[0]), events[1..], n, f);
    }
  }

  predicate Concerns(e: Event, n: u16, f: Family) {
    match e case Fragment(m, tag, _, _) => m == n && FamilyOf(tag) == Some(f) case Cleared(m) => m == n
  }

  /** The events of a session and family on their own. */
  function Own(events: seq<Event>, n: u16, f: Family): seq<Event> {
    if events == [] then [] else (if Concerns(events[0], n, f) then [events[0]] else []) + Own(events[1..], n, f)
  }

  /** Only fragments with more to follow, carrying these octets. */
  predicate AreMore(events: seq<Event>, chunks: seq<seq<byte>>) {
    |events| == |chunks| && forall i :: 0 <= i < |events| ==> events[i].Fragment? && !events[i].last && events[i].data == chunks[i]
  }

  lemma {:induction false} OutstandingIsJoined(was: seq<byte>, events: seq<Event>, chunks: seq<seq<byte>>, n: u16, f: Family)
    requires AreMore(Own(events, n, f), chunks)
    ensures Outstanding(was, events, n, f) == was + Flatten(chunks)
    decreases |events|
  {
    if events != [] {
      var own := Own(events, n, f);
      if Concerns(events[0], n, f) {
        assert own[0] == events[0] && own[1..] == Own(events[1..], n, f);
        OutstandingIsJoined(was + chunks[0], events[1..], chunks[1..], n, f);
        assert was + chunks[0] + Flatten(chunks[1..]) == was + (chunks[0] + Flatten(chunks[1..]));
      } else {
        assert own == Own(events[1..], n, f);
        OutstandingIsJoined(was, events[1..], chunks, n, f);
      }
    }
  }

  lemma LastMeans(s: seq<Entry>, n: u16, tag: nat, data: seq<byte>)
    requires FamilyOf(tag).Some?
    ensures Defragment(s, n, tag, true, data).1 == Whole(Pending(s, n, FamilyOf(tag).value) + data, Find(s, n) < |s|)
  {
  }

  /** A last fragment gives the concatenation of all fragments of its session and family since the
      previous one, whatever else happened in between on other sessions and families. */
  lemma LastGivesTheObject(s: seq<Entry>, events: seq<Event>, chunks: seq<seq<byte>>, n: u16, tag: nat, data: seq<byte>)
    requires Distinct(s) && FamilyOf(tag).Some? && Pending(s, n, FamilyOf(tag).value) == []
    requires AreMore(Own(events, n, FamilyOf(tag).value), chunks)
    ensures var (t, r) := Defragment(After(s, events), n, tag, true, data);
      r.Whole? && r.data == Flatten(chunks) + data && Pending(t, n, FamilyOf(tag).value) == []
  {
    hide Defragment;
    hide Pending;
    hide Distinct;
    hide AreMore;
    hide Flatten;
    var f, t := FamilyOf(tag).value, After(s, events);
    RunKeepsFragments(s, events, n, f);
    LastMeans(t, n, tag, data);
    OutstandingIsJoined([], events, chunks, n, f);
    assert [] + Flatten(chunks) == Flatten(chunks);
    DefragmentMeans(t, n, tag, true, data, n, f);
  }

  // ---------------------------------------------------------------- messages

  /** What reaches the application: the error return, nothing yet, the texts of a menu or list with what
      is behind them, a subtitle object, or the case the code does not look for. */
  datatype Delivery =
    | Refused
    | Quiet
    | Items(family: Family, texts: seq<seq<byte>>, raw: Option<seq<byte>>)
    | Subtitle(family: Family, data: seq<byte>)
    | Overrun

  function Deliver(f: Family, data: seq<byte>): Delivery {
    if f == Segment || f == Download then Subtitle(f, data)
    else
      match MmiText.ParseItems(data)
      case Bad => Refused
      case Outside => Overrun
      case Texts(texts, rest) => Items(f, texts, if data != [] && data[0] == 0xff then Some(rest) else None)
  }

  /** The body of an object behind its tag: its length field, and as many octets as that says. */
  function Body(data: seq<byte>): Option<seq<byte>> {
    match DecodeLength(data)
    case None => None
    case Some(field) =>
      if field.length > |data| - field.size then None else Some(data[field.size..field.size + field.length])
  }

  predicate IsLast(tag: nat) { tag == MENU_LAST || tag == LIST_LAST || tag == SEGMENT_LAST || tag == DOWNLOAD_LAST }

  /** en50221_app_mmi_message for the tags of the four families, with parse_list_menu and parse_subtitle. */
  function Message(s: seq<Entry>, n: u16, tag: nat, data: seq<byte>): (seq<Entry>, Delivery)
    requires FamilyOf(tag).Some?
  {
    match Body(data)
    case None => (s, Refused)
    case Some(body) =>
      var (t, r) := Defragment(s, n, tag, IsLast(tag), body);
      match r
      case Failed => (t, Refused)
      case Waiting => (t, Quiet)
      case Whole(whole, _) => (t, Deliver(FamilyOf(tag).value, whole))
  }

  /** The object tags of EN 50221 section 8.6.5 and of the subtitle and download objects: which object, and whether
      this fragment is the last. */
  lemma TagsMean(tag: nat)
    ensures FamilyOf(tag) ==
      if tag == 0x9f8809 || tag == 0x9f880a then Some(Menu) else if tag == 0x9f880c || tag == 0x9f880d then Some(List)
      else if tag == 0x9f880e || tag == 0x9f880f then Some(Segment) else if tag == 0x9f8814 || tag == 0x9f8815 then Some(Download) else None
    ensures FamilyOf(tag).Some? ==> (IsLast(tag) <==> tag == 0x9f8809 || tag == 0x9f880c || tag == 0x9f880e || tag == 0x9f8814)
  {
  }

  /** Subtitle and download objects reach the application as they are, a menu or list only with its texts. */
  lemma DeliveredAs(s: seq<Entry>, n: u16, tag: nat, data: seq<byte>)
    requires FamilyOf(tag).Some? && Find(s, n) == |s| && |data| < 0x80
    ensures Message(s, n, tag, [|data|] + data) ==
      if tag == 0x9f8809 || tag == 0x9f880c then
        (s, match MmiText.ParseItems(data)
            case Bad => Refused
            case Outside => Overrun
            case Texts(texts, rest) =>
              Items(if tag == 0x9f8809 then Menu else List, texts, if data != [] && data[0] == 255 then Some(rest) else None))
      else if tag == 0x9f880e || tag == 0x9f8814 then (s, Subtitle(if tag == 0x9f880e then Segment else Download, data))
      else ([WithChain(Entry(n, [], [], [], []), FamilyOf(tag).value, data)] + s, Quiet)
  {
    ShortBody(data);
    FirstFragment(s, n, tag, data);
    TagsMean(tag);
    hide MmiText.ParseItems;
    hide Defragment;
    hide Body;
    hide FamilyOf;
    hide IsLast;
    hide WithChain;
  }

  lemma ShortBody(data: seq<byte>)
    requires |data| < 0x80
    ensures Body([|data|] + data) == Some(data)
  {
    assert ([|data|] + data)[1..1 + |data|] == data;
  }

  lemma FirstFragment(s: seq<Entry>, n: u16, tag: nat, data: seq<byte>)
    requires FamilyOf(tag).Some? && Find(s, n) == |s|
    ensures Defragment(s, n, tag, true, data) == (s, Whole(data, false))
    ensures Defragment(s, n, tag, false, data) == ([WithChain(Entry(n, [], [], [], []), FamilyOf(tag).value, data)] + s, Waiting)
  {
    hide FamilyOf;
    var t := [Entry(n, [], [], [], [])] + s;
    assert Find(t, n) == 0;
    assert Chain(t[0], FamilyOf(tag).value) == [] && [] + data == data;
    var e := WithChain(t[0], FamilyOf(tag).value, data);
    hide WithChain;
    assert t[0 := e] == [e] + s;
  }

  /** en50221_app_mmi_message for these tags; None for the others, whose handlers are not part of this model. */
  function Receive(s: seq<Entry>, n: u16, data: seq<byte>): Option<(seq<Entry>, Delivery)> {
    if |data| < 3 then Some((s, Refused))
    else if FamilyOf(MmiText.TagOf(data)).None? then None
    else Some(Message(s, n, MmiText.TagOf(data), data[3..]))
  }

  /** The tag is in the first three octets, and the object behind it. */
  lemma ReceivedByTag(s: seq<Entry>, n: u16, low: byte, body: seq<byte>)
    ensures Receive(s, n, [0x9F, 0x88, low] + body) ==
      if low == 0x09 || low == 0x0A || 0x0C <= low <= 0x0F || low == 0x14 || low == 0x15 then Some(Message(s, n, 0x9f8800 + low as int, body)) else None
  {
    var data := [0x9F, 0x88, low] + body;
    assert data[3..] == body && MmiText.TagOf(data) == 0x9f8800 + low as int;
    TagsMean(0x9f8800 + low as int);
    hide Message;
  }

  lemma OtherTagsNotHere(s: seq<Entry>, n: u16, data: seq<byte>)
    requires |data| < 3 || data[0] != 0x9F || data[1] != 0x88
    ensures Receive(s, n, data) == if |data| < 3 then Some((s, Refused)) else None
  {
  }

  function ObjectBody(chunk: seq<byte>): seq<byte>
    requires MmiText.Short(chunk)
  {
    LengthField(|chunk|) + chunk
  }

  lemma BodyRoundTrip(chunk: seq<byte>, rest: seq<byte>)
    requires MmiText.Short(chunk)
    ensures Body(ObjectBody(chunk) + rest) == Some(chunk)
  {
    var field := LengthField(|chunk|);
    assert ObjectBody(chunk) + rest == field + (chunk + rest);
    LengthRoundTrip(|chunk|, chunk + rest);
    assert (field + (chunk + rest))[|field|..|field| + |chunk|] == chunk;
  }

  lemma FirstOctet(choices: byte, texts: seq<seq<seq<byte>>>, raw: seq<byte>)
    requires MmiText.Sendable(texts) && MmiText.NoneEmpty(texts)
    ensures MmiText.ItemsBytes(choices, texts, raw) != [] && MmiText.ItemsBytes(choices, texts, raw)[0] == choices
  {
  }

  /** A menu or list cut into fragments anywhere, the last one marked so, reaches the application with all
      its texts once the last fragment arrives, whatever came for other sessions and families meanwhile. */
  lemma ObjectArrives(s: seq<Entry>, events: seq<Event>, chunks: seq<seq<byte>>, n: u16, tag: nat, final: seq<byte>,
                      choices: byte, texts: seq<seq<seq<byte>>>, raw: seq<byte>)
    requires Distinct(s) && (tag == MENU_LAST || tag == LIST_LAST) && Pending(s, n, FamilyOf(tag).value) == []
    requires AreMore(Own(events, n, FamilyOf(tag).value), chunks) && MmiText.Short(final)
    requires MmiText.Sendable(texts) && MmiText.NoneEmpty(texts)
    requires (choices <= 252 && |texts| == choices as int + 3) || (choices == 0xff && |texts| == 3)
    requires Flatten(chunks) + final == MmiText.ItemsBytes(choices, texts, raw)
    ensures Message(After(s, events), n, tag, ObjectBody(final)).1 ==
      Items(FamilyOf(tag).value, MmiText.Joined(texts), if choices == 0xff then Some(raw) else None)
  {
    hide MmiText.ItemsBytes;
    hide MmiText.ParseItems;
    hide Body;
    hide Defragment;
    BodyRoundTrip(final, []);
    assert ObjectBody(final) + [] == ObjectBody(final);
    LastGivesTheObject(s, events, chunks, n, tag, final);
    FirstOctet(choices, texts, raw);
    MmiText.ItemsRoundTrip(choices, texts, raw);
    hide After;
    hide AreMore;
    hide Flatten;
    hide Pending;
    hide Distinct;
  }
}
