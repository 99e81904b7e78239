/** The conversation store (`ChatDB`): a list of conversation records kept
    under one local-storage key. The storage slot is an explicit value and
    the clock is an explicit input, so every operation is a pure function
    from the old slot to the new one. */
module ChatDB {
  import opened Common

  /** Timestamps are milliseconds since the epoch; the source keeps them as
      ISO strings and compares them through `Date.getTime`, which is this
      number. */
  datatype Conversation = Conversation(
    id: int,
    title: string,
    messages: seq<Message>,
    createdAt: int,
    updatedAt: int)

  /** The `chatDB` local-storage item: absent, or a stored list. */
  type Storage = Option<seq<Conversation>>

  const DefaultTitle: string := "New Chat"

  /** The private storage read: the stored list, or the empty list when
      nothing is stored. */
  function Read(st: Storage): (r: seq<Conversation>)
    ensures st.None? ==> r == []
    ensures st.Some? ==> r == st.value
  {
    st.GetOr([])
  }

  predicate NoMatch(cs: seq<Conversation>, id: int) {
    forall j :: 0 <= j < |cs| ==> cs[j].id != id
  }

  /** `k` is the position of the first record with this id. */
  predicate FirstMatch(cs: seq<Conversation>, id: int, k: int) {
    0 <= k < |cs| && cs[k].id == id && forall j :: 0 <= j < k ==> cs[j].id != id
  }

  /** `findIndex(conv => conv.id === id)`: the first matching position, or -1. */
  function FindIndex(cs: seq<Conversation>, id: int): (k: int)
    ensures k == -1 <==> NoMatch(cs, id)
    ensures k != -1 ==> FirstMatch(cs, id, k)
  {
    if |cs| == 0 then -1
    else if cs[0].id == id then 0
    else
      var k := FindIndex(cs[1..], id);
      if k == -1 then -1 else k + 1
  }

  /** `init`: stores an empty list only when nothing is stored yet. */
  function Init(st: Storage): (r: Storage)
    ensures r.Some?
    ensures Read(r) == Read(st)
    ensures st.Some? ==> r == st
  {
    if st.None? then Some([]) else st
  }

  lemma InitIdempotent(st: Storage)
    ensures Init(Init(st)) == Init(st)
  {
  }

  /** `createConversation(title = 'New Chat')`: appends a fresh, empty record
      whose id is the clock reading, and returns that id. A `None` title is
      an omitted argument. */
  function Create(st: Storage, title: Option<string>, now: int): (r: (Storage, int))
    ensures r.0.Some? && r.1 == now
    ensures |Read(r.0)| == |Read(st)| + 1
    ensures Read(r.0)[..|Read(st)|] == Read(st)
    ensures var c := Read(r.0)[|Read(st)|];
      && c.id == r.1
      && c.title == title.GetOr(DefaultTitle)
      && c.messages == []
      && c.createdAt == c.updatedAt == now
  {
    var c := Conversation(now, title.GetOr(DefaultTitle), [], now, now);
    (Some(Read(st) + [c]), c.id)
  }

  /** `getConversation`: the first record with this id, or null. */
  function Get(st: Storage, id: int): (r: Option<Conversation>)
    ensures r.None? <==> NoMatch(Read(st), id)
    ensures r.Some? ==> exists k :: FirstMatch(Read(st), id, k) && r.value == Read(st)[k]
  {
    var k := FindIndex(Read(st), id);
    if k == -1 then None else Some(Read(st)[k])
  }

  /** `updateConversation`: on the first record with this id, replaces the
      messages, replaces the title only when the given one is truthy, and
      bumps `updatedAt`; an unknown id leaves storage untouched. */
  function Update(st: Storage, id: int, messages: seq<Message>, title: Option<string>, now: int): (r: Storage)
    ensures NoMatch(Read(st), id) ==> r == st
    ensures !NoMatch(Read(st), id) ==>
      var cs, k := Read(st), FindIndex(Read(st), id);
      && r.Some?
      && |Read(r)| == |cs|
      && (forall j :: 0 <= j < |cs| && j != k ==> Read(r)[j] == cs[j])
      && Read(r)[k].id == id
      && Read(r)[k].messages == messages
      && Read(r)[k].title == (if Truthy(title) then title.value else cs[k].title)
      && Read(r)[k].createdAt == cs[k].createdAt
      && Read(r)[k].updatedAt == now
  {
    var cs := Read(st);
    var k := FindIndex(cs, id);
    if k == -1 then st
    else
      var c := cs[k].(messages := messages, updatedAt := now);
      var c' := if Truthy(title) then c.(title := title.value) else c;
      Some(cs[k := c'])
  }

  /** `renameConversation`: sets the title of the first record with this id,
      whatever the new title is, and bumps `updatedAt`; an unknown id leaves
      storage untouched. */
  function Rename(st: Storage, id: int, newTitle: string, now: int): (r: Storage)
    ensures NoMatch(Read(st), id) ==> r == st
    ensures !NoMatch(Read(st), id) ==>
      var cs, k := Read(st), FindIndex(Read(st), id);
      && r.Some?
      && |Read(r)| == |cs|
      && (forall j :: 0 <= j < |cs| && j != k ==> Read(r)[j] == cs[j])
      && Read(r)[k] == cs[k].(title := newTitle, updatedAt := now)
  {
    var cs := Read(st);
    var k := FindIndex(cs, id);
    if k == -1 then st else Some(cs[k := cs[k].(title := newTitle, updatedAt := now)])
  }

  /** `filter(conv => conv.id !== id)`. */
  function RemoveId(cs: seq<Conversation>, id: int): (r: seq<Conversation>)
    ensures |r| <= |cs|
    ensures forall c :: c in r <==> c in cs && c.id != id
    ensures NoMatch(cs, id) ==> r == cs
  {
    if |cs| == 0 then []
    else
      var rest := RemoveId(cs[1..], id);
      HeadTail(cs);
      if cs[0].id == id then rest else [cs[0]] + rest
  }

  lemma HeadTail<T>(s: seq<T>)
    requires |s| > 0
    ensures forall c :: c in s <==> c == s[0] || c in s[1..]
  {
    assert s == [s[0]] + s[1..];
  }

  /** `deleteConversation`: keeps every record with a different id, and
      always writes the result back. */
  function Delete(st: Storage, id: int): (r: Storage)
    ensures r.Some?
    ensures forall c :: c in Read(r) <==> c in Read(st) && c.id != id
    ensures NoMatch(Read(st), id) ==> Read(r) == Read(st)
  {
    Some(RemoveId(Read(st), id))
  }

  /** The public `getConversations`: the stored list, most recently updated
      first. */
  function List(st: Storage): (r: seq<Conversation>)
    ensures multiset(r) == multiset(Read(st))
    ensures forall i, j :: 0 <= i < j < |r| ==> r[i].updatedAt >= r[j].updatedAt
  {
    SortDesc(Read(st), (c: Conversation) => c.updatedAt)
  }

  // ---------------------------------------------------------------------------
  // Properties relating several operations

  /** A newly created record is what a later lookup of its id finds, as long
      as the clock reading was not already in use as an id. */
  lemma CreateThenGet(st: Storage, title: Option<string>, now: int)
    requires NoMatch(Read(st), now)
    ensures Get(Create(st, title, now).0, now)
         == Some(Conversation(now, title.GetOr(DefaultTitle), [], now, now))
  {
    var cs := Read(st);
    var cs' := Read(Create(st, title, now).0);
    assert cs' == cs + [Conversation(now, title.GetOr(DefaultTitle), [], now, now)];
    assert FirstMatch(cs', now, |cs|);
  }

  /** Deleting twice is deleting once. */
  lemma {:induction false} DeleteIdempotent(st: Storage, id: int)
    ensures Delete(Delete(st, id), id) == Delete(st, id)
  {
    var r := Read(Delete(st, id));
    assert NoMatch(r, id) by {
      forall j | 0 <= j < |r| ensures r[j].id != id {
        assert r[j] in r;
      }
    }
  }

  /** Removal works piecewise, so the surviving records keep their relative
      order. */
  lemma {:induction false} RemoveIdKeepsOrder(a: seq<Conversation>, b: seq<Conversation>, id: int)
    ensures RemoveId(a + b, id) == RemoveId(a, id) + RemoveId(b, id)
  {
    if |a| == 0 {
      assert a + b == b;
    } else {
      assert (a + b)[1..] == a[1..] + b;
      RemoveIdKeepsOrder(a[1..], b, id);
    }
  }

  /** `updateConversation` ignores an empty title, `renameConversation` does not. */
  lemma EmptyTitleAsymmetry(st: Storage, id: int, messages: seq<Message>, now: int)
    requires !NoMatch(Read(st), id)
    ensures var k := FindIndex(Read(st), id);
      && Read(Update(st, id, messages, Some(""), now))[k].title == Read(st)[k].title
      && Read(Rename(st, id, "", now))[k].title == ""
  {
  }

  /** An update never changes how many records there are or what their ids
      are. */
  lemma UpdateKeepsIds(st: Storage, id: int, messages: seq<Message>, title: Option<string>, now: int)
    ensures |Read(Update(st, id, messages, title, now))| == |Read(st)|
    ensures forall j :: 0 <= j < |Read(st)| ==>
      Read(Update(st, id, messages, title, now))[j].id == Read(st)[j].id
  {
  }

  /** A rename never changes how many records there are, their ids or their
      messages; only the matched record's title and `updatedAt` move. */
  lemma RenameKeepsMessages(st: Storage, id: int, newTitle: string, now: int)
    ensures |Read(Rename(st, id, newTitle, now))| == |Read(st)|
    ensures forall j :: 0 <= j < |Read(st)| ==>
      && Read(Rename(st, id, newTitle, now))[j].messages == Read(st)[j].messages
      && Read(Rename(st, id, newTitle, now))[j].id == Read(st)[j].id
  {
  }
}
