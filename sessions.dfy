/** The pure session-list transforms of App.tsx: the `prev.map(...)`
    updaters the handlers pass to `setSessions`, `sessions.find`, the
    `filter` behind deletion and the sidebar search. */
module Sessions {
  import opened Types
  import opened Text
  import Constants

  /** The session `createNewSession` builds. */
  function NewSession(id: Id, now: nat): (r: Session)
    ensures r.id == id && r.messages == [] && r.title == Constants.DefaultTitle
    ensures r.mode == Chat && r.role == General
    ensures r.createdAt == now && r.lastUpdatedAt == now
  {
    Session(id, Constants.DefaultTitle, [], now, now, Chat, General)
  }

  /** One field update that a handler applies to every session whose id matches. */
  datatype Edit =
    | SetMode(newMode: AIMode)
    | SetRole(newRole: AIRole)
    | SetTitle(newTitle: string)
    | Append(msg: Message, touch: Option<nat>)
    | SetContent(msgId: Id, content: string)

  /** `messages.map(m => m.id === msgId ? { ...m, content } : m)` */
  function ReplaceContent(ms: seq<Message>, msgId: Id, content: string): (r: seq<Message>)
    ensures |r| == |ms|
  {
    if ms == [] then []
    else [if ms[0].id == msgId then ms[0].(content := content) else ms[0]] + ReplaceContent(ms[1..], msgId, content)
  }

  /** Every message with the id gets the new content; every other message is
      kept, in its position. */
  lemma {:induction false} ReplaceContentAt(ms: seq<Message>, msgId: Id, content: string, k: nat)
    requires k < |ms|
    ensures ReplaceContent(ms, msgId, content)[k] == if ms[k].id == msgId then ms[k].(content := content) else ms[k]
  {
    if k > 0 {
      ReplaceContentAt(ms[1..], msgId, content, k - 1);
    }
  }

  /** The body of one updater: `{ ...s, field: value }`. */
  function Apply(s: Session, e: Edit): (r: Session)
    ensures r.id == s.id && r.createdAt == s.createdAt
  {
    match e
    case SetMode(m) => s.(mode := m)
    case SetRole(role) => s.(role := role)
    case SetTitle(t) => s.(title := t)
    case Append(m, touch) =>
      if touch.Some? then s.(messages := s.messages + [m], lastUpdatedAt := touch.value)
      else s.(messages := s.messages + [m])
    case SetContent(msgId, c) => s.(messages := ReplaceContent(s.messages, msgId, c))
  }

  /** `prev.map(s => s.id === id ? Apply(s, e) : s)` */
  function UpdateWhere(ss: seq<Session>, id: Id, e: Edit): (r: seq<Session>)
    ensures |r| == |ss|
  {
    if ss == [] then []
    else [if ss[0].id == id then Apply(ss[0], e) else ss[0]] + UpdateWhere(ss[1..], id, e)
  }

  /** Every session with the id is edited in place; every other session
      keeps its position and value. */
  lemma {:induction false} UpdateWhereAt(ss: seq<Session>, id: Id, e: Edit, k: nat)
    requires k < |ss|
    ensures UpdateWhere(ss, id, e)[k] == if ss[k].id == id then Apply(ss[k], e) else ss[k]
  {
    if k > 0 {
      UpdateWhereAt(ss[1..], id, e, k - 1);
    }
  }

  /** `ss.find(s => s.id === id)` */
  function Find(ss: seq<Session>, id: Id): (r: Option<Session>)
    ensures r.None? <==> forall i :: 0 <= i < |ss| ==> ss[i].id != id
    ensures r.Some? ==> r.value in ss && r.value.id == id
  {
    if ss == [] then None
    else if ss[0].id == id then Some(ss[0])
    else Find(ss[1..], id)
  }

  /** `find` returns the first session carrying the id. */
  lemma {:induction false} FindFirst(ss: seq<Session>, id: Id, k: nat)
    requires k < |ss| && ss[k].id == id
    requires forall j :: 0 <= j < k ==> ss[j].id != id
    ensures Find(ss, id) == Some(ss[k])
  {
    if k > 0 {
      FindFirst(ss[1..], id, k - 1);
    }
  }

  /** `FindFirst` at every index: the first session carrying the id is the one found. */
  lemma FindFirstAll(ss: seq<Session>, id: Id)
    ensures forall k :: 0 <= k < |ss| && ss[k].id == id && (forall j :: 0 <= j < k ==> ss[j].id != id) ==>
              Find(ss, id) == Some(ss[k])
  {
    forall k | 0 <= k < |ss| && ss[k].id == id && (forall j :: 0 <= j < k ==> ss[j].id != id)
      ensures Find(ss, id) == Some(ss[k])
    {
      FindFirst(ss, id, k);
    }
  }

  /** No edit adds or removes a session id, so lookups succeed exactly as before. */
  lemma UpdateKeepsIds(ss: seq<Session>, id: Id, e: Edit, x: Id)
    ensures Find(UpdateWhere(ss, id, e), x).Some? <==> Find(ss, x).Some?
  {
    var r := UpdateWhere(ss, id, e);
    forall i | 0 <= i < |ss| ensures r[i].id == ss[i].id {
      UpdateWhereAt(ss, id, e, i);
    }
  }

  /** `s.filter(keep)` */
  function Filter<T(==, !new)>(s: seq<T>, keep: T -> bool): (r: seq<T>)
    ensures |r| <= |s|
    ensures forall x :: x in r <==> x in s && keep(x)
    ensures forall x :: multiset(r)[x] == if keep(x) then multiset(s)[x] else 0
  {
    if s == [] then []
    else
      assert s == [s[0]] + s[1..];
      assert forall x :: x in s <==> x == s[0] || x in s[1..];
      (if keep(s[0]) then [s[0]] else []) + Filter(s[1..], keep)
  }

  /** `a` is `b` with some elements dropped and the rest in their original order. */
  ghost predicate IsSubsequence<T(!new)>(a: seq<T>, b: seq<T>)
    decreases |b|
  {
    if b == [] then a == []
    else (a != [] && a[0] == b[0] && IsSubsequence(a[1..], b[1..])) || IsSubsequence(a, b[1..])
  }

  lemma {:induction false} FilterIsSubsequence<T(!new)>(s: seq<T>, keep: T -> bool)
    ensures IsSubsequence(Filter(s, keep), s)
  {
    if s != [] {
      FilterIsSubsequence(s[1..], keep);
      var r := Filter(s, keep);
      if keep(s[0]) {
        assert r[0] == s[0] && r[1..] == Filter(s[1..], keep);
      } else {
        assert r == Filter(s[1..], keep);
      }
    }
  }

  lemma {:induction false} FilterKeepsAll<T(!new)>(s: seq<T>, keep: T -> bool)
    requires forall x :: x in s ==> keep(x)
    ensures Filter(s, keep) == s
  {
    if s != [] {
      assert forall x :: x in s[1..] ==> x in s;
      FilterKeepsAll(s[1..], keep);
      assert keep(s[0]);
      assert Filter(s, keep) == [s[0]] + Filter(s[1..], keep);
      assert [s[0]] + s[1..] == s;
    }
  }

  lemma {:induction false} FilterSameTest<T(!new)>(s: seq<T>, keep1: T -> bool, keep2: T -> bool)
    requires forall x :: x in s ==> keep1(x) == keep2(x)
    ensures Filter(s, keep1) == Filter(s, keep2)
  {
    if s != [] {
      assert forall x :: x in s[1..] ==> x in s;
      FilterSameTest(s[1..], keep1, keep2);
    }
  }

  /** `deleteSession`'s `sessions.filter(s => s.id !== id)` */
  function RemoveSession(ss: seq<Session>, id: Id): (r: seq<Session>)
    ensures forall s :: s in r <==> s in ss && s.id != id
    ensures forall s :: multiset(r)[s] == if s.id != id then multiset(ss)[s] else 0
    ensures forall i :: 0 <= i < |r| ==> r[i].id != id
    ensures IsSubsequence(r, ss)
  {
    FilterIsSubsequence(ss, (s: Session) => s.id != id);
    Filter(ss, (s: Session) => s.id != id)
  }

  /** The search predicate: the lowercased title, or the lowercased content of
      some message, contains the lowercased term. */
  predicate Matches(s: Session, term: string): (r: bool)
    ensures term == [] ==> r
    ensures Contains(ToLower(s.title), ToLower(term)) ==> r
  {
    var t := ToLower(term);
    || Contains(ToLower(s.title), t)
    || exists i | 0 <= i < |s.messages| :: Contains(ToLower(s.messages[i].content), t)
  }

  /** `filteredSessions` */
  function Search(ss: seq<Session>, term: string): (r: seq<Session>)
    ensures forall s :: s in r <==> s in ss && Matches(s, term)
    ensures forall s :: multiset(r)[s] == if Matches(s, term) then multiset(ss)[s] else 0
    ensures IsSubsequence(r, ss)
  {
    FilterIsSubsequence(ss, s => Matches(s, term));
    Filter(ss, s => Matches(s, term))
  }

  /** An empty search term lists every session, in order. */
  lemma SearchEmptyTerm(ss: seq<Session>)
    ensures Search(ss, "") == ss
  {
    FilterKeepsAll(ss, s => Matches(s, ""));
  }

  /** Terms that differ only in letter case select the same sessions. */
  lemma SearchIgnoresCase(ss: seq<Session>, term1: string, term2: string)
    requires ToLower(term1) == ToLower(term2)
    ensures Search(ss, term1) == Search(ss, term2)
  {
    FilterSameTest(ss, s => Matches(s, term1), s => Matches(s, term2));
  }

  /** Searching for a term and for its lowercase form select the same sessions. */
  lemma SearchFoldsCase(ss: seq<Session>, term: string)
    ensures Search(ss, term) == Search(ss, ToLower(term))
  {
    ToLowerIdempotent(term);
    SearchIgnoresCase(ss, term, ToLower(term));
  }
}
