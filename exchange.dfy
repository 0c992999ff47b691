/** One send/stream cycle of `handleSendMessage` in App.tsx, stated as a
    function of the state it starts from and of what the backend delivers.
    The `ChatApp.SendMessage` method performs it step by step. */
module Exchange {
  import opened Types
  import opened Text
  import opened Sessions
  import Constants
  import Gemini

  /** The content an assistant message takes when the stream raises. */
  const ErrorText: string := "Error: Failed to get response. Please check your network or API key."

  /** `textOverride || inputValue`: a missing or empty override falls back to the input box. */
  function ResolveText(textOverride: Option<string>, input: string): (r: string)
    ensures textOverride.Some? && textOverride.value != [] ==> r == textOverride.value
    ensures textOverride.None? || textOverride.value == [] ==> r == input
    ensures r == [] <==> input == [] && (textOverride.None? || textOverride.value == [])
  {
    if textOverride.Some? && textOverride.value != [] then textOverride.value else input
  }

  /** `activeSession?.mode || AIMode.CHAT`, looked up in the pre-send snapshot. */
  function ActiveMode(pre: seq<Session>, active: Option<Id>): (r: AIMode)
    ensures active.None? ==> r == Chat
    ensures active.Some? ==> r == RequestMode(pre, active.value)
  {
    if active.Some? && Find(pre, active.value).Some? then Find(pre, active.value).value.mode else Chat
  }

  /** The session the cycle writes to: the active one, or the one created for it at time `now`. */
  function SendTarget(active: Option<Id>, now: nat): (r: Id)
    ensures active.Some? ==> r == active.value
    ensures active.None? ==> r == now
  {
    if active.Some? then active.value else now
  }

  /** The session list once the implicit `createNewSession` has run. */
  function Start(pre: seq<Session>, active: Option<Id>, now: nat): (r: seq<Session>)
    ensures active.Some? ==> r == pre
    ensures active.None? ==> |r| == |pre| + 1 && r[0] == NewSession(now, now) && r[1..] == pre
  {
    if active.Some? then pre else [NewSession(now, now)] + pre
  }

  function UserMessage(now: nat, text: string, mode: AIMode): (r: Message)
    ensures r.id == now && r.role == User && r.content == text
    ensures r.timestamp == now && r.mode == Some(mode) && r.rating.None?
  {
    Message(now, User, text, now, Some(mode), None)
  }

  /** The empty assistant message the fragments are folded into; its id is `now + 1`. */
  function Placeholder(now: nat, mode: AIMode): (r: Message)
    ensures r.role == Assistant && r.content == [] && r.mode == Some(mode)
    ensures r.id != UserMessage(now, [], mode).id && r.timestamp == now
  {
    Message(now + 1, Assistant, "", now, Some(mode), None)
  }

  /** `accumulated += chunk`: a chunk without text is appended as the text "undefined". */
  function ChunkText(chunk: Option<string>): (r: string)
    ensures chunk.Some? ==> r == chunk.value
    ensures chunk.None? ==> r == "undefined"
  {
    if chunk.Some? then chunk.value else "undefined"
  }

  /** The accumulator after the chunks `fs`, folded from the left. */
  function Accumulate(fs: seq<Option<string>>): (r: string)
    ensures fs != [] ==> ChunkText(fs[0]) <= r
  {
    if fs == [] then ""
    else
      assert |fs| > 1 ==> fs[..|fs| - 1][0] == fs[0];
      Accumulate(fs[..|fs| - 1]) + ChunkText(fs[|fs| - 1])
  }

  /** The accumulated text only grows: after more fragments it extends what
      was shown after fewer. */
  lemma {:induction false} AccumulateGrows(fs: seq<Option<string>>, i: nat, j: nat)
    requires i <= j <= |fs|
    ensures Accumulate(fs[..i]) <= Accumulate(fs[..j])
  {
    if i < j {
      AccumulateGrows(fs, i, j - 1);
      assert fs[..j][..j - 1] == fs[..j - 1];
    }
  }

  /** The accumulator after one more fragment is the previous one followed by its text. */
  lemma AccumulateStep(fs: seq<Option<string>>, i: nat)
    requires i < |fs|
    ensures Accumulate(fs[..i + 1]) == Accumulate(fs[..i]) + ChunkText(fs[i])
  {
    assert fs[..i + 1][..i] == fs[..i];
  }

  /** The session list after the fragments `fs` have been written into message `aiId`. */
  function Streamed(base: seq<Session>, target: Id, aiId: Id, fs: seq<Option<string>>): (r: seq<Session>)
    ensures |r| == |base|
    ensures fs == [] ==> r == base
  {
    if fs == [] then base else UpdateWhere(base, target, SetContent(aiId, Accumulate(fs)))
  }

  /** A content update is a full replacement: a later one erases an earlier one. */
  lemma {:induction false} ReplaceOverwrites(ms: seq<Message>, aiId: Id, c1: string, c2: string)
    ensures ReplaceContent(ReplaceContent(ms, aiId, c1), aiId, c2) == ReplaceContent(ms, aiId, c2)
  {
    var a := ReplaceContent(ReplaceContent(ms, aiId, c1), aiId, c2);
    var b := ReplaceContent(ms, aiId, c2);
    forall i | 0 <= i < |a| ensures a[i] == b[i] {
      ReplaceContentAt(ms, aiId, c1, i);
      ReplaceContentAt(ReplaceContent(ms, aiId, c1), aiId, c2, i);
      ReplaceContentAt(ms, aiId, c2, i);
    }
  }

  lemma ContentUpdateOverwrites(ss: seq<Session>, target: Id, aiId: Id, c1: string, c2: string)
    ensures UpdateWhere(UpdateWhere(ss, target, SetContent(aiId, c1)), target, SetContent(aiId, c2))
         == UpdateWhere(ss, target, SetContent(aiId, c2))
  {
    var a := UpdateWhere(UpdateWhere(ss, target, SetContent(aiId, c1)), target, SetContent(aiId, c2));
    var b := UpdateWhere(ss, target, SetContent(aiId, c2));
    forall i | 0 <= i < |ss| ensures a[i] == b[i] {
      UpdateWhereAt(ss, target, SetContent(aiId, c1), i);
      UpdateWhereAt(UpdateWhere(ss, target, SetContent(aiId, c1)), target, SetContent(aiId, c2), i);
      UpdateWhereAt(ss, target, SetContent(aiId, c2), i);
      if ss[i].id == target {
        ReplaceOverwrites(ss[i].messages, aiId, c1, c2);
      }
    }
  }

  /** One loop iteration: the next fragment's update on the current state
      gives the state after one more fragment. */
  lemma StreamStep(base: seq<Session>, target: Id, aiId: Id, fs: seq<Option<string>>, i: nat)
    requires i < |fs|
    ensures UpdateWhere(Streamed(base, target, aiId, fs[..i]), target, SetContent(aiId, Accumulate(fs[..i]) + ChunkText(fs[i])))
         == Streamed(base, target, aiId, fs[..i + 1])
  {
    AccumulateStep(fs, i);
    if i > 0 {
      ContentUpdateOverwrites(base, target, aiId, Accumulate(fs[..i]), Accumulate(fs[..i + 1]));
    }
  }

  /** `currentSession?.messages || []`: the history sent with the request is
      read from the pre-send snapshot. */
  function History(pre: seq<Session>, target: Id): (r: seq<Message>)
    ensures (forall i :: 0 <= i < |pre| ==> pre[i].id != target) ==> r == []
    ensures r != [] ==> exists i :: 0 <= i < |pre| && pre[i].id == target && pre[i].messages == r
    ensures forall k :: 0 <= k < |pre| && pre[k].id == target && (forall j :: 0 <= j < k ==> pre[j].id != target) ==>
              r == pre[k].messages
  {
    FindFirstAll(pre, target);
    var cur := Find(pre, target);
    if cur.Some? then cur.value.messages else []
  }

  /** The snapshot session's mode, or Chat when the snapshot lacks it. */
  function RequestMode(pre: seq<Session>, target: Id): (r: AIMode)
    ensures (forall i :: 0 <= i < |pre| ==> pre[i].id != target) ==> r == Chat
    ensures r != Chat ==> exists i :: 0 <= i < |pre| && pre[i].id == target && pre[i].mode == r
    ensures forall k :: 0 <= k < |pre| && pre[k].id == target && (forall j :: 0 <= j < k ==> pre[j].id != target) ==>
              r == pre[k].mode
  {
    FindFirstAll(pre, target);
    var cur := Find(pre, target);
    if cur.Some? then cur.value.mode else Chat
  }

  /** The snapshot session's persona, or General when the snapshot lacks it. */
  function RequestRole(pre: seq<Session>, target: Id): (r: AIRole)
    ensures (forall i :: 0 <= i < |pre| ==> pre[i].id != target) ==> r == General
    ensures r != General ==> exists i :: 0 <= i < |pre| && pre[i].id == target && pre[i].role == r
    ensures forall k :: 0 <= k < |pre| && pre[k].id == target && (forall j :: 0 <= j < k ==> pre[j].id != target) ==>
              r == pre[k].role
  {
    FindFirstAll(pre, target);
    var cur := Find(pre, target);
    if cur.Some? then cur.value.role else General
  }

  /** `currentSession?.messages.length === 0`, on the pre-send snapshot. */
  predicate TitleGate(pre: seq<Session>, target: Id): (r: bool)
    ensures r <==> (exists i :: 0 <= i < |pre| && pre[i].id == target) && History(pre, target) == []
  {
    var cur := Find(pre, target);
    cur.Some? && |cur.value.messages| == 0
  }

  /** The placeholder's final content. */
  function FinalContent(fs: seq<Option<string>>, raises: bool): (r: string)
    ensures raises ==> r == ErrorText
    ensures !raises ==> r == Accumulate(fs)
  {
    if raises then ErrorText else Accumulate(fs)
  }

  /** The session list once the user message and the empty placeholder are appended. */
  function Opened(pre: seq<Session>, active: Option<Id>, text: string, now: nat): (r: seq<Session>)
    ensures |r| == |Start(pre, active, now)|
  {
    var target := SendTarget(active, now);
    var mode := ActiveMode(pre, active);
    var s1 := UpdateWhere(Start(pre, active, now), target, Append(UserMessage(now, text, mode), Some(now)));
    UpdateWhere(s1, target, Append(Placeholder(now, mode), None))
  }

  /** The last step of a send: the error text on a raised stream, else the
      generated title when the gate opens. */
  function Finish(pre: seq<Session>, target: Id, streamed: seq<Session>, aiId: Id,
                  raises: bool, reply: Gemini.TitleReply): (r: seq<Session>)
    ensures |r| == |streamed|
    ensures !raises && !TitleGate(pre, target) ==> r == streamed
  {
    if raises then UpdateWhere(streamed, target, SetContent(aiId, ErrorText))
    else if TitleGate(pre, target) then UpdateWhere(streamed, target, SetTitle(Gemini.TitleFrom(reply)))
    else streamed
  }

  /** The session list after one accepted send: user message, placeholder,
      the fragment fold, then the error text or the title. */
  function Exchange(pre: seq<Session>, active: Option<Id>, text: string, now: nat,
                    fs: seq<Option<string>>, raises: bool, reply: Gemini.TitleReply): (r: seq<Session>)
    ensures |r| == |Start(pre, active, now)|
  {
    var target := SendTarget(active, now);
    Finish(pre, target, Streamed(Opened(pre, active, text, now), target, now + 1, fs), now + 1, raises, reply)
  }

  /** No message of `ms` carries the id `aiId`. */
  predicate FreshId(ms: seq<Message>, aiId: Id)
  {
    forall k :: 0 <= k < |ms| ==> ms[k].id != aiId
  }

  /** Writing the placeholder's content touches only the placeholder, as long
      as no earlier message shares its id. */
  lemma ReplaceFreshLast(ms: seq<Message>, u: Message, p: Message, c: string)
    requires FreshId(ms, p.id) && u.id != p.id
    ensures ReplaceContent(ms + [u, p], p.id, c) == ms + [u, p.(content := c)]
  {
    var m := ms + [u, p];
    var a := ReplaceContent(m, p.id, c);
    forall i | 0 <= i < |ms| ensures a[i] == ms[i] {
      ReplaceContentAt(m, p.id, c, i);
      assert m[i] == ms[i];
    }
    ReplaceContentAt(m, p.id, c, |ms|);
    ReplaceContentAt(m, p.id, c, |ms| + 1);
    assert a == ms + [u, p.(content := c)];
  }

  /** The two appends of a send, seen at one target session. */
  lemma AppendsAt(ss: seq<Session>, target: Id, u: Message, p: Message, now: nat, i: nat)
    requires i < |ss| && ss[i].id == target
    ensures UpdateWhere(UpdateWhere(ss, target, Append(u, Some(now))), target, Append(p, None))[i]
         == ss[i].(messages := ss[i].messages + [u, p], lastUpdatedAt := now)
  {
    var s1 := UpdateWhere(ss, target, Append(u, Some(now)));
    UpdateWhereAt(ss, target, Append(u, Some(now)), i);
    UpdateWhereAt(s1, target, Append(p, None), i);
    assert ss[i].messages + [u] + [p] == ss[i].messages + [u, p];
  }

  /** The fragment fold, seen at one target session whose last message is the placeholder. */
  lemma StreamedAt(base: seq<Session>, target: Id, fs: seq<Option<string>>, i: nat,
                   prefix: seq<Message>, u: Message, p: Message)
    requires i < |base| && base[i].id == target
    requires base[i].messages == prefix + [u, p] && p.content == ""
    requires FreshId(prefix, p.id) && u.id != p.id
    ensures Streamed(base, target, p.id, fs)[i] == base[i].(messages := prefix + [u, p.(content := Accumulate(fs))])
  {
    if fs != [] {
      UpdateWhereAt(base, target, SetContent(p.id, Accumulate(fs)), i);
      ReplaceFreshLast(prefix, u, p, Accumulate(fs));
    }
  }

  /** A content write, seen at one target session whose last message carries the written id. */
  lemma ContentAt(ss: seq<Session>, target: Id, i: nat, prefix: seq<Message>, u: Message, p: Message, c: string)
    requires i < |ss| && ss[i].id == target
    requires ss[i].messages == prefix + [u, p]
    requires FreshId(prefix, p.id) && u.id != p.id
    ensures UpdateWhere(ss, target, SetContent(p.id, c))[i] == ss[i].(messages := prefix + [u, p.(content := c)])
  {
    UpdateWhereAt(ss, target, SetContent(p.id, c), i);
    ReplaceFreshLast(prefix, u, p, c);
  }

  /** The last step, seen at one target session whose last message is the placeholder. */
  lemma FinishAt(pre: seq<Session>, target: Id, streamed: seq<Session>, i: nat,
                 prefix: seq<Message>, u: Message, p: Message, raises: bool, reply: Gemini.TitleReply)
    requires i < |streamed| && streamed[i].id == target
    requires streamed[i].messages == prefix + [u, p]
    requires FreshId(prefix, p.id) && u.id != p.id
    ensures Finish(pre, target, streamed, p.id, raises, reply)[i] ==
      streamed[i].(messages := prefix + [u, if raises then p.(content := ErrorText) else p],
                   title := if !raises && TitleGate(pre, target) then Gemini.TitleFrom(reply) else streamed[i].title)
  {
    if raises {
      ContentAt(streamed, target, i, prefix, u, p, ErrorText);
    } else if TitleGate(pre, target) {
      UpdateWhereAt(streamed, target, SetTitle(Gemini.TitleFrom(reply)), i);
    }
  }

  /** The opening appends of a send, seen at the target session. */
  lemma OpenedAt(pre: seq<Session>, active: Option<Id>, text: string, now: nat, i: nat)
    requires i < |Start(pre, active, now)| && Start(pre, active, now)[i].id == SendTarget(active, now)
    ensures var s := Start(pre, active, now)[i];
            var mode := ActiveMode(pre, active);
            |Opened(pre, active, text, now)| == |Start(pre, active, now)| &&
            Opened(pre, active, text, now)[i] ==
              s.(messages := s.messages + [UserMessage(now, text, mode), Placeholder(now, mode)], lastUpdatedAt := now)
  {
    var mode := ActiveMode(pre, active);
    AppendsAt(Start(pre, active, now), SendTarget(active, now), UserMessage(now, text, mode), Placeholder(now, mode), now, i);
  }

  /** The fragment fold and the last step, seen at the target session. */
  lemma ClosedAt(pre: seq<Session>, target: Id, base: seq<Session>, fs: seq<Option<string>>, i: nat,
                 prefix: seq<Message>, u: Message, p: Message, raises: bool, reply: Gemini.TitleReply)
    requires i < |base| && base[i].id == target
    requires base[i].messages == prefix + [u, p] && p.content == ""
    requires FreshId(prefix, p.id) && u.id != p.id
    ensures Finish(pre, target, Streamed(base, target, p.id, fs), p.id, raises, reply)[i] ==
      base[i].(messages := prefix + [u, p.(content := FinalContent(fs, raises))],
                 title := if !raises && TitleGate(pre, target) then Gemini.TitleFrom(reply) else base[i].title)
  {
    StreamedAt(base, target, fs, i, prefix, u, p);
    FinishAt(pre, target, Streamed(base, target, p.id, fs), i, prefix, u, p.(content := Accumulate(fs)), raises, reply);
  }

  /** One session of the list through a whole send: its id is kept, and if
      it is not the target it is not changed at all. */
  lemma ExchangeAt(pre: seq<Session>, active: Option<Id>, text: string, now: nat,
                   fs: seq<Option<string>>, raises: bool, reply: Gemini.TitleReply, i: nat)
    requires i < |Start(pre, active, now)|
    ensures var start := Start(pre, active, now);
            var r := Exchange(pre, active, text, now, fs, raises, reply);
            && |r| == |start|
            && r[i].id == start[i].id
            && (start[i].id != SendTarget(active, now) ==> r[i] == start[i])
  {
    var start := Start(pre, active, now);
    var target := SendTarget(active, now);
    var mode := ActiveMode(pre, active);
    var s1 := UpdateWhere(start, target, Append(UserMessage(now, text, mode), Some(now)));
    var s2 := Opened(pre, active, text, now);
    var s3 := Streamed(s2, target, now + 1, fs);
    UpdateWhereAt(start, target, Append(UserMessage(now, text, mode), Some(now)), i);
    UpdateWhereAt(s1, target, Append(Placeholder(now, mode), None), i);
    if fs != [] {
      UpdateWhereAt(s2, target, SetContent(now + 1, Accumulate(fs)), i);
    }
    if raises {
      UpdateWhereAt(s3, target, SetContent(now + 1, ErrorText), i);
    } else if TitleGate(pre, target) {
      UpdateWhereAt(s3, target, SetTitle(Gemini.TitleFrom(reply)), i);
    }
  }

  /** The sessions that are not the target come out of a send exactly as they
      went in, in the same positions; no session changes its id. */
  lemma ExchangeLeavesOthers(pre: seq<Session>, active: Option<Id>, text: string, now: nat,
                             fs: seq<Option<string>>, raises: bool, reply: Gemini.TitleReply)
    ensures var start := Start(pre, active, now);
            var r := Exchange(pre, active, text, now, fs, raises, reply);
            && |r| == |start|
            && (forall i :: 0 <= i < |start| ==> r[i].id == start[i].id)
            && (forall i :: 0 <= i < |start| && start[i].id != SendTarget(active, now) ==> r[i] == start[i])
  {
    var start := Start(pre, active, now);
    var r := Exchange(pre, active, text, now, fs, raises, reply);
    forall i | 0 <= i < |start|
      ensures |r| == |start| && r[i].id == start[i].id
      ensures start[i].id != SendTarget(active, now) ==> r[i] == start[i]
    {
      ExchangeAt(pre, active, text, now, fs, raises, reply, i);
    }
    assert |r| == |start| by {
      if |start| > 0 { ExchangeAt(pre, active, text, now, fs, raises, reply, 0); }
    }
  }

  /** The target session ends with its earlier messages, the user message
      and the placeholder carrying the fragments' concatenation or the error
      text; `lastUpdatedAt` is bumped; the title is replaced only when the
      stream completed and the snapshot held the target with no messages.
      This holds when no earlier message of the target carries the
      placeholder's id `now + 1`. When one does, every content write of the
      send rewrites that message as well, and `Exchange` does the same. */
  lemma ExchangeOnTarget(pre: seq<Session>, active: Option<Id>, text: string, now: nat,
                         fs: seq<Option<string>>, raises: bool, reply: Gemini.TitleReply, i: nat)
    requires i < |Start(pre, active, now)|
    requires Start(pre, active, now)[i].id == SendTarget(active, now)
    requires FreshId(Start(pre, active, now)[i].messages, now + 1)
    ensures var s := Start(pre, active, now)[i];
            var mode := ActiveMode(pre, active);
            Exchange(pre, active, text, now, fs, raises, reply)[i] ==
              s.(messages := s.messages + [UserMessage(now, text, mode), Placeholder(now, mode).(content := FinalContent(fs, raises))],
                 lastUpdatedAt := now,
                 title := if !raises && TitleGate(pre, SendTarget(active, now)) then Gemini.TitleFrom(reply) else s.title)
  {
    var s := Start(pre, active, now)[i];
    var mode := ActiveMode(pre, active);
    OpenedAt(pre, active, text, now, i);
    ClosedAt(pre, SendTarget(active, now), Opened(pre, active, text, now), fs, i,
             s.messages, UserMessage(now, text, mode), Placeholder(now, mode), raises, reply);
  }

  /** A send with no active session creates the session at the front; the
      snapshot does not contain it, so the request carries no history and no
      title is generated for it. */
  lemma ImplicitSessionHasNoHistory(pre: seq<Session>, text: string, now: nat,
                                    fs: seq<Option<string>>, raises: bool, reply: Gemini.TitleReply)
    requires forall k :: 0 <= k < |pre| ==> pre[k].id != now
    ensures History(pre, now) == [] && !TitleGate(pre, now)
    ensures var r := Exchange(pre, None, text, now, fs, raises, reply);
            && |r| == |pre| + 1 && r[1..] == pre
            && r[0] == NewSession(now, now).(messages := [UserMessage(now, text, Chat), Placeholder(now, Chat).(content := FinalContent(fs, raises))])
  {
    var r := Exchange(pre, None, text, now, fs, raises, reply);
    ExchangeLeavesOthers(pre, None, text, now, fs, raises, reply);
    ExchangeOnTarget(pre, None, text, now, fs, raises, reply, 0);
    assert forall k :: 0 <= k < |pre| ==> r[1..][k] == Start(pre, None, now)[k + 1] == pre[k];
  }

  /** After a send the target session is present, provided the active id
      named a present session before it. */
  lemma ExchangeKeepsTarget(pre: seq<Session>, active: Option<Id>, text: string, now: nat,
                            fs: seq<Option<string>>, raises: bool, reply: Gemini.TitleReply)
    requires active.None? || Find(pre, active.value).Some?
    ensures Find(Exchange(pre, active, text, now, fs, raises, reply), SendTarget(active, now)).Some?
  {
    var start := Start(pre, active, now);
    var target := SendTarget(active, now);
    var k: nat :| k < |start| && start[k].id == target;
    ExchangeAt(pre, active, text, now, fs, raises, reply, k);
  }
}
