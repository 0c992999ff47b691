/** The component state of App.tsx and the handlers that change it. Each
    handler runs to completion: the awaits inside `handleSendMessage` are
    not interleaved with other handlers. */
module App {
  import opened Types
  import opened Text
  import opened Sessions
  import opened Exchange
  import Constants
  import Gemini

  /** The settings the component starts with before any saved ones are loaded. */
  function DefaultSettings(): (r: UserSettings)
    ensures exists i :: 0 <= i < |Constants.Models| && Constants.Models[i].id == r.model
    ensures r.theme == Light && !r.sidebarCollapsed
  {
    Constants.DefaultModelListed();
    UserSettings(Light, Constants.DefaultModel, 0.7, 2048, false)
  }

  class ChatApp {
    var sessions: seq<Session>
    var activeSessionId: Option<Id>
    var isStreaming: bool
    var inputValue: string
    var searchTerm: string
    var settings: UserSettings

    /** The active id, when there is one, names a session in the list. */
    ghost predicate Valid()
      reads this
    {
      activeSessionId.Some? ==> Find(sessions, activeSessionId.value).Some?
    }

    /** The first render followed by the load-at-start effect: saved
        sessions are taken as they are and the first one is activated;
        with nothing saved a fresh session is created. */
    constructor Mount(saved: Option<seq<Session>>, savedSettings: Option<UserSettings>, now: nat)
      ensures Valid()
      ensures saved.Some? ==> sessions == saved.value
      ensures saved.Some? ==> activeSessionId == if saved.value != [] then Some(saved.value[0].id) else None
      ensures saved.None? ==> sessions == [NewSession(now, now)] && activeSessionId == Some(now)
      ensures settings == if savedSettings.Some? then savedSettings.value else DefaultSettings()
      ensures !isStreaming && inputValue == [] && searchTerm == []
    {
      sessions := [];
      activeSessionId := None;
      isStreaming := false;
      inputValue := "";
      searchTerm := "";
      settings := DefaultSettings();
      new;
      if saved.Some? {
        sessions := saved.value;
        if |saved.value| > 0 {
          activeSessionId := Some(saved.value[0].id);
        }
      } else {
        var id := CreateNewSession(now);
      }
      if savedSettings.Some? {
        settings := savedSettings.value;
      }
    }

    /** `createNewSession`: one empty Chat/General session named "New
        Conversation" goes in front of the others and becomes active. */
    method CreateNewSession(now: nat) returns (id: Id)
      modifies this
      ensures id == now && activeSessionId == Some(id)
      ensures |sessions| == |old(sessions)| + 1 && sessions[1..] == old(sessions)
      ensures sessions[0] == NewSession(id, now)
      ensures sessions[0].id == id && sessions[0].messages == [] && sessions[0].title == Constants.DefaultTitle
      ensures sessions[0].mode == Chat && sessions[0].role == General
      ensures isStreaming == old(isStreaming) && inputValue == old(inputValue)
      ensures searchTerm == old(searchTerm) && settings == old(settings)
      ensures Valid()
    {
      id := now;
      sessions := [NewSession(id, now)] + sessions;
      activeSessionId := Some(id);
      assert sessions[0].id == id;
    }

    /** A click on a session in the sidebar. */
    method SelectSession(id: Id)
      modifies this
      ensures activeSessionId == Some(id)
      ensures sessions == old(sessions) && isStreaming == old(isStreaming) && inputValue == old(inputValue)
      ensures searchTerm == old(searchTerm) && settings == old(settings)
      ensures Find(sessions, id).Some? ==> Valid()
    {
      activeSessionId := Some(id);
    }

    /** The message box's `onChange`. */
    method SetInput(value: string)
      modifies this
      ensures inputValue == value
      ensures sessions == old(sessions) && activeSessionId == old(activeSessionId) && isStreaming == old(isStreaming)
      ensures searchTerm == old(searchTerm) && settings == old(settings)
      ensures old(Valid()) ==> Valid()
    {
      inputValue := value;
    }

    /** The search box's `onChange`. */
    method SetSearchTerm(term: string)
      modifies this
      ensures searchTerm == term
      ensures sessions == old(sessions) && activeSessionId == old(activeSessionId) && isStreaming == old(isStreaming)
      ensures inputValue == old(inputValue) && settings == old(settings)
      ensures old(Valid()) ==> Valid()
    {
      searchTerm := term;
    }

    /** `filteredSessions`: the sessions matching the search term, in list order. */
    function FilteredSessions(): (r: seq<Session>)
      reads this
      ensures forall s :: s in r <==> s in sessions && Matches(s, searchTerm)
      ensures IsSubsequence(r, sessions)
      ensures searchTerm == [] ==> r == sessions
    {
      if searchTerm == [] then SearchEmptyTerm(sessions); Search(sessions, searchTerm)
      else Search(sessions, searchTerm)
    }

    /** The synchronous part of `handleSendMessage` after its guard: the
        session is created when none is active, the user's message and the
        empty assistant placeholder are appended, the input is cleared and
        streaming starts. */
    method OpenExchange(text: string, now: nat) returns (target: Id)
      modifies this
      ensures target == SendTarget(old(activeSessionId), now)
      ensures sessions == Opened(old(sessions), old(activeSessionId), text, now)
      ensures activeSessionId == Some(target) && isStreaming && inputValue == []
      ensures searchTerm == old(searchTerm) && settings == old(settings)
    {
      var snapshot, snapshotActive := sessions, activeSessionId;
      if activeSessionId.Some? {
        target := activeSessionId.value;
      } else {
        target := CreateNewSession(now);
      }
      assert sessions == Start(snapshot, snapshotActive, now);
      var mode := ActiveMode(snapshot, snapshotActive);
      sessions := UpdateWhere(sessions, target, Append(UserMessage(now, text, mode), Some(now)));
      inputValue := "";
      isStreaming := true;
      sessions := UpdateWhere(sessions, target, Append(Placeholder(now, mode), None));
    }

    /** The `for await` loop: each chunk is appended to the text received so
        far and the placeholder's content is replaced by it. */
    method StreamFragments(target: Id, aiId: Id, fragments: seq<Option<string>>)
      modifies this
      ensures sessions == Streamed(old(sessions), target, aiId, fragments)
      ensures activeSessionId == old(activeSessionId) && isStreaming == old(isStreaming)
      ensures inputValue == old(inputValue) && searchTerm == old(searchTerm) && settings == old(settings)
    {
      ghost var base := sessions;
      var accumulated := "";
      var i := 0;
      assert fragments[..0] == [];
      while i < |fragments|
        invariant 0 <= i <= |fragments|
        invariant accumulated == Accumulate(fragments[..i])
        invariant sessions == Streamed(base, target, aiId, fragments[..i])
        invariant activeSessionId == old(activeSessionId) && isStreaming == old(isStreaming)
        invariant inputValue == old(inputValue) && searchTerm == old(searchTerm) && settings == old(settings)
      {
        StreamStep(base, target, aiId, fragments, i);
        AccumulateStep(fragments, i);
        accumulated := accumulated + ChunkText(fragments[i]);
        sessions := UpdateWhere(sessions, target, SetContent(aiId, accumulated));
        i := i + 1;
      }
      assert fragments[..i] == fragments;
    }

    /** The `catch` and the title step: a raised stream replaces the reply
        with the error text; otherwise a session that was empty when the
        message was sent gets a generated title. `finally` ends streaming. */
    method CloseExchange(snapshot: seq<Session>, target: Id, aiId: Id, text: string, raises: bool, reply: Gemini.TitleReply)
      returns (titlePrompt: Option<string>)
      modifies this
      ensures sessions == Finish(snapshot, target, old(sessions), aiId, raises, reply)
      ensures titlePrompt == if !raises && TitleGate(snapshot, target) then Some(Gemini.TitlePrompt(text)) else None
      ensures !isStreaming
      ensures activeSessionId == old(activeSessionId)
      ensures inputValue == old(inputValue) && searchTerm == old(searchTerm) && settings == old(settings)
    {
      titlePrompt := None;
      if raises {
        sessions := UpdateWhere(sessions, target, SetContent(aiId, ErrorText));
      } else if TitleGate(snapshot, target) {
        titlePrompt := Some(Gemini.TitlePrompt(text));
        sessions := UpdateWhere(sessions, target, SetTitle(Gemini.TitleFrom(reply)));
      }
      isStreaming := false;
    }

    /** `handleSendMessage`. The stream is given as the chunks it delivers
        and whether it raises after them; `reply` is what the title call
        would return. `request` is what is sent to the backend and
        `titlePrompt` what is sent to the title call, if it is made. History, mode,
        persona and the title gate are read from the sessions as they were
        when the message was sent. */
    method SendMessage(textOverride: Option<string>, now: nat, fragments: seq<Option<string>>,
                       raises: bool, reply: Gemini.TitleReply)
      returns (request: Option<Gemini.StreamRequest>, titlePrompt: Option<string>)
      modifies this
      ensures var text := ResolveText(textOverride, old(inputValue));
              IsBlank(text) || old(isStreaming) ==>
                && request.None? && titlePrompt.None?
                && sessions == old(sessions) && activeSessionId == old(activeSessionId)
                && isStreaming == old(isStreaming) && inputValue == old(inputValue)
      ensures var text := ResolveText(textOverride, old(inputValue));
              var target := SendTarget(old(activeSessionId), now);
              !IsBlank(text) && !old(isStreaming) ==>
                && sessions == Exchange.Exchange(old(sessions), old(activeSessionId), text, now, fragments, raises, reply)
                && activeSessionId == Some(target)
                && !isStreaming && inputValue == []
                && request == Some(Gemini.BuildRequest(text, History(old(sessions), target),
                     RequestMode(old(sessions), target), RequestRole(old(sessions), target), old(settings).model))
                && titlePrompt == if !raises && TitleGate(old(sessions), target) then Some(Gemini.TitlePrompt(text)) else None
      ensures searchTerm == old(searchTerm) && settings == old(settings)
      ensures old(Valid()) ==> Valid()
    {
      var text := ResolveText(textOverride, inputValue);
      if IsBlank(text) || isStreaming {
        return None, None;
      }
      ghost var wasValid := Valid();
      var snapshot, snapshotActive := sessions, activeSessionId;
      var target := OpenExchange(text, now);
      request := Some(Gemini.BuildRequest(text, History(snapshot, target),
        RequestMode(snapshot, target), RequestRole(snapshot, target), settings.model));
      StreamFragments(target, now + 1, fragments);
      titlePrompt := CloseExchange(snapshot, target, now + 1, text, raises, reply);
      if wasValid {
        ExchangeKeepsTarget(snapshot, snapshotActive, text, now, fragments, raises, reply);
      }
    }

    /** A click on a suggestion: the input box is set to it and it is sent.
        A suggestion always passes the blank-text guard, so it is rejected
        only while a response is streaming. */
    method SendSuggestion(k: nat, now: nat, fragments: seq<Option<string>>, raises: bool, reply: Gemini.TitleReply)
      returns (request: Option<Gemini.StreamRequest>, titlePrompt: Option<string>)
      requires k < |Constants.Suggestions|
      modifies this
      ensures request.Some? <==> !old(isStreaming)
      ensures old(isStreaming) ==> sessions == old(sessions) && inputValue == Constants.Suggestions[k]
      ensures old(isStreaming) ==> activeSessionId == old(activeSessionId) && isStreaming && titlePrompt.None?
      ensures !old(isStreaming) ==>
        var text := Constants.Suggestions[k];
        var target := SendTarget(old(activeSessionId), now);
        && sessions == Exchange.Exchange(old(sessions), old(activeSessionId), text, now, fragments, raises, reply)
        && activeSessionId == Some(target)
        && inputValue == [] && !isStreaming
        && request == Some(Gemini.BuildRequest(text, History(old(sessions), target),
             RequestMode(old(sessions), target), RequestRole(old(sessions), target), old(settings).model))
        && titlePrompt == if !raises && TitleGate(old(sessions), target) then Some(Gemini.TitlePrompt(text)) else None
      ensures searchTerm == old(searchTerm) && settings == old(settings)
      ensures old(Valid()) ==> Valid()
    {
      SetInput(Constants.Suggestions[k]);
      Constants.SuggestionsNotBlank();
      assert Constants.Suggestions[k] != [];
      request, titlePrompt := SendMessage(Some(Constants.Suggestions[k]), now, fragments, raises, reply);
    }

    /** `deleteSession`: the session goes, the rest keep their order; if it
        was active the first remaining session, or none, becomes active. */
    method DeleteSession(id: Id)
      modifies this
      ensures sessions == RemoveSession(old(sessions), id)
      ensures Find(sessions, id).None?
      ensures old(activeSessionId) == Some(id) ==>
        activeSessionId == if sessions == [] then None else Some(sessions[0].id)
      ensures old(activeSessionId) != Some(id) ==> activeSessionId == old(activeSessionId)
      ensures isStreaming == old(isStreaming) && inputValue == old(inputValue)
      ensures searchTerm == old(searchTerm) && settings == old(settings)
      ensures old(Valid()) ==> Valid()
    {
      ghost var wasValid := Valid();
      var remaining := RemoveSession(sessions, id);
      if activeSessionId == Some(id) {
        activeSessionId := if remaining == [] then None else Some(remaining[0].id);
      } else if wasValid && activeSessionId.Some? {
        var s := Find(sessions, activeSessionId.value).value;
        assert s in remaining;
      }
      sessions := remaining;
    }

    /** `toggleSessionMode`: without an active session nothing happens;
        otherwise only the active session's mode changes. */
    method ToggleSessionMode(mode: AIMode)
      modifies this
      ensures activeSessionId == old(activeSessionId)
      ensures activeSessionId.None? ==> sessions == old(sessions)
      ensures activeSessionId.Some? ==> sessions == UpdateWhere(old(sessions), activeSessionId.value, SetMode(mode))
      ensures isStreaming == old(isStreaming) && inputValue == old(inputValue)
      ensures searchTerm == old(searchTerm) && settings == old(settings)
      ensures old(Valid()) ==> Valid()
    {
      if activeSessionId.None? {
        return;
      }
      UpdateKeepsIds(sessions, activeSessionId.value, SetMode(mode), activeSessionId.value);
      sessions := UpdateWhere(sessions, activeSessionId.value, SetMode(mode));
    }

    /** `toggleSessionRole`: without an active session nothing happens;
        otherwise only the active session's persona changes. */
    method ToggleSessionRole(role: AIRole)
      modifies this
      ensures activeSessionId == old(activeSessionId)
      ensures activeSessionId.None? ==> sessions == old(sessions)
      ensures activeSessionId.Some? ==> sessions == UpdateWhere(old(sessions), activeSessionId.value, SetRole(role))
      ensures isStreaming == old(isStreaming) && inputValue == old(inputValue)
      ensures searchTerm == old(searchTerm) && settings == old(settings)
      ensures old(Valid()) ==> Valid()
    {
      if activeSessionId.None? {
        return;
      }
      UpdateKeepsIds(sessions, activeSessionId.value, SetRole(role), activeSessionId.value);
      sessions := UpdateWhere(sessions, activeSessionId.value, SetRole(role));
    }
  }
}
