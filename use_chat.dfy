/**
 * The chat hook (src/hooks/useChat.js): one round of `sendUserMessage`
 * appends the user message and a loading placeholder, applies the cumulative
 * stream updates to the placeholder, and then either marks it successful or
 * removes it. Report detection is sticky within a round: the first update
 * that starts with `[Report]` (case-sensitive) fires `onReportStart`, and it
 * and every later update of the round are forwarded to `onReportUpdate`.
 *
 * `Date.now()` is given as two clock readings per round, and the network
 * call is replaced by the sequence of `onStream` arguments and the outcome
 * (resolved or thrown). The callbacks are recorded in a ghost trace.
 */
module UseChat {
  import opened Wrappers
  import opened JsText
  import ChatApi
  import Modes

  const ReportTag: string := "[Report]"

  /** The three callbacks a round can fire, in the order it fires them. */
  datatype Event = ReportStart | ReportUpdate(text: string) | ReportComplete

  datatype Status = Local | Loading | Success

  datatype Message = Message(id: int, role: string, content: string, status: Status)

  /** The request a round hands to `sendMessage`: the transcript and the chat mode. */
  datatype Request = Request(transcript: seq<ChatApi.ApiMessage>, mode: string)

  // ------------------------------------------------------------ message lists

  /** `msgs.map(m => ({role, content}))`. */
  function ToApi(msgs: seq<Message>): (r: seq<ChatApi.ApiMessage>)
    ensures |r| == |msgs|
    ensures forall i :: 0 <= i < |msgs| ==> r[i] == ChatApi.ApiMessage(msgs[i].role, msgs[i].content)
  {
    if msgs == [] then []
    else [ChatApi.ApiMessage(msgs[0].role, msgs[0].content)] + ToApi(msgs[1..])
  }

  /** The stream update: every message with the id gets the text and stays loading. */
  function SetContent(msgs: seq<Message>, id: int, text: string): (r: seq<Message>)
    ensures |r| == |msgs|
  {
    seq(|msgs|, i requires 0 <= i < |msgs| =>
      if msgs[i].id == id then msgs[i].(content := text, status := Loading) else msgs[i])
  }

  /** The completion: every message with the id becomes successful. */
  function MarkSuccess(msgs: seq<Message>, id: int): (r: seq<Message>)
    ensures |r| == |msgs|
  {
    seq(|msgs|, i requires 0 <= i < |msgs| =>
      if msgs[i].id == id then msgs[i].(status := Success) else msgs[i])
  }

  /** The rollback: `msgs.filter(m => m.id !== id)`. */
  function RemoveId(msgs: seq<Message>, id: int): (r: seq<Message>)
    ensures |r| <= |msgs|
    ensures forall m :: m in r <==> m in msgs && m.id != id
  {
    if msgs == [] then []
    else (if msgs[0].id != id then [msgs[0]] else []) + RemoveId(msgs[1..], id)
  }

  predicate UniqueIds(msgs: seq<Message>) {
    forall i, j :: 0 <= i < j < |msgs| ==> msgs[i].id != msgs[j].id
  }

  /** Every id in the list is older than the clock reading `t`. */
  predicate IdsBelow(msgs: seq<Message>, t: int) {
    forall i :: 0 <= i < |msgs| ==> msgs[i].id < t
  }

  /** With unique ids, a stream update changes the one message with that id and nothing else. */
  lemma SetContentOnly(msgs: seq<Message>, k: nat, text: string)
    requires UniqueIds(msgs) && k < |msgs|
    ensures SetContent(msgs, msgs[k].id, text) == msgs[k := msgs[k].(content := text, status := Loading)]
  {
  }

  /** With unique ids, the completion changes only the status of the one message with that id. */
  lemma MarkSuccessOnly(msgs: seq<Message>, k: nat)
    requires UniqueIds(msgs) && k < |msgs|
    ensures MarkSuccess(msgs, msgs[k].id) == msgs[k := msgs[k].(status := Success)]
  {
  }

  /** A later stream update overwrites an earlier one. */
  lemma SetContentOverwrites(msgs: seq<Message>, id: int, a: string, b: string)
    ensures SetContent(SetContent(msgs, id, a), id, b) == SetContent(msgs, id, b)
  {
  }

  /** Removing an id nobody carries changes nothing. */
  lemma {:induction false} RemoveIdAbsent(msgs: seq<Message>, id: int)
    requires forall i :: 0 <= i < |msgs| ==> msgs[i].id != id
    ensures RemoveId(msgs, id) == msgs
  {
    if msgs != [] {
      RemoveIdAbsent(msgs[1..], id);
    }
  }

  /** Removing the id of the last message, carried by none before it, restores the prefix. */
  lemma {:induction false} RemoveIdLast(msgs: seq<Message>, m: Message)
    requires forall i :: 0 <= i < |msgs| ==> msgs[i].id != m.id
    ensures RemoveId(msgs + [m], m.id) == msgs
  {
    if msgs == [] {
    } else {
      assert (msgs + [m])[1..] == msgs[1..] + [m];
      RemoveIdLast(msgs[1..], m);
    }
  }

  // --------------------------------------------------------- report detection

  /** The sticky flag after one update. */
  function Detect(started: bool, s: string): bool {
    started || StartsWith(s, ReportTag)
  }

  /** The callbacks one `onStream` call fires, given the flag before it. */
  function StepEvents(started: bool, s: string): seq<Event> {
    (if !started && StartsWith(s, ReportTag) then [ReportStart] else [])
    + (if Detect(started, s) then [ReportUpdate(s)] else [])
  }

  /** The flag after a round's updates, starting from the reset value `false`. */
  function StartedAfter(updates: seq<string>): bool {
    if updates == [] then false
    else Detect(StartedAfter(updates[..|updates| - 1]), updates[|updates| - 1])
  }

  /** The callbacks a round's updates fire, one step at a time. */
  function RoundTrace(updates: seq<string>): seq<Event> {
    if updates == [] then []
    else
      var init := updates[..|updates| - 1];
      RoundTrace(init) + StepEvents(StartedAfter(init), updates[|updates| - 1])
  }

  /** The index of the first update that carries the tag. */
  function FirstReport(updates: seq<string>): (r: Option<nat>)
    ensures r.None? <==> forall j :: 0 <= j < |updates| ==> !StartsWith(updates[j], ReportTag)
    ensures r.Some? ==> r.value < |updates| && StartsWith(updates[r.value], ReportTag)
    ensures r.Some? ==> forall j :: 0 <= j < r.value ==> !StartsWith(updates[j], ReportTag)
  {
    if updates == [] then None
    else if StartsWith(updates[0], ReportTag) then Some(0)
    else match FirstReport(updates[1..])
      case None => None
      case Some(k) => Some(k + 1)
  }

  /** The callbacks a whole round fires: the detection trace, then completion when it resolved as a report. */
  function RoundEvents(updates: seq<string>, resolved: bool): seq<Event> {
    RoundTrace(updates) + (if resolved && StartedAfter(updates) then [ReportComplete] else [])
  }

  /** The flag is set exactly when some update of the round carried the tag. */
  lemma {:induction false} StartedAfterIffTagged(updates: seq<string>)
    ensures StartedAfter(updates) <==> FirstReport(updates).Some?
  {
    if updates != [] {
      var init := updates[..|updates| - 1];
      StartedAfterIffTagged(init);
      assert forall j :: 0 <= j < |init| ==> init[j] == updates[j];
    }
  }

  /** The first tagged index is determined by its defining properties. */
  lemma FirstReportIs(updates: seq<string>, k: nat)
    requires k < |updates| && StartsWith(updates[k], ReportTag)
    requires forall j :: 0 <= j < k ==> !StartsWith(updates[j], ReportTag)
    ensures FirstReport(updates) == Some(k)
  {
  }

  /** `onReportUpdate` for each update, in order. */
  function Forwarded(updates: seq<string>): (r: seq<Event>)
    ensures |r| == |updates|
    ensures forall i :: 0 <= i < |updates| ==> r[i] == ReportUpdate(updates[i])
  {
    if updates == [] then []
    else Forwarded(updates[..|updates| - 1]) + [ReportUpdate(updates[|updates| - 1])]
  }

  /**
   * The trace of a round in closed form: nothing when no update is tagged;
   * otherwise `onReportStart` once, on the first tagged update, followed by
   * that update and every later one, in order.
   */
  lemma {:induction false} RoundTraceShape(updates: seq<string>)
    ensures FirstReport(updates).None? ==> RoundTrace(updates) == []
    ensures FirstReport(updates).Some? ==>
      RoundTrace(updates) == [ReportStart] + Forwarded(updates[FirstReport(updates).value..])
  {
    if updates != [] {
      var n := |updates| - 1;
      var init := updates[..n];
      var s := updates[n];
      assert forall j :: 0 <= j < |init| ==> init[j] == updates[j];
      RoundTraceShape(init);
      StartedAfterIffTagged(init);
      assert updates == init + [s];
      match FirstReport(init)
      case Some(k) =>
        FirstReportIs(updates, k);
        TraceStepForwards(init, s, k);
      case None =>
        if StartsWith(s, ReportTag) {
          FirstReportIs(updates, n);
          TraceStepStarts(init, s);
        }
    }
  }

  /** One more update of a round already classified as a report is forwarded. */
  lemma TraceStepForwards(init: seq<string>, s: string, k: nat)
    requires k <= |init| && StartedAfter(init)
    requires RoundTrace(init) == [ReportStart] + Forwarded(init[k..])
    ensures RoundTrace(init + [s]) == [ReportStart] + Forwarded((init + [s])[k..])
  {
    TraceSnoc(init, s);
    assert StepEvents(true, s) == [ReportUpdate(s)];
    ForwardedSnoc(init, k, s);
    assert ([ReportStart] + Forwarded(init[k..])) + [ReportUpdate(s)]
        == [ReportStart] + (Forwarded(init[k..]) + [ReportUpdate(s)]);
  }

  /** One more update extends the trace by the callbacks it fires. */
  lemma TraceSnoc(init: seq<string>, s: string)
    ensures RoundTrace(init + [s]) == RoundTrace(init) + StepEvents(StartedAfter(init), s)
    ensures StartedAfter(init + [s]) == Detect(StartedAfter(init), s)
  {
    var u := init + [s];
    assert u[..|u| - 1] == init && u[|u| - 1] == s;
  }

  /** Forwarding one more update appends its `onReportUpdate`. */
  lemma ForwardedSnoc(init: seq<string>, k: nat, s: string)
    requires k <= |init|
    ensures Forwarded((init + [s])[k..]) == Forwarded(init[k..]) + [ReportUpdate(s)]
  {
    var tail := (init + [s])[k..];
    assert tail[..|tail| - 1] == init[k..] && tail[|tail| - 1] == s;
  }

  /** The first tagged update of a round fires the start and is forwarded. */
  lemma TraceStepStarts(init: seq<string>, s: string)
    requires !StartedAfter(init) && RoundTrace(init) == [] && StartsWith(s, ReportTag)
    ensures RoundTrace(init + [s]) == [ReportStart] + Forwarded((init + [s])[|init|..])
  {
    var u := init + [s];
    assert u[..|u| - 1] == init;
    assert u[|init|..] == [s];
  }

  /** `onReportStart` fires at most once per round, and only as the first callback. */
  lemma ReportStartAtMostOnce(updates: seq<string>)
    ensures forall i :: 0 <= i < |RoundTrace(updates)| && RoundTrace(updates)[i] == ReportStart ==> i == 0
  {
    RoundTraceShape(updates);
  }

  /** `onReportComplete` fires only after a successful round that was classified as a report, and then last. */
  lemma CompleteOnlyForReports(updates: seq<string>, resolved: bool)
    ensures ReportComplete in RoundEvents(updates, resolved) <==> resolved && FirstReport(updates).Some?
    ensures ReportComplete in RoundEvents(updates, resolved) ==>
      RoundEvents(updates, resolved)[|RoundEvents(updates, resolved)| - 1] == ReportComplete
  {
    RoundTraceShape(updates);
    StartedAfterIffTagged(updates);
    var t := RoundTrace(updates);
    assert ReportComplete !in t by {
      if FirstReport(updates).Some? {
        var f := Forwarded(updates[FirstReport(updates).value..]);
        assert forall i :: 0 <= i < |f| ==> f[i].ReportUpdate?;
      }
    }
  }

  /** The last element of a non-empty list, or the default. */
  function LastOr(ss: seq<string>, default: string): string {
    if ss == [] then default else ss[|ss| - 1]
  }

  // ---------------------------------------------------------------- the mode

  /**
   * The mode a corrected `sendUserMessage` passes to `sendMessage`: the
   * hook's `mode` option when present, else `sendMessage`'s default,
   * discover-self. The hook as written never reads the option
   * (`RequestModeAsWritten`).
   */
  function RequestMode(option: Option<string>): (r: string)
    ensures option.Some? ==> r == option.value
    ensures option.None? ==> r == Modes.DiscoverSelf
  {
    option.GetOr(Modes.DiscoverSelf)
  }

  /** As written, the hook never reads its `mode` option, so every request is a discover-self request. */
  function RequestModeAsWritten(option: Option<string>): (r: string)
    ensures r == Modes.DiscoverSelf
  {
    Modes.DiscoverSelf
  }

  /**
   * As written, every chat is answered with the discover-self system prompt
   * in direct mode, whatever `mode` option the page passed; so a chat opened
   * in understand-others mode never gets its own prompt.
   */
  lemma UnderstandOthersPromptLost(apiKey: string, p: ChatApi.Prompts, option: Option<string>,
                                   transcript: seq<ChatApi.ApiMessage>)
    requires apiKey != "" && p.understandOthersSystem != p.discoverSelfSystem
    ensures var r := ChatApi.DirectRequest(apiKey, p, RequestModeAsWritten(option), transcript);
      r.Ok? && r.value[0].content == p.discoverSelfSystem
    ensures option == Some(Modes.UnderstandOthers) ==>
      var r := ChatApi.DirectRequest(apiKey, p, RequestModeAsWritten(option), transcript);
      r.Ok? && r.value[0].content != ChatApi.GetSystemPrompt(p, option.value)
  {
  }

  /** Passing the option on, the system prompt follows the mode the page was opened in. */
  lemma ModeReachesPrompt(apiKey: string, p: ChatApi.Prompts, mode: string, transcript: seq<ChatApi.ApiMessage>)
    requires apiKey != ""
    ensures var r := ChatApi.DirectRequest(apiKey, p, RequestMode(Some(mode)), transcript);
      r.Ok? && r.value[0].content == ChatApi.GetSystemPrompt(p, mode)
  {
  }

  // ----------------------------------------------------------- the hook state

  class ChatSession {
    /**
     * The `mode` option the page creates the hook with. `Send` passes it on,
     * as the corrected hook does; `SendAsWritten` drops it, as useChat.js does.
     */
    const mode: Option<string>
    var messages: seq<Message>
    var isLoading: bool
    /** `reportStartedRef.current`. */
    var reportStarted: bool
    /** The current round's `aiMsgId`, closed over by its callbacks. */
    var aiMsgId: int
    /** The report callbacks fired so far. */
    ghost var events: seq<Event>

    constructor(mode: Option<string>)
      ensures this.mode == mode
      ensures messages == [] && !isLoading && !reportStarted && events == []
    {
      this.mode := mode;
      messages := [];
      isLoading := false;
      reportStarted := false;
      aiMsgId := 0;
      events := [];
    }

    /**
     * The synchronous start of `sendUserMessage`. Blank input, or any input
     * while a round is running, is ignored. Otherwise the user message (with
     * the untrimmed text) and an empty loading placeholder are appended, the
     * report flag is reset, and the request sent holds the earlier messages
     * and the user message, never the placeholder. The request carries the
     * hook's `mode` option (the corrected hook; see `SendAsWritten`).
     */
    method Send(userMessage: string, userTime: int, aiTime: int) returns (request: Option<Request>)
      requires userTime <= aiTime
      modifies this
      ensures request.None? <==> IsBlank(userMessage) || old(isLoading)
      ensures request.None? ==>
        messages == old(messages) && isLoading == old(isLoading)
        && reportStarted == old(reportStarted) && aiMsgId == old(aiMsgId)
      ensures request.Some? ==>
        var user := Message(userTime, "user", userMessage, Local);
        messages == old(messages) + [user, Message(aiTime + 1, "assistant", "", Loading)]
        && isLoading && !reportStarted && aiMsgId == aiTime + 1 && aiMsgId > user.id
        && request.value == Request(ToApi(old(messages) + [user]), RequestMode(mode))
      ensures request.Some? && UniqueIds(old(messages)) && IdsBelow(old(messages), userTime) ==>
        UniqueIds(messages)
      ensures events == old(events)
    {
      TrimEmptyIffBlank(userMessage);
      if Trim(userMessage) == "" || isLoading {
        return None;
      }
      var user := Message(userTime, "user", userMessage, Local);
      var updated := messages + [user];
      messages := updated;
      isLoading := true;
      reportStarted := false;
      aiMsgId := aiTime + 1;
      messages := messages + [Message(aiMsgId, "assistant", "", Loading)];
      request := Some(Request(ToApi(updated), RequestMode(mode)));
    }

    /**
     * `Send` as written: the same state change, but the request always
     * carries discover-self, because the hook never reads its `mode` option.
     */
    method SendAsWritten(userMessage: string, userTime: int, aiTime: int) returns (request: Option<Request>)
      requires userTime <= aiTime
      modifies this
      ensures request.None? <==> IsBlank(userMessage) || old(isLoading)
      ensures request.None? ==>
        messages == old(messages) && isLoading == old(isLoading)
        && reportStarted == old(reportStarted) && aiMsgId == old(aiMsgId)
      ensures request.Some? ==>
        var user := Message(userTime, "user", userMessage, Local);
        messages == old(messages) + [user, Message(aiTime + 1, "assistant", "", Loading)]
        && isLoading && !reportStarted && aiMsgId == aiTime + 1
        && request.value == Request(ToApi(old(messages) + [user]), Modes.DiscoverSelf)
      ensures events == old(events)
    {
      request := Send(userMessage, userTime, aiTime);
      if request.Some? {
        request := Some(request.value.(mode := RequestModeAsWritten(mode)));
      }
    }

    /** One `onStream` call of the current round. */
    method StreamUpdate(streamContent: string)
      modifies this
      ensures reportStarted == Detect(old(reportStarted), streamContent)
      ensures events == old(events) + StepEvents(old(reportStarted), streamContent)
      ensures messages == SetContent(old(messages), aiMsgId, streamContent)
      ensures isLoading == old(isLoading) && aiMsgId == old(aiMsgId)
    {
      if !reportStarted && StartsWith(streamContent, ReportTag) {
        reportStarted := true;
        events := events + [ReportStart];
      }
      if reportStarted {
        events := events + [ReportUpdate(streamContent)];
      }
      messages := SetContent(messages, aiMsgId, streamContent);
    }

    /** `sendMessage` resolved: the placeholder becomes successful, and a report round completes. */
    method Succeed()
      modifies this
      ensures messages == MarkSuccess(old(messages), aiMsgId)
      ensures events == old(events) + (if reportStarted then [ReportComplete] else [])
      ensures !isLoading
      ensures reportStarted == old(reportStarted) && aiMsgId == old(aiMsgId)
    {
      messages := MarkSuccess(messages, aiMsgId);
      if reportStarted {
        events := events + [ReportComplete];
      }
      isLoading := false;
    }

    /** `sendMessage` threw: the placeholder is removed. */
    method Fail()
      modifies this
      ensures messages == RemoveId(old(messages), aiMsgId)
      ensures events == old(events)
      ensures !isLoading
      ensures reportStarted == old(reportStarted) && aiMsgId == old(aiMsgId)
    {
      messages := RemoveId(messages, aiMsgId);
      isLoading := false;
    }

    /** `clearMessages`: only the list is emptied. */
    method Clear()
      modifies this
      ensures messages == []
      ensures isLoading == old(isLoading) && reportStarted == old(reportStarted)
      ensures aiMsgId == old(aiMsgId) && events == old(events)
    {
      messages := [];
    }

    /**
     * The `onStream` calls of one round, in order, from the reset report flag:
     * the flag and the callbacks follow the round's trace, and the placeholder
     * (the last message) shows the latest text.
     */
    method StreamAll(updates: seq<string>, ghost clean: bool, ghost before: seq<Message>)
      requires !reportStarted
      requires clean ==> UniqueIds(messages) && messages == before + [Message(aiMsgId, "assistant", "", Loading)]
      modifies this
      ensures reportStarted == StartedAfter(updates)
      ensures events == old(events) + RoundTrace(updates)
      ensures isLoading == old(isLoading) && aiMsgId == old(aiMsgId)
      ensures clean ==> UniqueIds(messages)
      ensures clean ==> messages == before + [Message(aiMsgId, "assistant", LastOr(updates, ""), Loading)]
    {
      ghost var events0 := events;
      var i := 0;
      while i < |updates|
        invariant 0 <= i <= |updates|
        invariant isLoading == old(isLoading) && aiMsgId == old(aiMsgId)
        invariant reportStarted == StartedAfter(updates[..i])
        invariant events == events0 + RoundTrace(updates[..i])
        invariant clean ==> UniqueIds(messages)
        invariant clean ==> messages == before + [Message(aiMsgId, "assistant", LastOr(updates[..i], ""), Loading)]
      {
        assert updates[..i + 1][..i] == updates[..i];
        if clean {
          SetContentOnly(messages, |before|, updates[i]);
        }
        StreamUpdate(updates[i]);
        i := i + 1;
      }
      assert updates[..i] == updates;
    }

    /**
     * A whole round: `Send`, one `StreamUpdate` per `onStream` argument, then
     * `Succeed` or `Fail`. When the clock has moved past every earlier id, the
     * round leaves the earlier messages and the user message in place and
     * keeps the placeholder, with the last streamed text, only on success.
     */
    method SendUserMessage(userMessage: string, userTime: int, aiTime: int,
                           updates: seq<string>, resolved: bool) returns (request: Option<Request>)
      requires userTime <= aiTime
      modifies this
      ensures request.None? <==> IsBlank(userMessage) || old(isLoading)
      ensures request.None? ==> messages == old(messages) && events == old(events)
      ensures request.Some? ==>
        !isLoading && events == old(events) + RoundEvents(updates, resolved)
        && request.value == Request(ToApi(old(messages) + [Message(userTime, "user", userMessage, Local)]), RequestMode(mode))
      ensures request.Some? && UniqueIds(old(messages)) && IdsBelow(old(messages), userTime) ==>
        var before := old(messages) + [Message(userTime, "user", userMessage, Local)];
        messages == before + (if resolved then [Message(aiTime + 1, "assistant", LastOr(updates, ""), Success)] else [])
    {
      ghost var clean := UniqueIds(messages) && IdsBelow(messages, userTime);
      ghost var before := messages + [Message(userTime, "user", userMessage, Local)];
      ghost var events0 := events;
      request := Send(userMessage, userTime, aiTime);
      if request.None? {
        return;
      }
      StreamAll(updates, clean, before);
      ghost var placeholder := Message(aiMsgId, "assistant", LastOr(updates, ""), Loading);
      if resolved {
        if clean {
          assert MarkSuccess(messages, aiMsgId) == before + [placeholder.(status := Success)] by {
            MarkSuccessOnly(messages, |before|);
          }
        }
        Succeed();
      } else {
        if clean {
          assert RemoveId(messages, aiMsgId) == before by {
            RemoveIdLast(before, placeholder);
          }
        }
        Fail();
      }
      ghost var tail := if resolved && StartedAfter(updates) then [ReportComplete] else [];
      assert (events0 + RoundTrace(updates)) + tail == events0 + (RoundTrace(updates) + tail);
      assert events == events0 + RoundEvents(updates, resolved);
    }
  }

  /**
   * Whatever mode the page opened the chat in, the request the hook as
   * written sends is answered with the discover-self system prompt in direct
   * mode; for an understand-others chat that is not the chat's own prompt.
   */
  method SendAsWrittenLosesPrompt(s: ChatSession, userMessage: string, userTime: int, aiTime: int,
                                  apiKey: string, p: ChatApi.Prompts)
    returns (request: Option<Request>)
    requires userTime <= aiTime && apiKey != "" && p.understandOthersSystem != p.discoverSelfSystem
    modifies s
    ensures request.None? <==> IsBlank(userMessage) || old(s.isLoading)
    ensures request.Some? ==>
      var r := ChatApi.DirectRequest(apiKey, p, request.value.mode, request.value.transcript);
      r.Ok? && r.value[0].content == p.discoverSelfSystem
      && (s.mode == Some(Modes.UnderstandOthers) ==> r.value[0].content != ChatApi.GetSystemPrompt(p, s.mode.value))
  {
    request := s.SendAsWritten(userMessage, userTime, aiTime);
  }
}
