/**
 * The chat page (src/pages/chat/Chat.jsx): the lookup of an unfinished
 * report in local storage, the question-progress counter, and the
 * resume-or-start decision.
 *
 * Local storage is the raw `getItem` result and JSON parsing is the function
 * parameter `parse`, which yields `None` when `JSON.parse` throws.
 */
module ChatPage {
  import opened Wrappers
  import opened JsText
  import UseChat

  const PendingReportsKey: string := "pendingReports"
  const Generating: string := "generating"
  const MaxProgress: nat := 10
  /** The first message `handleStartNew` sends. */
  const OpeningMessage: string := "你好，我准备好了，请开始吧。"

  /**
   * One element of the stored array as the `find` callback sees it. Reading
   * `r.mode` on `null` throws; any other JSON value reads its properties,
   * which are missing on a non-object.
   */
  datatype StoredReport =
    | Nullish
    | Stored(mode: Field<string>, status: Field<string>, messagesLength: Field<nat>)

  /** The parsed storage text: only an array has a `find` method. */
  datatype Storage = NotAnArray | ReportArray(items: seq<StoredReport>)

  /** How `localReports.find(...)` ends: the index of the first match, no match, or a throw. */
  datatype Lookup = FoundAt(index: nat) | NotFound | Threw

  predicate IsPendingFor(r: StoredReport, mode: string) {
    r.Stored? && r.mode == Value(mode) && r.status == Value(Generating)
  }

  /** `find` with the callback `r => r.mode === mode && r.status === 'generating'`. */
  function FindPending(items: seq<StoredReport>, mode: string): (r: Lookup)
    ensures r.FoundAt? ==> r.index < |items| && IsPendingFor(items[r.index], mode)
    ensures r.FoundAt? ==> forall j :: 0 <= j < r.index ==> items[j].Stored? && !IsPendingFor(items[j], mode)
    ensures r.NotFound? <==> forall j :: 0 <= j < |items| ==> items[j].Stored? && !IsPendingFor(items[j], mode)
    ensures r.Threw? ==> exists j :: 0 <= j < |items| && items[j].Nullish?
  {
    if items == [] then NotFound
    else if items[0].Nullish? then Threw
    else if IsPendingFor(items[0], mode) then FoundAt(0)
    else match FindPending(items[1..], mode)
      case FoundAt(k) => FoundAt(k + 1)
      case NotFound => NotFound
      case Threw => assert items[1..][0] in items; Threw
  }

  /** `JSON.parse(localStorage.getItem(key) || '[]')`: a missing or empty item reads as the empty array. */
  function ReadStorage(raw: Option<string>, parse: string -> Option<Storage>): Option<Storage> {
    if raw.None? || raw.value == "" then Some(ReportArray([])) else parse(raw.value)
  }

  /** `getLocalPendingReport`: the found report, or `null` when none matches or anything throws. */
  function GetLocalPendingReport(raw: Option<string>, parse: string -> Option<Storage>, mode: string): (r: Option<StoredReport>)
    ensures r.Some? ==> IsPendingFor(r.value, mode)
  {
    match ReadStorage(raw, parse)
    case None => None
    case Some(NotAnArray) => None
    case Some(ReportArray(items)) =>
      match FindPending(items, mode)
      case FoundAt(k) => Some(items[k])
      case NotFound => None
      case Threw => None
  }

  /**
   * The lookup returns the first matching stored report, provided no `null`
   * precedes it; with nothing stored, with unparseable text or with a
   * non-array it returns `null`.
   */
  lemma PendingLookupSpec(raw: Option<string>, parse: string -> Option<Storage>, mode: string)
    ensures raw.None? ==> GetLocalPendingReport(raw, parse, mode).None?
    ensures raw.Some? && raw.value != "" && parse(raw.value).None? ==> GetLocalPendingReport(raw, parse, mode).None?
    ensures raw.Some? && raw.value != "" && parse(raw.value) == Some(NotAnArray) ==>
      GetLocalPendingReport(raw, parse, mode).None?
    ensures raw.Some? && raw.value != "" && parse(raw.value).Some? && parse(raw.value).value.ReportArray? ==>
      var items := parse(raw.value).value.items;
      forall k :: 0 <= k < |items| && IsPendingFor(items[k], mode)
                  && (forall j :: 0 <= j < k ==> items[j].Stored? && !IsPendingFor(items[j], mode))
        ==> GetLocalPendingReport(raw, parse, mode) == Some(items[k])
  {
    if raw.Some? && raw.value != "" && parse(raw.value).Some? && parse(raw.value).value.ReportArray? {
      var items := parse(raw.value).value.items;
      forall k | 0 <= k < |items| && IsPendingFor(items[k], mode)
                 && (forall j :: 0 <= j < k ==> items[j].Stored? && !IsPendingFor(items[j], mode))
        ensures GetLocalPendingReport(raw, parse, mode) == Some(items[k])
      {
        FindFirstIs(items, mode, k);
      }
    }
  }

  /** The search stops at the first match when no `null` comes before it. */
  lemma {:induction false} FindFirstIs(items: seq<StoredReport>, mode: string, k: nat)
    requires k < |items| && IsPendingFor(items[k], mode)
    requires forall j :: 0 <= j < k ==> items[j].Stored? && !IsPendingFor(items[j], mode)
    ensures FindPending(items, mode) == FoundAt(k)
  {
    if k > 0 {
      FindFirstIs(items[1..], mode, k - 1);
    }
  }

  /** A `null` before any match makes `find` throw, so the lookup returns `null`. */
  lemma NullBeforeMatchHides(items: seq<StoredReport>, mode: string, j: nat)
    requires j < |items| && items[j].Nullish?
    requires forall i :: 0 <= i < j ==> !IsPendingFor(items[i], mode)
    ensures FindPending(items, mode) == Threw
  {
  }

  /** `pending && pending.messages?.length > 0`: only a report with stored messages is offered. */
  predicate OffersResume(pending: Option<StoredReport>) {
    pending.Some? && pending.value.Stored? && pending.value.messagesLength.Value?
    && pending.value.messagesLength.v > 0
  }

  // ------------------------------------------------------------------ progress

  /** `messages.filter(m => m.role === 'assistant').length`. */
  function AssistantCount(msgs: seq<UseChat.Message>): (r: nat)
    ensures r <= |msgs|
  {
    if msgs == [] then 0
    else AssistantCount(msgs[..|msgs| - 1]) + (if msgs[|msgs| - 1].role == "assistant" then 1 else 0)
  }

  /** `Math.min(aiMessageCount, 10)`. */
  function Progress(msgs: seq<UseChat.Message>): (r: nat)
    ensures r <= MaxProgress
    ensures r <= AssistantCount(msgs)
    ensures r == AssistantCount(msgs) || r == MaxProgress
  {
    if AssistantCount(msgs) < MaxProgress then AssistantCount(msgs) else MaxProgress
  }

  /** A successful round (user message then assistant reply) moves progress up by one until it reaches ten. */
  lemma ProgressAfterRound(msgs: seq<UseChat.Message>, user: UseChat.Message, reply: UseChat.Message)
    requires user.role == "user" && reply.role == "assistant"
    ensures Progress(msgs + [user, reply]) == if Progress(msgs) < MaxProgress then Progress(msgs) + 1 else MaxProgress
  {
    var m1 := msgs + [user];
    var m2 := msgs + [user, reply];
    assert m2[..|m2| - 1] == m1;
    assert m1[..|m1| - 1] == msgs;
    assert AssistantCount(m2) == AssistantCount(m1) + 1 == AssistantCount(msgs) + 1;
  }

  /** `Progress: ${String(progress).padStart(2, '0')}/10`, without the label. */
  function ProgressText(progress: nat): string {
    Pad2(progress) + "/10"
  }

  /** The counter always shows two digits that read back as the progress, then `/10`. */
  lemma ProgressTextShape(msgs: seq<UseChat.Message>)
    ensures var t := ProgressText(Progress(msgs));
      |t| == 5 && t[2..] == "/10" && t[..2] == Pad2(Progress(msgs))
    ensures AllDigits(Pad2(Progress(msgs))) && DigitsValue(Pad2(Progress(msgs))) == Progress(msgs)
  {
    Pad2Digits(Progress(msgs));
  }

  // ------------------------------------------------------- resume or start

  /**
   * The page's two flags. Chat.jsx reads `createReport` and `resumeReport`
   * from the report context, which does not provide them, so the handlers as
   * written throw a TypeError when they call them; the `AsWritten` methods
   * model that, and the others model the handlers with those calls returning
   * normally.
   */
  class Page {
    var hasStarted: bool
    var pendingReport: Option<StoredReport>

    constructor()
      ensures !hasStarted && pendingReport.None?
    {
      hasStarted := false;
      pendingReport := None;
    }

    /** The mount effect: remember the stored report when it has messages to resume. */
    method CheckPending(pending: Option<StoredReport>)
      modifies this
      ensures pendingReport == if OffersResume(pending) then pending else old(pendingReport)
      ensures hasStarted == old(hasStarted)
    {
      if OffersResume(pending) {
        pendingReport := pending;
      }
    }

    /** As written: `resumeReport` is undefined, so a resume throws before either flag changes. */
    method HandleResumeAsWritten() returns (threw: bool)
      ensures threw <==> pendingReport.Some?
    {
      threw := pendingReport.Some?;
    }

    /** `handleResume`, corrected: the pending report is resumed, the page starts and the offer is cleared. */
    method HandleResume() returns (resumed: Option<StoredReport>)
      modifies this
      ensures resumed == old(pendingReport)
      ensures old(pendingReport).Some? ==> hasStarted && pendingReport.None?
      ensures old(pendingReport).None? ==> hasStarted == old(hasStarted) && pendingReport.None?
    {
      resumed := pendingReport;
      if pendingReport.Some? {
        hasStarted := true;
        pendingReport := None;
      }
    }

    /** As written: both flags flip, then `createReport` throws and no message is sent. */
    method HandleStartNewAsWritten() returns (firstMessage: Option<string>)
      modifies this
      ensures hasStarted && pendingReport.None?
      ensures firstMessage.None?
    {
      pendingReport := None;
      hasStarted := true;
      firstMessage := None;
    }

    /** `handleStartNew`, corrected: drop the offer, start, and send the opening message. */
    method HandleStartNew() returns (firstMessage: string)
      modifies this
      ensures hasStarted && pendingReport.None?
      ensures firstMessage == OpeningMessage
    {
      pendingReport := None;
      hasStarted := true;
      firstMessage := OpeningMessage;
    }

    /**
     * `handleStart` as written: with a report pending, `handleResume` throws before either
     * flag changes; otherwise `handleStartNew` flips both flags and then throws. Either way
     * the promise rejects and no opening message is sent.
     */
    method HandleStartAsWritten() returns (threw: bool, firstMessage: Option<string>)
      modifies this
      ensures threw && firstMessage.None?
      ensures old(pendingReport).Some? ==> hasStarted == old(hasStarted) && pendingReport == old(pendingReport)
      ensures old(pendingReport).None? ==> hasStarted && pendingReport.None?
    {
      if pendingReport.Some? {
        threw := HandleResumeAsWritten();
        firstMessage := None;
      } else {
        firstMessage := HandleStartNewAsWritten();
        threw := true;
      }
    }

    /** `handleStart`, corrected: resume when a report is pending, otherwise start a new chat. */
    method HandleStart() returns (resumed: Option<StoredReport>, firstMessage: Option<string>)
      modifies this
      ensures hasStarted && pendingReport.None?
      ensures old(pendingReport).Some? ==> resumed == old(pendingReport) && firstMessage.None?
      ensures old(pendingReport).None? ==> resumed.None? && firstMessage == Some(OpeningMessage)
    {
      if pendingReport.Some? {
        resumed := HandleResume();
        firstMessage := None;
      } else {
        var m := HandleStartNew();
        resumed, firstMessage := None, Some(m);
      }
    }
  }
}
