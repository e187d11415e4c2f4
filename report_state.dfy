/**
 * The report being generated (src/contexts/ReportContext.jsx): one record of
 * three fields shared by the chat page and the result page, replaced field-wise
 * by four transitions.
 */
module ReportState {
  import opened Wrappers
  import opened JsText
  import ReactContext

  /** The sentinel a report reply starts with. */
  const Sentinel: string := "[Report]"

  /**
   * The input starts with the sentinel in any letter case. Without the `u` flag,
   * case-insensitive matching folds only ASCII letters onto ASCII letters.
   */
  predicate HasSentinelPrefix(text: string) {
    |text| >= |Sentinel| && EqualsIgnoreAsciiCase(text[..|Sentinel|], Sentinel)
  }

  /**
   * The replace of `updateReportContent` (the pattern `^\[Report\]\s*` with the
   * `i` flag): removes one leading sentinel in any letter case together with the
   * white space after it.
   */
  function StripReportPrefix(text: string): (r: string)
    ensures |r| <= |text|
    ensures !HasSentinelPrefix(text) ==> r == text
    ensures HasSentinelPrefix(text) ==> r == TrimStart(text[|Sentinel|..])
  {
    if HasSentinelPrefix(text) then TrimStart(text[|Sentinel|..]) else text
  }

  /**
   * What the strip removes is a case variant of the sentinel followed by white
   * space, and what it keeps is the rest of the input, starting with a non-space.
   */
  lemma StripReportPrefixSplits(text: string)
    requires HasSentinelPrefix(text)
    ensures var r := StripReportPrefix(text);
      && text == text[..|text| - |r|] + r
      && EqualsIgnoreAsciiCase(text[..|Sentinel|], Sentinel)
      && IsBlank(text[|Sentinel|..|text| - |r|])
      && (r == [] || !IsSpace(r[0]))
  {
    var rest := text[|Sentinel|..];
    TrimStartSpec(rest);
    var r := TrimStart(rest);
    assert text[|Sentinel|..|text| - |r|] == rest[..|rest| - |r|];
    assert text[|text| - |r|..] == rest[|rest| - |r|..];
  }

  /** Text without a leading `[` is stored unchanged. */
  lemma StripKeepsPlainText(text: string)
    requires text == [] || text[0] != '['
    ensures StripReportPrefix(text) == text
  {
  }

  /** Stripping a sentinel-tagged text gives back the text after it, when that starts with a non-space. */
  lemma StripTagged(body: string)
    requires body == [] || !IsSpace(body[0])
    ensures StripReportPrefix(Sentinel + body) == body
  {
    var text := Sentinel + body;
    assert text[..|Sentinel|] == Sentinel;
    assert text[|Sentinel|..] == body;
  }

  /** The report record held in the provider's state. */
  class ReportState {
    var content: string
    var isGenerating: bool
    var isComplete: bool

    /** The initial state: no content, neither generating nor complete. */
    constructor()
      ensures content == "" && !isGenerating && !isComplete
    {
      content := "";
      isGenerating := false;
      isComplete := false;
    }

    /** `startReport`: a fresh report being generated, whatever came before. */
    method StartReport()
      modifies this
      ensures content == "" && isGenerating && !isComplete
    {
      content := "";
      isGenerating := true;
      isComplete := false;
    }

    /** `updateReportContent`: stores the stripped text and keeps both flags. */
    method UpdateReportContent(text: string)
      modifies this
      ensures content == StripReportPrefix(text)
      ensures isGenerating == old(isGenerating) && isComplete == old(isComplete)
    {
      content := StripReportPrefix(text);
    }

    /** `completeReport`: generation over, report complete, content kept. */
    method CompleteReport()
      modifies this
      ensures !isGenerating && isComplete
      ensures content == old(content)
    {
      isGenerating := false;
      isComplete := true;
    }

    /** `resetReport`: back to the initial state. */
    method ResetReport()
      modifies this
      ensures content == "" && !isGenerating && !isComplete
    {
      content := "";
      isGenerating := false;
      isComplete := false;
    }

    /** `completeReport` is idempotent: a second call changes nothing. */
    method CompleteReportIdempotent()
      modifies this
      ensures !isGenerating && isComplete && content == old(content)
    {
      CompleteReport();
      ghost var once := (content, isGenerating, isComplete);
      CompleteReport();
      assert (content, isGenerating, isComplete) == once;
    }
  }

  /** The context value: the record's fields (the four transitions come with them). */
  datatype ReportView = ReportView(content: string, isGenerating: bool, isComplete: bool)

  const NoProviderError: string := "useReport must be used within a ReportProvider"

  /** `useReport`: the provider's value, or the error thrown outside a `ReportProvider`. */
  function UseReport(provided: Option<ReportView>): (r: Result<ReportView>)
    ensures r.Err? <==> provided.None?
    ensures r.Err? ==> r.error == NoProviderError
    ensures r.Ok? ==> r.value == provided.value
  {
    ReactContext.UseContext(provided, NoProviderError)
  }
}
