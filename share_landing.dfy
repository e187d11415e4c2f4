/**
 * The shared-report landing page (src/pages/share/shareLanding.jsx): the teaser
 * text cut from the report, the mode read from the link, and the guards around
 * fetching the report and offering the full-report link.
 */
module ShareLanding {
  import opened Wrappers
  import opened JsText
  import Modes

  /** The description shown when there is no report text. */
  const DefaultDescription: string := "通过深度对话，发现你不曾察觉的一面。AI 陪伴你探索内心，记录成长轨迹，重塑自我认知。"

  /** The Markdown marks the teaser drops: `[#*>\[\]]`. */
  const MarkupChars: set<char> := {'#', '*', '>', '[', ']'}

  /** The teaser length before the ellipsis. */
  const TeaserLength: nat := 200

  /** The cleaned text: the marks removed, then every run of newlines turned into one space. */
  function CleanText(text: string): (r: string)
    ensures forall c <- r :: c !in MarkupChars && c != '\n'
  {
    var r := CollapseNewlines(RemoveChars(text, MarkupChars));
    assert forall c <- r :: c !in MarkupChars by {
      CollapseNewlinesKeeps(RemoveChars(text, MarkupChars), MarkupChars);
    }
    r
  }

  /**
   * `extractDescription`: the default text without report text; otherwise the
   * first 200 characters of the cleaned text, always followed by `...`.
   */
  function ExtractDescription(text: Option<string>): (r: string)
    ensures text.None? || text == Some("") ==> r == DefaultDescription
    ensures text.Some? && text.value != "" ==> r == Take(CleanText(text.value), TeaserLength) + "..."
  {
    match text
    case Some(t) => if t == "" then DefaultDescription else Take(CleanText(t), TeaserLength) + "..."
    case None => DefaultDescription
  }

  /**
   * A teaser is at most 203 characters long, ends with `...`, and before that holds
   * a prefix of the cleaned text, free of Markdown marks and newlines.
   */
  lemma TeaserShape(t: string)
    requires t != ""
    ensures var r := ExtractDescription(Some(t));
      && 3 <= |r| <= TeaserLength + 3
      && r[|r| - 3..] == "..."
      && StartsWith(CleanText(t), r[..|r| - 3])
      && (forall i :: 0 <= i < |r| - 3 ==> r[i] !in MarkupChars && r[i] != '\n')
  {
    var c := Take(CleanText(t), TeaserLength);
    var r := c + "...";
    assert r[..|r| - 3] == c && r[|r| - 3..] == "...";
    forall i | 0 <= i < |r| - 3 ensures r[i] !in MarkupChars && r[i] != '\n' {
      assert r[i] == CleanText(t)[i];
      assert CleanText(t)[i] in CleanText(t);
    }
  }

  /** Text free of marks and newlines is kept word for word. */
  lemma CleanPlainText(t: string)
    requires forall c <- t :: c !in MarkupChars && c != '\n'
    ensures CleanText(t) == t
  {
    RemoveCharsNone(t, MarkupChars);
    CollapseNewlinesNone(t);
  }

  /** `searchParams.get('mode') || 'discover-self'`: the link's mode, unvalidated, with the default when missing or empty. */
  function PageMode(params: seq<(string, string)>): (r: string)
    ensures r != ""
    ensures ParamGet(params, "mode").None? || ParamGet(params, "mode") == Some("") ==> r == Modes.DiscoverSelf
    ensures ParamGet(params, "mode").Some? && ParamGet(params, "mode").value != "" ==> r == ParamGet(params, "mode").value
  {
    match ParamGet(params, "mode")
    case Some(m) => if m != "" then m else Modes.DiscoverSelf
    case None => Modes.DiscoverSelf
  }

  /** The report fields the page keeps from the fetched record. */
  datatype SharedReport = SharedReport(content: Field<string>, username: Field<string>, title: Field<string>,
                                       mode: Field<string>, subTitle: Field<string>)

  /** How the fetch of the report ends: a record, nothing, or an error. */
  datatype FetchOutcome = Fetched(record: SharedReport) | Nothing | FetchFailed

  /** The page state once the load effect has finished. */
  datatype PageState = PageState(loading: bool, report: Option<SharedReport>, error: Option<string>, fetched: bool)

  const NotFoundError: string := "报告不存在或已被删除"

  /**
   * The load effect: without a report id no fetch happens; otherwise the record
   * is kept when it arrives and a failure sets the not-found message. Loading
   * ends in every case.
   */
  function AfterLoad(reportId: Option<string>, outcome: FetchOutcome): (s: PageState)
    ensures !s.loading
    ensures reportId.None? || reportId == Some("") ==> s == PageState(false, None, None, false)
    ensures reportId.Some? && reportId.value != "" ==> s.fetched
    ensures s.report.Some? <==> s.fetched && outcome.Fetched?
    ensures s.error.Some? <==> s.fetched && outcome.FetchFailed?
    ensures s.error.Some? ==> s.error.value == NotFoundError
  {
    if reportId.None? || reportId.value == "" then PageState(false, None, None, false)
    else
      match outcome
      case Fetched(record) => PageState(false, Some(record), None, true)
      case Nothing => PageState(false, None, None, true)
      case FetchFailed => PageState(false, None, Some(NotFoundError), true)
  }

  /** `report?.content`: the full-report link is offered only for a report with non-empty content. */
  predicate OffersFullReport(report: Option<SharedReport>) {
    report.Some? && report.value.content.Value? && report.value.content.v != ""
  }

  /** The target of the full-report link. */
  function FullReportLink(mode: string, reportId: string): (r: string)
    ensures StartsWith(r, "/report-result?mode=")
    ensures var n := |"/report-result?mode="|;
      |r| >= n + |mode| && r[n..n + |mode|] == mode && r[n + |mode|..] == "&reportId=" + reportId
  {
    "/report-result?mode=" + mode + "&reportId=" + reportId
  }

  /** The link is only ever offered after a fetch for a real report id, so it never carries a null id. */
  lemma OfferedLinkHasId(reportId: Option<string>, outcome: FetchOutcome)
    requires OffersFullReport(AfterLoad(reportId, outcome).report)
    ensures reportId.Some? && reportId.value != ""
    ensures outcome.Fetched? && outcome.record.content.Value? && outcome.record.content.v != ""
  {
  }
}
