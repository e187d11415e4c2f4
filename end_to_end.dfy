/**
 * How the modules meet on the offline path: the scripted final report is
 * recognised as a report by the chat hook, stored without its sentinel by the
 * report context, and rendered by the result page starting with its title.
 */
module EndToEnd {
  import opened Wrappers
  import opened JsText
  import MockData
  import UseChat
  import ReportState
  import ReportView

  const Title: string := "个人天赋使用说明书"

  /** The heading line is `# ` followed by the title, with no line break in it. */
  lemma HeadingLine()
    ensures MockData.ReportHeading == "# " + Title
    ensures forall i :: 0 <= i < |MockData.ReportHeading| ==> MockData.ReportHeading[i] != '\n'
  {
  }

  /** A first piece without a line break that is not blank is the first rendered piece. */
  lemma FirstPieceRendered(h: string, rest: string)
    requires forall i :: 0 <= i < |h| ==> h[i] != '\n'
    requires Trim(h) != ""
    ensures |ReportView.Paragraphs(h + "\n\n" + rest)| >= 1
    ensures ReportView.Paragraphs(h + "\n\n" + rest)[0] == h
  {
    SplitAfterHead(h, "\n\n", rest);
    ReportView.NonBlankAppend([h], Split(rest, "\n\n"));
  }

  /** `# ` and a title that has no white space at its ends and does not start with `#` make a level-one heading. */
  lemma TitleHeading(title: string)
    requires title != [] && title[0] != '#'
    requires !IsSpace(title[0]) && !IsSpace(title[|title| - 1])
    ensures Trim("# " + title) == "# " + title
    ensures ReportView.BlockOf("# " + title) == ReportView.Heading(1, title)
  {
    var h := "# " + title;
    assert h[|h| - 1] == title[|title| - 1];
    assert h[1..] == " " + title;
    assert ReportView.HashRun(h[1..]) == 0;
    assert ReportView.HashRun(h) == 1;
    assert (" " + title)[1..] == title;
    assert TrimStart(" " + title) == title;
  }

  /**
   * Content whose first piece is `# ` and a title (no line break, no white
   * space at its ends, not starting with `#`) renders that title first, as a
   * level-one heading, whatever follows the blank line.
   */
  lemma RendersTitleFirst(title: string, rest: string)
    requires title != [] && title[0] != '#'
    requires !IsSpace(title[0]) && !IsSpace(title[|title| - 1])
    requires forall i :: 0 <= i < |title| ==> title[i] != '\n'
    ensures |ReportView.RenderBlocks("# " + title + "\n\n" + rest)| >= 1
    ensures ReportView.RenderBlocks("# " + title + "\n\n" + rest)[0] == ReportView.Heading(1, title)
  {
    var h := "# " + title;
    forall i | 0 <= i < |h| ensures h[i] != '\n' {
      if i >= 2 { assert h[i] == title[i - 2]; }
    }
    TitleHeading(title);
    FirstPieceRendered(h, rest);
  }

  /** The stored mock report renders its title as the first, level-one heading. */
  lemma StoredReportRendersTitle()
    ensures |ReportView.RenderBlocks(MockData.ReportHeading + "\n\n" + MockData.ReportRest)| >= 1
    ensures ReportView.RenderBlocks(MockData.ReportHeading + "\n\n" + MockData.ReportRest)[0]
      == ReportView.Heading(1, Title)
  {
    HeadingLine();
    RendersTitleFirst(Title, MockData.ReportRest);
  }

  /**
   * The final mock reply opens a report in the chat hook, and what the report
   * context stores of it is the heading, a blank line and the rest; by
   * `StoredReportRendersTitle` the result page shows that under the report's title.
   */
  lemma MockReportDelivered()
    ensures StartsWith(MockData.FinalReport, UseChat.ReportTag)
    ensures UseChat.StepEvents(false, MockData.FinalReport)
      == [UseChat.ReportStart, UseChat.ReportUpdate(MockData.FinalReport)]
    ensures ReportState.StripReportPrefix(MockData.FinalReport)
      == MockData.ReportHeading + "\n\n" + MockData.ReportRest
  {
    MockData.SentinelOnlyInReport(|MockData.Responses|);
    var body := MockData.ReportHeading + "\n\n" + MockData.ReportRest;
    assert MockData.FinalReport == ReportState.Sentinel + body;
    assert body[0] == '#';
    ReportState.StripTagged(body);
  }

  /**
   * A tagged text streamed as its typewriter prefixes (lengths 1, 2, ..., n)
   * opens the report at the prefix that is exactly `[Report]`: earlier
   * prefixes are too short to carry the tag. From there every prefix is
   * forwarded, the last being the whole text.
   */
  lemma TypedReportTrace(s: string, updates: seq<string>)
    requires StartsWith(s, UseChat.ReportTag)
    requires |updates| == |s|
    requires forall i :: 0 <= i < |updates| ==> updates[i] == s[..i + 1]
    ensures UseChat.FirstReport(updates) == Some(|UseChat.ReportTag| - 1)
    ensures UseChat.RoundTrace(updates)
      == [UseChat.ReportStart] + UseChat.Forwarded(updates[|UseChat.ReportTag| - 1..])
    ensures UseChat.StartedAfter(updates)
    ensures var t := UseChat.RoundTrace(updates); t[|t| - 1] == UseChat.ReportUpdate(s)
  {
    var k := |UseChat.ReportTag| - 1;
    assert updates[k] == UseChat.ReportTag;
    forall j | 0 <= j < k
      ensures !StartsWith(updates[j], UseChat.ReportTag)
    {
      assert |updates[j]| == j + 1;
    }
    UseChat.FirstReportIs(updates, k);
    UseChat.RoundTraceShape(updates);
    UseChat.StartedAfterIffTagged(updates);
    var f := UseChat.Forwarded(updates[k..]);
    assert f[|f| - 1] == UseChat.ReportUpdate(updates[|updates| - 1]);
    assert updates[|updates| - 1] == s;
  }

  /**
   * The final mock reply, streamed the way `MockData.MockSendMessage` emits
   * it, fires `onReportStart` once, at its eighth character, and forwards
   * every later prefix; the last text the report context receives is the
   * whole reply, which it stores as heading, blank line and rest.
   */
  lemma MockReportStreamed(updates: seq<string>)
    requires |updates| == |MockData.FinalReport|
    requires forall i :: 0 <= i < |updates| ==> updates[i] == MockData.FinalReport[..i + 1]
    ensures UseChat.RoundTrace(updates)
      == [UseChat.ReportStart] + UseChat.Forwarded(updates[|UseChat.ReportTag| - 1..])
    ensures var t := UseChat.RoundTrace(updates); t[|t| - 1] == UseChat.ReportUpdate(MockData.FinalReport)
    ensures ReportState.StripReportPrefix(MockData.FinalReport)
      == MockData.ReportHeading + "\n\n" + MockData.ReportRest
  {
    MockReportDelivered();
    TypedReportTrace(MockData.FinalReport, updates);
  }
}
