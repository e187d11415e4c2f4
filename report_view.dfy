/**
 * The result page (src/pages/report/Result.jsx): how report content is cut into
 * blocks and each block classified as a heading or a paragraph, and when the
 * page leaves for the home page.
 */
module ReportView {
  import opened JsText

  /** A rendered block: a heading with its level and text, or a paragraph. */
  datatype Block = Heading(level: nat, text: string) | Paragraph(text: string)

  /** The length of the run of `#` characters that `s` starts with (`/^#+/`). */
  function HashRun(s: string): (n: nat)
    ensures n <= |s|
    ensures forall i :: 0 <= i < n ==> s[i] == '#'
    ensures n == |s| || s[n] != '#'
    decreases |s|
  {
    if s != [] && s[0] == '#' then 1 + HashRun(s[1..]) else 0
  }

  /** How one trimmed piece renders: a heading when it starts with `#`, else a paragraph. */
  function BlockOf(trimmed: string): (b: Block)
    ensures b.Heading? <==> StartsWith(trimmed, "#")
  {
    if StartsWith(trimmed, "#") then
      var level := HashRun(trimmed);
      Heading(level, TrimStart(trimmed[level..]))
    else Paragraph(trimmed)
  }

  /** The class of a heading: `text-2xl` for level 1, `text-xl` for level 2, `text-lg` beyond. */
  function FontSize(level: nat): (r: string)
    ensures level == 1 ==> r == "text-2xl"
    ensures level == 2 ==> r == "text-xl"
    ensures level != 1 && level != 2 ==> r == "text-lg"
  {
    if level == 1 then "text-2xl" else if level == 2 then "text-xl" else "text-lg"
  }

  /** `filter(p => p.trim())`: the pieces that are not white space only, in order. */
  function NonBlank(ps: seq<string>): (r: seq<string>)
    ensures |r| <= |ps|
    ensures forall i :: 0 <= i < |r| ==> Trim(r[i]) != ""
    decreases |ps|
  {
    if |ps| == 0 then []
    else
      var rest := NonBlank(ps[1..]);
      if Trim(ps[0]) != "" then [ps[0]] + rest else rest
  }

  /** The filter keeps exactly the pieces that are not white space only. */
  lemma {:induction false} NonBlankSpec(ps: seq<string>)
    ensures forall p <- NonBlank(ps) :: p in ps
    ensures forall p <- ps :: Trim(p) != "" ==> p in NonBlank(ps)
    decreases |ps|
  {
    if |ps| > 0 {
      NonBlankSpec(ps[1..]);
      assert ps == [ps[0]] + ps[1..];
    }
  }

  /** The filter distributes over concatenation, so it keeps the pieces in their order. */
  lemma {:induction false} NonBlankAppend(a: seq<string>, b: seq<string>)
    ensures NonBlank(a + b) == NonBlank(a) + NonBlank(b)
    decreases |a|
  {
    if |a| > 0 {
      var t := a[1..];
      var h := if Trim(a[0]) != "" then [a[0]] else [];
      assert NonBlank(a + b) == h + NonBlank(t + b) by {
        assert a + b == [a[0]] + (t + b);
        NonBlankCons(a[0], t + b);
      }
      assert NonBlank(a) == h + NonBlank(t) by {
        assert a == [a[0]] + t;
        NonBlankCons(a[0], t);
      }
      assert NonBlank(t + b) == NonBlank(t) + NonBlank(b) by {
        NonBlankAppend(t, b);
      }
    } else {
      assert a + b == b;
    }
  }

  /** The filter on a piece followed by more pieces. */
  lemma NonBlankCons(p: string, ps: seq<string>)
    ensures NonBlank([p] + ps) == (if Trim(p) != "" then [p] else []) + NonBlank(ps)
  {
    assert ([p] + ps)[0] == p && ([p] + ps)[1..] == ps;
  }

  /** The pieces of the content that are rendered: `content.split('\n\n')` without the blank ones. */
  function Paragraphs(content: string): (r: seq<string>)
    ensures forall i :: 0 <= i < |r| ==> !IsBlank(r[i])
  {
    var r := NonBlank(Split(content, "\n\n"));
    assert forall i :: 0 <= i < |r| ==> !IsBlank(r[i]) by {
      forall i | 0 <= i < |r| ensures !IsBlank(r[i]) { TrimEmptyIffBlank(r[i]); }
    }
    r
  }

  /** The blocks of `ReportContent`, one per rendered piece and in the same order, each built from the trimmed piece. */
  function RenderBlocks(content: string): (r: seq<Block>)
    ensures |r| == |Paragraphs(content)|
    ensures forall i :: 0 <= i < |r| ==> r[i] == BlockOf(Trim(Paragraphs(content)[i]))
  {
    var ps := Paragraphs(content);
    seq(|ps|, i requires 0 <= i < |ps| => BlockOf(Trim(ps[i])))
  }

  /**
   * A heading's level is the length of the leading `#` run, so at least 1, and its
   * text is what follows the run and the white space after it.
   */
  lemma HeadingShape(trimmed: string)
    requires BlockOf(trimmed).Heading?
    ensures var b := BlockOf(trimmed);
      && 1 <= b.level <= |trimmed|
      && (forall i :: 0 <= i < b.level ==> trimmed[i] == '#')
      && (b.level == |trimmed| || trimmed[b.level] != '#')
      && IsBlank(trimmed[b.level..|trimmed| - |b.text|])
      && trimmed == trimmed[..|trimmed| - |b.text|] + b.text
      && (b.text == [] || !IsSpace(b.text[0]))
  {
    assert trimmed[0] == '#';
    TrimAfter(trimmed, HashRun(trimmed));
  }

  /** Trimming the start of what follows index `k` removes white space only, right after `k`. */
  lemma TrimAfter(s: string, k: nat)
    requires k <= |s|
    ensures var text := TrimStart(s[k..]);
      |text| <= |s| - k && IsBlank(s[k..|s| - |text|]) && s == s[..|s| - |text|] + text
  {
    var rest := s[k..];
    var text := TrimStart(rest);
    assert text == rest[|rest| - |text|..] && IsBlank(rest[..|rest| - |text|]) by {
      TrimStartSpec(rest);
    }
    assert s[k..|s| - |text|] == rest[..|rest| - |text|];
    assert s[|s| - |text|..] == text;
  }

  /** A paragraph shows the trimmed piece unchanged, and no paragraph starts with `#`. */
  lemma ParagraphShape(trimmed: string)
    requires BlockOf(trimmed).Paragraph?
    ensures BlockOf(trimmed).text == trimmed
    ensures trimmed == [] || trimmed[0] != '#'
  {
  }

  /** Every rendered paragraph is non-empty and has no white space at either end. */
  lemma RenderedParagraphsTrimmed(content: string, i: nat)
    requires i < |RenderBlocks(content)| && RenderBlocks(content)[i].Paragraph?
    ensures var t := RenderBlocks(content)[i].text;
      t != [] && !IsSpace(t[0]) && !IsSpace(t[|t| - 1])
  {
    var p := Paragraphs(content)[i];
    TrimEmptyIffBlank(p);
    var lo, hi := TrimIsSlice(p);
  }

  /** `Result` sends the reader home while there is no content and the report is not complete. */
  predicate RedirectsHome(content: string, isComplete: bool) {
    content == "" && !isComplete
  }

  /** `Result` shows the loading screen while there is no content. */
  predicate ShowsLoading(content: string) {
    content == ""
  }

  /** A redirect only happens from the loading screen, and a page with content never redirects. */
  lemma RedirectOnlyWhenLoading(content: string, isComplete: bool)
    ensures RedirectsHome(content, isComplete) ==> ShowsLoading(content)
    ensures content != "" ==> !RedirectsHome(content, isComplete)
    ensures isComplete ==> !RedirectsHome(content, isComplete)
  {
  }
}
