/**
 * The chat client (src/api/chat.js): mode selectors, the direct-mode request
 * builder, the line-buffered event-stream parser and the typewriter emitter.
 *
 * A stream is given as its already-decoded text chunks. Parsing one `data:`
 * payload as JSON and reading `choices[0].delta.content` is the function
 * parameter `extract`, which yields `None` when the payload does not parse
 * or carries no content.
 */
module ChatApi {
  import opened Wrappers
  import opened JsText
  import Modes

  /** One message of a request body: `{role, content}`. */
  datatype ApiMessage = ApiMessage(role: string, content: string)

  /**
   * The four texts imported from src/api/prompts.js, which is not part of this
   * model: they are carried as a parameter.
   */
  datatype Prompts = Prompts(
    discoverSelfSystem: string,
    understandOthersSystem: string,
    discoverSelfWelcome: string,
    understandOthersWelcome: string)

  /** `getSystemPrompt`: the understand-others prompt exactly for that mode. */
  function GetSystemPrompt(p: Prompts, mode: string): (r: string)
    ensures mode == Modes.UnderstandOthers ==> r == p.understandOthersSystem
    ensures mode != Modes.UnderstandOthers ==> r == p.discoverSelfSystem
  {
    if mode == Modes.UnderstandOthers then p.understandOthersSystem else p.discoverSelfSystem
  }

  /** `getWelcomeMessage`: the understand-others message exactly for that mode. */
  function GetWelcomeMessage(p: Prompts, mode: string): (r: string)
    ensures mode == Modes.UnderstandOthers ==> r == p.understandOthersWelcome
    ensures mode != Modes.UnderstandOthers ==> r == p.discoverSelfWelcome
  {
    if mode == Modes.UnderstandOthers then p.understandOthersWelcome else p.discoverSelfWelcome
  }

  /** With distinct prompts, the selectors pick the understand-others text if and only if that mode is asked for. */
  lemma SelectorsExact(p: Prompts, mode: string)
    requires p.understandOthersSystem != p.discoverSelfSystem
    requires p.understandOthersWelcome != p.discoverSelfWelcome
    ensures GetSystemPrompt(p, mode) == p.understandOthersSystem <==> mode == Modes.UnderstandOthers
    ensures GetWelcomeMessage(p, mode) == p.understandOthersWelcome <==> mode == Modes.UnderstandOthers
  {
  }

  const MissingKeyError: string := "直连模式需要配置 VITE_API_KEY 环境变量"
  const NoReplyText: string := "抱歉，我暂时无法回应。"

  /**
   * The message list `sendMessageDirect` posts: the system prompt of the mode
   * followed by the transcript, or the missing-key error before any request.
   */
  function DirectRequest(apiKey: string, p: Prompts, mode: string, transcript: seq<ApiMessage>): (r: Result<seq<ApiMessage>>)
    ensures r.Err? <==> apiKey == ""
    ensures r.Err? ==> r.error == MissingKeyError
    ensures r.Ok? ==> (|r.value| == |transcript| + 1
                       && r.value[0] == ApiMessage("system", GetSystemPrompt(p, mode))
                       && r.value[1..] == transcript)
  {
    if apiKey == "" then Err(MissingKeyError)
    else Ok([ApiMessage("system", GetSystemPrompt(p, mode))] + transcript)
  }

  /** The reply of a non-streaming call: the content when it is a non-empty string, else the apology. */
  function PlainReply(content: Option<string>): (r: string)
    ensures r != ""
    ensures content.Some? && content.value != "" ==> r == content.value
    ensures content.None? || content.value == "" ==> r == NoReplyText
  {
    match content
    case Some(c) => if c != "" then c else NoReplyText
    case None => NoReplyText
  }

  /** Which backend `sendMessage` uses. */
  datatype Route = MockRoute | DirectRoute | ProxyRoute

  /** `API_MODE`: the configured mode, `'direct'` when unset or empty. */
  function ApiModeSetting(modeEnv: Option<string>): (r: string)
    ensures r != ""
    ensures modeEnv.Some? && modeEnv.value != "" ==> r == modeEnv.value
    ensures modeEnv.None? || modeEnv.value == "" ==> r == "direct"
  {
    match modeEnv
    case Some(m) => if m != "" then m else "direct"
    case None => "direct"
  }

  /** `getApiMode`: `'mock'` when mock mode is switched on, else the configured mode. */
  function GetApiMode(mockEnv: Option<string>, modeEnv: Option<string>): (r: string)
    ensures mockEnv == Some("true") ==> r == "mock"
    ensures mockEnv != Some("true") ==> r == ApiModeSetting(modeEnv)
  {
    if mockEnv == Some("true") then "mock" else ApiModeSetting(modeEnv)
  }

  /** The branch `sendMessage` takes. */
  function SendRoute(mockEnv: Option<string>, modeEnv: Option<string>): (r: Route)
    ensures r == MockRoute <==> mockEnv == Some("true")
  {
    if mockEnv == Some("true") then MockRoute
    else if ApiModeSetting(modeEnv) == "direct" then DirectRoute
    else ProxyRoute
  }

  /** The reported mode and the branch taken agree: `'direct'` exactly for the direct route, `'mock'` for the mock route. */
  lemma RouteMatchesApiMode(mockEnv: Option<string>, modeEnv: Option<string>)
    ensures SendRoute(mockEnv, modeEnv) == DirectRoute <==> GetApiMode(mockEnv, modeEnv) == "direct"
    ensures SendRoute(mockEnv, modeEnv) == MockRoute ==> GetApiMode(mockEnv, modeEnv) == "mock"
  {
  }

  // ------------------------------------------------------------ event stream

  /**
   * What one complete line of the stream contributes: the delta text of a
   * `data:` line, or nothing for a blank line, another field, `[DONE]`, an
   * empty payload (which `JSON.parse` rejects), a payload that does not parse,
   * or empty content.
   */
  function LineDelta(line: string, extract: string -> Option<string>): (r: Option<string>)
    ensures r.Some? ==> r.value != ""
  {
    var t := Trim(line);
    if t == "" || !StartsWith(t, "data:") then None
    else
      var data := Trim(t[5..]);
      if data == "" || data == "[DONE]" then None
      else
        match extract(data)
        case Some(c) => if c != "" then Some(c) else None
        case None => None
  }

  /**
   * A line contributes exactly when it is a `data:` line whose trimmed payload is
   * neither empty nor `[DONE]` and yields non-empty content; it then contributes
   * that content. Blank lines and lines of other fields contribute nothing.
   */
  lemma LineDeltaExact(line: string, extract: string -> Option<string>)
    ensures var t := Trim(line);
      LineDelta(line, extract).Some? <==>
        (StartsWith(t, "data:") && Trim(t[5..]) !in {"", "[DONE]"}
         && extract(Trim(t[5..])).Some? && extract(Trim(t[5..])).value != "")
    ensures var t := Trim(line);
      LineDelta(line, extract).Some? ==> LineDelta(line, extract) == extract(Trim(t[5..]))
    ensures IsBlank(line) ==> LineDelta(line, extract).None?
  {
    TrimEmptyIffBlank(line);
  }

  /** The concatenation of a sequence of strings, left to right. */
  function Concat(ss: seq<string>): string
    decreases |ss|
  {
    if |ss| == 0 then "" else Concat(ss[..|ss| - 1]) + ss[|ss| - 1]
  }

  /** The non-empty deltas carried by the lines, in order. */
  function Deltas(lines: seq<string>, extract: string -> Option<string>): (r: seq<string>)
    ensures forall d <- r :: d != ""
    ensures |r| <= |lines|
    decreases |lines|
  {
    if |lines| == 0 then []
    else
      var init := Deltas(lines[..|lines| - 1], extract);
      match LineDelta(lines[|lines| - 1], extract)
      case Some(d) => init + [d]
      case None => init
  }

  /** The running totals of the deltas: the successive `fullContent` values. */
  function Cumulative(ds: seq<string>): (r: seq<string>)
    ensures |r| == |ds|
    ensures forall i :: 0 <= i < |ds| ==> r[i] == Concat(ds[..i + 1])
    decreases |ds|
  {
    if |ds| == 0 then []
    else
      var init := Cumulative(ds[..|ds| - 1]);
      assert forall i :: 0 <= i < |ds| - 1 ==> init[i] == Concat(ds[..i + 1]) by {
        forall i | 0 <= i < |ds| - 1 ensures init[i] == Concat(ds[..i + 1]) {
          assert ds[..|ds| - 1][..i + 1] == ds[..i + 1];
        }
      }
      assert ds[..|ds|] == ds;
      init + [Concat(ds)]
  }

  /** The complete lines of the stream, with the unterminated rest as the last one. */
  function StreamLines(chunks: seq<string>): (r: seq<string>)
    ensures |r| >= 1
  {
    Split(Concat(chunks), "\n")
  }

  /** The text a stream decodes to: the concatenation of the deltas of all its lines. */
  function StreamText(chunks: seq<string>, extract: string -> Option<string>): string {
    Concat(Deltas(StreamLines(chunks), extract))
  }

  /** The totals handed to `onStream` while the stream is decoded. */
  function StreamUpdates(chunks: seq<string>, extract: string -> Option<string>): seq<string> {
    Cumulative(Deltas(StreamLines(chunks), extract))
  }

  /** Each running total strictly extends the previous one when no delta is empty. */
  lemma {:induction false} CumulativeExtends(ds: seq<string>, i: nat)
    requires forall d <- ds :: d != ""
    requires 0 < i < |ds|
    ensures Cumulative(ds)[i] == Cumulative(ds)[i - 1] + ds[i]
    ensures |Cumulative(ds)[i - 1]| < |Cumulative(ds)[i]|
  {
    var c := Cumulative(ds);
    assert ds[..i + 1][..i] == ds[..i];
    assert ds[i] in ds;
  }

  /** The last running total is the whole text, and there is none exactly when the text is empty. */
  lemma {:induction false} CumulativeLast(ds: seq<string>)
    requires forall d <- ds :: d != ""
    ensures |ds| > 0 ==> Cumulative(ds)[|ds| - 1] == Concat(ds)
    ensures |ds| == 0 <==> Concat(ds) == ""
    decreases |ds|
  {
    if |ds| > 0 {
      assert ds[..|ds|] == ds;
      assert ds[|ds| - 1] in ds;
      assert |Concat(ds)| >= |ds[|ds| - 1]| > 0;
    }
  }

  /** Splitting a stream's text between chunks does not change what it decodes to. */
  lemma RechunkingInvariant(a: seq<string>, b: seq<string>, extract: string -> Option<string>)
    requires Concat(a) == Concat(b)
    ensures StreamText(a, extract) == StreamText(b, extract)
    ensures StreamUpdates(a, extract) == StreamUpdates(b, extract)
  {
  }

  /** The lines after one more chunk: the finished lines so far, then the pieces of the buffer continued by the chunk. */
  lemma StreamLinesStep(chunks: seq<string>, n: nat, done: seq<string>, buffer: string)
    requires n < |chunks|
    requires Split(Concat(chunks[..n]), "\n") == done + [buffer]
    ensures var pieces := Split(buffer + chunks[n], "\n");
      Split(Concat(chunks[..n + 1]), "\n") == (done + pieces[..|pieces| - 1]) + [pieces[|pieces| - 1]]
  {
    assert Concat(chunks[..n + 1]) == Concat(chunks[..n]) + chunks[n] by {
      assert chunks[..n + 1][..n] == chunks[..n];
    }
    LinesAfterChunk(Concat(chunks[..n]), chunks[n], done, buffer);
  }

  /** Text split into finished lines and a buffer, continued by a chunk. */
  lemma LinesAfterChunk(text: string, chunk: string, done: seq<string>, buffer: string)
    requires Split(text, "\n") == done + [buffer]
    ensures var pieces := Split(buffer + chunk, "\n");
      Split(text + chunk, "\n") == (done + pieces[..|pieces| - 1]) + [pieces[|pieces| - 1]]
  {
    var pieces := Split(buffer + chunk, "\n");
    assert Split(text + chunk, "\n") == done + pieces by {
      SplitOneCharConcat(text, chunk, "\n");
      InitLast(done, buffer);
    }
    AppendInitLast(done, pieces);
  }

  /** The last element of `ps + [x]` is `x` and the ones before it are `ps`. */
  lemma InitLast<T>(ps: seq<T>, x: T)
    ensures (ps + [x])[..|ps|] == ps && (ps + [x])[|ps|] == x
  {
  }

  /** Appending a non-empty sequence is appending its prefix and then its last element. */
  lemma AppendInitLast<T>(ps: seq<T>, qs: seq<T>)
    requires |qs| >= 1
    ensures ps + qs == (ps + qs[..|qs| - 1]) + [qs[|qs| - 1]]
  {
    assert qs == qs[..|qs| - 1] + [qs[|qs| - 1]];
  }

  /** One more line extends the deltas by its own contribution. */
  lemma DeltasSnoc(lines: seq<string>, line: string, extract: string -> Option<string>)
    ensures LineDelta(line, extract).None? ==> Deltas(lines + [line], extract) == Deltas(lines, extract)
    ensures LineDelta(line, extract).Some? ==>
      Deltas(lines + [line], extract) == Deltas(lines, extract) + [LineDelta(line, extract).value]
  {
    assert (lines + [line])[..|lines|] == lines;
  }

  /** One more delta extends the text by it and adds the new text as the last running total. */
  lemma CumulativeSnoc(ds: seq<string>, d: string)
    ensures Concat(ds + [d]) == Concat(ds) + d
    ensures Cumulative(ds + [d]) == Cumulative(ds) + [Concat(ds) + d]
  {
    assert (ds + [d])[..|ds|] == ds;
  }

  /** Handles one complete line as the loop body of `handleStreamResponse` does. */
  method HandleLine(line: string, extract: string -> Option<string>) returns (delta: Option<string>)
    ensures delta == LineDelta(line, extract)
  {
    delta := None;
    var trimmed := Trim(line);
    if trimmed != "" && StartsWith(trimmed, "data:") {
      var data := Trim(trimmed[5..]);
      if data != "" && data != "[DONE]" {
        var content := extract(data);
        if content.Some? && content.value != "" {
          delta := content;
        }
      }
    }
  }

  /** The deltas of the first `j + 1` lines after `ds0`: those of the first `j`, then what line `j` contributes. */
  lemma DeltasStep(ds0: seq<string>, lines: seq<string>, j: nat, extract: string -> Option<string>)
    requires j < |lines|
    ensures LineDelta(lines[j], extract).None? ==>
      ds0 + Deltas(lines[..j + 1], extract) == ds0 + Deltas(lines[..j], extract)
    ensures LineDelta(lines[j], extract).Some? ==>
      ds0 + Deltas(lines[..j + 1], extract) == (ds0 + Deltas(lines[..j], extract)) + [LineDelta(lines[j], extract).value]
  {
    assert lines[..j + 1] == lines[..j] + [lines[j]];
    DeltasSnoc(lines[..j], lines[j], extract);
  }

  /** The deltas of two runs of lines are those of the first followed by those of the second. */
  lemma {:induction false} DeltasAppend(a: seq<string>, b: seq<string>, extract: string -> Option<string>)
    ensures Deltas(a + b, extract) == Deltas(a, extract) + Deltas(b, extract)
    decreases |b|
  {
    if |b| > 0 {
      var b', l := b[..|b| - 1], b[|b| - 1];
      assert b == b' + [l];
      assert a + b == (a + b') + [l];
      DeltasAppend(a, b', extract);
      DeltasSnoc(a + b', l, extract);
      DeltasSnoc(b', l, extract);
    } else {
      assert a + b == a;
    }
  }

  /**
   * The inner `for` loop of `handleStreamResponse`: handles complete lines one
   * after another, extending the text and reporting each new total.
   */
  method HandleLines(lines: seq<string>, extract: string -> Option<string>, ghost ds0: seq<string>,
                     full0: string, calls0: seq<string>) returns (full: string, calls: seq<string>)
    requires full0 == Concat(ds0) && calls0 == Cumulative(ds0)
    ensures full == Concat(ds0 + Deltas(lines, extract))
    ensures calls == Cumulative(ds0 + Deltas(lines, extract))
  {
    full, calls := full0, calls0;
    var j := 0;
    ghost var ds := ds0;
    assert ds0 + Deltas(lines[..0], extract) == ds0;
    while j < |lines|
      invariant j <= |lines|
      invariant ds == ds0 + Deltas(lines[..j], extract)
      invariant full == Concat(ds) && calls == Cumulative(ds)
    {
      DeltasStep(ds0, lines, j, extract);
      var delta := HandleLine(lines[j], extract);
      if delta.Some? {
        var d := delta.value;
        assert Concat(ds + [d]) == Concat(ds) + d && Cumulative(ds + [d]) == Cumulative(ds) + [Concat(ds) + d] by {
          CumulativeSnoc(ds, d);
        }
        full := full + d;
        calls := calls + [full];
        ds := ds + [d];
      }
      j := j + 1;
    }
    assert lines[..|lines|] == lines;
  }

  /**
   * `handleStreamResponse`: reads the chunks into a line buffer, handles every
   * complete line as it arrives and the unterminated rest after the last chunk.
   * `calls` are the arguments of the `onStream` callback, in order.
   */
  method HandleStream(chunks: seq<string>, extract: string -> Option<string>) returns (full: string, calls: seq<string>)
    ensures full == StreamText(chunks, extract)
    ensures calls == StreamUpdates(chunks, extract)
  {
    full := "";
    calls := [];
    var buffer := "";
    ghost var done: seq<string> := [];
    var n := 0;
    while n < |chunks|
      invariant n <= |chunks|
      invariant Split(Concat(chunks[..n]), "\n") == done + [buffer]
      invariant full == Concat(Deltas(done, extract))
      invariant calls == Cumulative(Deltas(done, extract))
    {
      done, buffer, full, calls := ReadChunk(chunks, n, extract, done, buffer, full, calls);
      n := n + 1;
    }
    assert StreamLines(chunks) == done + [buffer] by {
      assert chunks[..|chunks|] == chunks;
    }
    assert Deltas(done + [buffer], extract) == Deltas(done, extract) + Deltas([buffer], extract) by {
      DeltasAppend(done, [buffer], extract);
    }
    full, calls := HandleLines([buffer], extract, Deltas(done, extract), full, calls);
  }

  /**
   * One turn of the `while` loop of `handleStreamResponse`: appends chunk `n`
   * to the buffer, handles the lines it completes and keeps the unterminated rest.
   */
  method ReadChunk(chunks: seq<string>, n: nat, extract: string -> Option<string>, ghost done: seq<string>,
                   buffer: string, full: string, calls: seq<string>)
    returns (ghost done': seq<string>, buffer': string, full': string, calls': seq<string>)
    requires n < |chunks|
    requires Split(Concat(chunks[..n]), "\n") == done + [buffer]
    requires full == Concat(Deltas(done, extract)) && calls == Cumulative(Deltas(done, extract))
    ensures Split(Concat(chunks[..n + 1]), "\n") == done' + [buffer']
    ensures full' == Concat(Deltas(done', extract)) && calls' == Cumulative(Deltas(done', extract))
  {
    var text := buffer + chunks[n];
    var lines := Split(text, "\n");
    assert Split(Concat(chunks[..n + 1]), "\n") == (done + lines[..|lines| - 1]) + [lines[|lines| - 1]] by {
      StreamLinesStep(chunks, n, done, buffer);
    }
    buffer' := lines[|lines| - 1];
    lines := lines[..|lines| - 1];
    assert Deltas(done + lines, extract) == Deltas(done, extract) + Deltas(lines, extract) by {
      DeltasAppend(done, lines, extract);
    }
    full', calls' := HandleLines(lines, extract, Deltas(done, extract), full, calls);
    done' := done + lines;
  }

  /** The running totals of a stream grow strictly, and the last one is the whole text. */
  lemma StreamFacts(chunks: seq<string>, extract: string -> Option<string>)
    ensures var calls, full := StreamUpdates(chunks, extract), StreamText(chunks, extract);
      && (|calls| == 0 ==> full == "")
      && (|calls| > 0 ==> calls[|calls| - 1] == full)
      && (forall i :: 0 < i < |calls| ==> |calls[i - 1]| < |calls[i]| && StartsWith(calls[i], calls[i - 1]))
  {
    var ds := Deltas(StreamLines(chunks), extract);
    CumulativeLast(ds);
    forall i | 0 < i < |ds| ensures |Cumulative(ds)[i - 1]| < |Cumulative(ds)[i]| && StartsWith(Cumulative(ds)[i], Cumulative(ds)[i - 1]) {
      CumulativeExtends(ds, i);
      var c := Cumulative(ds);
      assert c[i][..|c[i - 1]|] == c[i - 1];
    }
  }

  // -------------------------------------------------------------- typewriter

  /**
   * `typewriterEffect`: one tick per character, each emitting the next longer
   * prefix; the empty text still emits itself once. Resolves with the text.
   */
  method Typewriter(text: string) returns (updates: seq<string>, result: string)
    ensures result == text
    ensures |updates| == if |text| == 0 then 1 else |text|
    ensures forall i :: 0 <= i < |updates| ==> updates[i] == Take(text, i + 1)
    ensures updates[|updates| - 1] == text
  {
    var index := 1;
    updates := [Take(text, 1)];
    while index < |text|
      invariant 1 <= index && (index <= |text| || |text| == 0)
      invariant |text| == 0 ==> index == 1
      invariant |updates| == index
      invariant forall i :: 0 <= i < index ==> updates[i] == Take(text, i + 1)
    {
      index := index + 1;
      updates := updates + [Take(text, index)];
    }
    result := text;
  }
}
