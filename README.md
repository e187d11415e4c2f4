# know-yourself, modelled in Dafny

know-yourself is a single-page web application. A visitor talks with an AI guide ("Dora") for about ten rounds, either to discover themselves or to understand another person. The guide then writes an "Inner Book" report. The report streams into the chat, moves to a report page and can be shared.

This project models the application's logic in Dafny and proves what that logic guarantees. It covers:

- **The chat round** of the `useChat` hook. The user message and a loading placeholder are appended. Cumulative stream updates are applied to the placeholder. The round then succeeds or rolls back. Report detection is sticky, and every callback fired is recorded.
- **The chat client**: the line-buffered event-stream decoder, the typewriter emitter, the mode selectors, the direct-mode request builder and the API-mode switch.
- **Report state**: the report record shared by the chat and result pages, its four transitions, and the case-insensitive `[Report]` prefix strip.
- **Report access**: the report-detail cache with its five-second lifetime, the row normaliser, and the invite-code call.
- **The offline replier**: it picks a mock reply by the number of user messages.
- **Text transforms**: the result page's block splitter and heading classifier, the share page's teaser, and the report-title formatter.
- **Lookups**: the pending-report lookup and progress counter of the chat page, the mode tables and the welcome messages.
- **Forms and small state**: the sign-in and registration forms with their validators and sanitisers, and the invite-code dialog.
- **Small lists**: the scroll throttle, the toast list and the chat-history normalisation.

The model has one module per source file, plus shared modules:

- `Wrappers`: `Option`, `Result`, and `Field` for a property that may be missing, `null`, or hold a value.
- `JsText`: the JavaScript string operations the code relies on, such as `trim`, `split`, `replace` with character classes, `padStart` and `URLSearchParams.get`.
- `Json`: `JSON.stringify` on strings, used by the cache key.
- `ReactContext`: the provider guard shared by `useReport` and `useToast`.
- `AuthReply`: how the account SDK's answers are read.
- `EndToEnd`: the offline report path across modules.

Where the source updates state in place, the model is a class whose methods change exactly the fields the source changes. Examples are the chat session, the report record, the detail cache, the forms, the throttle, the toast provider and the history page. Loops are methods with invariants, proved against specification functions: the stream decoder against `StreamText`/`StreamUpdates`, and the typewriter against `Take`. Pure code is functions and lemmas.

Strings are sequences of Unicode scalar values. The clock, the network, the SDKs, `localStorage`, JSON parsing and `encodeURIComponent` are parameters:

- clock readings are inputs;
- network and SDK calls are given as their outcomes;
- JSON parsing is an uninterpreted function that returns `None` when parsing fails.

## Model

| member | source | states |
|---|---|---|
| UseChat.ChatSession.constructor | src/hooks/useChat.js:13-15 | The hook starts with no messages, not loading, the report flag clear and no callbacks fired. |
| UseChat.ChatSession.Send | src/hooks/useChat.js:18-48 | Corrected hook: the `mode` option is passed on (see Findings). Blank input, or any input while loading, sends nothing and changes nothing. Otherwise exactly two messages are appended behind the old ones: the user message (role user, status local, untrimmed text) and an empty loading assistant placeholder. The placeholder's id is greater than the user id. Loading is set and the report flag is reset. The request is the old messages plus the user message, mapped to role and content, never the placeholder, and carries `RequestMode(mode)`. Unique ids are kept when the clock is past every earlier id. |
| UseChat.ChatSession.SendAsWritten | src/hooks/useChat.js:12-48 | As written: the same state change as `Send`, but the request always carries discover-self, whatever `mode` option the page passed. |
| UseChat.ChatSession.StreamUpdate | src/hooks/useChat.js:51-68 | One `onStream` call. The sticky flag becomes `Detect(old flag, text)`. The callbacks fired are appended (start only on the first tagged text; update whenever the round is a report). The placeholder takes the text and stays loading. Loading and the id are unchanged. |
| UseChat.ChatSession.Succeed | src/hooks/useChat.js:71-86 | The placeholder becomes successful with its content kept. `onReportComplete` fires exactly when the round was classified as a report. Loading ends. |
| UseChat.ChatSession.Fail | src/hooks/useChat.js:82-87 | The messages with the placeholder's id are removed and no callback fires. Loading ends. |
| UseChat.ChatSession.Clear | src/hooks/useChat.js:91-93 | Only the message list is emptied. |
| UseChat.ChatSession.StreamAll | src/hooks/useChat.js:51-68 | All updates of a round, in order from the reset flag. The flag ends as `StartedAfter(updates)` and the callbacks recorded are `RoundTrace(updates)`. With unique ids, the earlier messages are untouched and the placeholder shows the last text (or stays empty), still loading. |
| UseChat.ChatSession.SendUserMessage | src/hooks/useChat.js:18-88 | A whole round of the corrected hook, built on `Send`. Rejected input changes nothing. Otherwise loading ends false and the callbacks are exactly `RoundEvents(updates, resolved)`. With unique ids and a clock past every earlier id, the earlier messages and the user message stay. The placeholder survives only on success, marked successful with the last streamed text. |
| UseChat.ToApi | src/hooks/useChat.js:45-48 | The transcript has one `{role, content}` per message, index by index. |
| UseChat.SetContent | src/hooks/useChat.js:63-67 | A stream update maps over the list, so no message is added or dropped. |
| UseChat.MarkSuccess | src/hooks/useChat.js:71-75 | Completion maps over the list, so no message is added or dropped. |
| UseChat.SetContentOnly | src/hooks/useChat.js:63-67 | With unique ids, a stream update changes the one message with that id (new content, status loading) and nothing else. |
| UseChat.MarkSuccessOnly | src/hooks/useChat.js:71-75 | With unique ids, completion changes only that message's status, to success. |
| UseChat.SetContentOverwrites | src/hooks/useChat.js:63-67 | A later stream update overwrites an earlier one. |
| UseChat.RemoveId | src/hooks/useChat.js:84 | The filter keeps a message if and only if it was there with another id. |
| UseChat.RemoveIdAbsent | src/hooks/useChat.js:84 | Removing an id no message carries changes nothing. |
| UseChat.RemoveIdLast | src/hooks/useChat.js:84 | Removing the id of a freshly appended last message restores the list before it. |
| UseChat.Detect | src/hooks/useChat.js:53-54 | Definition: the sticky report flag after one update, set once an update starts with `[Report]`. Its properties are proved in `UseChat.StartedAfterIffTagged` and `UseChat.TraceSnoc`. |
| UseChat.StepEvents | src/hooks/useChat.js:53-61 | Definition: the callbacks one update fires. They are the start on the first tagged update, then an update whenever the flag is set. Its properties are proved in `UseChat.TraceStepStarts` and `UseChat.TraceStepForwards`. |
| UseChat.StartedAfter | src/hooks/useChat.js:53-54 | Definition: the flag after a round's updates, starting from the reset value. `UseChat.StartedAfterIffTagged` proves it set exactly when some update is tagged. |
| UseChat.RoundTrace | src/hooks/useChat.js:53-61 | Definition: a round's callbacks, step by step. Its closed form is proved in `UseChat.RoundTraceShape`. |
| UseChat.RoundEvents | src/hooks/useChat.js:53-80 | Definition: the round's trace, then `onReportComplete` when the round succeeded as a report. Its properties are proved in `UseChat.CompleteOnlyForReports`. |
| UseChat.FirstReport | src/hooks/useChat.js:53 | The first update that starts with `[Report]` (case-sensitive): none exactly when no update is tagged, and no earlier update is tagged. |
| UseChat.StartedAfterIffTagged | src/hooks/useChat.js:53-54 | The sticky flag ends set if and only if some update of the round carried the tag. |
| UseChat.FirstReportIs | src/hooks/useChat.js:53 | The first tagged index is fixed by its defining properties. |
| UseChat.Forwarded | src/hooks/useChat.js:59-61 | One `onReportUpdate` per update, with that update's text, in order. |
| UseChat.RoundTraceShape | src/hooks/useChat.js:53-61 | A round's callbacks in closed form. There are none when no update is tagged. Otherwise `onReportStart` comes once, then `onReportUpdate` for the first tagged update and every later one, in order. |
| UseChat.TraceSnoc | src/hooks/useChat.js:53-61 | One more update extends the trace by the callbacks that step fires and advances the flag by `Detect`. |
| UseChat.TraceStepForwards | src/hooks/useChat.js:59-61 | Once a round is a report, each further update is forwarded, tagged or not. |
| UseChat.ForwardedSnoc | src/hooks/useChat.js:59-61 | Forwarding one more update appends its `onReportUpdate`. |
| UseChat.TraceStepStarts | src/hooks/useChat.js:53-56 | The first tagged update fires the start and is itself forwarded. |
| UseChat.ReportStartAtMostOnce | src/hooks/useChat.js:53-56 | `onReportStart` fires at most once per round, and only as the first callback. |
| UseChat.CompleteOnlyForReports | src/hooks/useChat.js:78-80 | `onReportComplete` fires if and only if the round resolved and some update was tagged, and then it is the last callback. |
| UseChat.RequestMode | src/hooks/useChat.js:51 | The mode a corrected hook hands to `sendMessage`: its `mode` option when given, else the discover-self default. |
| UseChat.RequestModeAsWritten | src/hooks/useChat.js:12 | As written, the hook never reads `mode`, so every request uses discover-self. |
| UseChat.UnderstandOthersPromptLost | src/hooks/useChat.js:12 | As written, every chat is sent the discover-self system prompt in direct mode, whatever the `mode` option. For an understand-others chat that is not the chat's own prompt. |
| UseChat.ModeReachesPrompt | src/hooks/useChat.js:51 | Passing the option on, the direct request's system prompt is the one of the page's mode. |
| UseChat.SendAsWrittenLosesPrompt | src/hooks/useChat.js:12-51 | For a session with any `mode` option, an accepted request from the as-written hook is answered with the discover-self system prompt in direct mode. In an understand-others session that differs from the session's own prompt. |
| ChatApi.GetSystemPrompt | src/api/chat.js:24-28 | The understand-others prompt for that mode, the discover-self prompt for every other value. |
| ChatApi.GetWelcomeMessage | src/api/chat.js:31-35 | The understand-others welcome for that mode, the discover-self welcome for every other value. |
| ChatApi.SelectorsExact | src/api/chat.js:24-35 | With distinct texts, both selectors give the understand-others variant if and only if the mode is exactly `understand-others`. |
| ChatApi.DirectRequest | src/api/chat.js:127-142 | Without an API key, the missing-key error and no request. Otherwise one system message with the mode's prompt, followed by the transcript unchanged. |
| ChatApi.PlainReply | src/api/chat.js:169-170 | A non-streaming reply is the content when it is non-empty, else the fixed apology. It is never empty. |
| ChatApi.ApiModeSetting | src/api/chat.js:47 | The configured API mode, `direct` when it is unset or empty. |
| ChatApi.GetApiMode | src/api/chat.js:319-322 | `mock` when mock mode is switched on, else the configured API mode. |
| ChatApi.SendRoute | src/api/chat.js:245-261 | `sendMessage` takes the mock route exactly when mock mode is on. |
| ChatApi.RouteMatchesApiMode | src/api/chat.js:245-261 | The reported API mode is `direct` exactly when the direct route is taken, and `mock` on the mock route. |
| ChatApi.LineDelta | src/api/chat.js:193-209 | What one complete line contributes. When it contributes, the delta is non-empty. |
| ChatApi.LineDeltaExact | src/api/chat.js:194-209 | A line contributes if and only if it is a `data:` line whose trimmed payload is neither empty nor `[DONE]` and yields non-empty content; it then contributes that content. Blank lines contribute nothing. |
| ChatApi.Deltas | src/api/chat.js:193-210 | The deltas of the lines are non-empty and at most one per line. |
| ChatApi.Cumulative | src/api/chat.js:203-206 | The i-th running total is the concatenation of the first i+1 deltas. |
| ChatApi.StreamLines | src/api/chat.js:188-191 | The lines of a stream are the pieces of its text between newlines. There is at least one: the unterminated rest. |
| ChatApi.CumulativeExtends | src/api/chat.js:203-206 | Each `onStream` argument is the previous one extended by a non-empty delta, so strictly longer. |
| ChatApi.CumulativeLast | src/api/chat.js:233 | The last running total is the whole text, and there is none exactly when the text is empty. |
| ChatApi.RechunkingInvariant | src/api/chat.js:184-191 | How the text is cut into chunks changes neither the returned text nor the callback arguments. |
| ChatApi.StreamLinesStep | src/api/chat.js:188-191 | After one more chunk, the finished lines are the old ones plus all but the last piece of buffer+chunk; that last piece is the new buffer. |
| ChatApi.LinesAfterChunk | src/api/chat.js:188-191 | Text split into finished lines and a buffer, continued by a chunk, splits as those lines followed by the pieces of buffer+chunk. |
| ChatApi.DeltasSnoc | src/api/chat.js:193-210 | One more line adds exactly its own contribution to the deltas. |
| ChatApi.CumulativeSnoc | src/api/chat.js:204-205 | One more delta extends the text by it and adds the new text as the last callback argument. |
| ChatApi.DeltasStep | src/api/chat.js:193-210 | The deltas of the first j+1 lines are those of the first j plus what line j contributes. |
| ChatApi.DeltasAppend | src/api/chat.js:213-231 | The deltas of two runs of lines are those of the first followed by those of the second, so the buffer left at the end is handled like any line. |
| ChatApi.HandleLine | src/api/chat.js:194-209 | The body of the inner loop computes `LineDelta`. |
| ChatApi.HandleLines | src/api/chat.js:193-210 | The inner `for` loop extends the text by the lines' deltas and reports each new total, in line order. |
| ChatApi.ReadChunk | src/api/chat.js:185-211 | One turn of the read loop keeps the invariant: finished lines plus buffer split the text read so far, and the text and callbacks are those of the finished lines. |
| ChatApi.HandleStream | src/api/chat.js:178-234 | `handleStreamResponse` returns `StreamText(chunks)` (the concatenated non-empty deltas of every line, including a final unterminated one). The `onStream` arguments are `StreamUpdates(chunks)`. |
| ChatApi.StreamFacts | src/api/chat.js:203-233 | The callback arguments grow strictly, each extending the previous one, so no text repeats. The last argument is the returned text, which is empty when there were no calls. |
| ChatApi.Concat | src/api/chat.js:203-204 | Definition: left-to-right concatenation, the `fullContent += content` accumulation. Its step laws are used in `ChatApi.CumulativeSnoc` and `ChatApi.HandleLines`. |
| ChatApi.StreamText | src/api/chat.js:178-234 | Definition: the reference for what `handleStreamResponse` returns, the concatenated deltas of the split stream. `ChatApi.HandleStream` is proved to return it, and `ChatApi.RechunkingInvariant` proves it independent of chunk boundaries. |
| ChatApi.StreamUpdates | src/api/chat.js:203-205 | Definition: the reference for the `onStream` arguments, the running totals of the deltas. `ChatApi.HandleStream` is proved to produce them, and `ChatApi.StreamFacts` proves them strictly growing, ending at the returned text. |
| ChatApi.Typewriter | src/api/chat.js:70-82 | `typewriterEffect` emits the prefixes of length 1, 2, … up to the whole text (the empty text once), then resolves with the text. |
| ReportState.HasSentinelPrefix | src/contexts/ReportContext.jsx:24 | Definition: the `/^\[Report\]/i` test, the first eight characters equal to `[Report]` up to ASCII letter case. `ReportState.StripReportPrefix` and `ReportState.StripReportPrefixSplits` state what follows from it. |
| ReportState.StripReportPrefix | src/contexts/ReportContext.jsx:24 | Text that starts with `[Report]` in any ASCII letter case loses it and the white space after it. Any other text is unchanged. |
| ReportState.StripReportPrefixSplits | src/contexts/ReportContext.jsx:24 | What the strip removes is a case variant of the sentinel followed by white space only. What it keeps is the rest, starting with a non-space. |
| ReportState.StripKeepsPlainText | src/contexts/ReportContext.jsx:24 | Text that does not start with `[` is stored unchanged. |
| ReportState.StripTagged | src/contexts/ReportContext.jsx:24 | Stripping the sentinel followed by a body that starts with a non-space gives the body back. |
| ReportState.ReportState.constructor | src/contexts/ReportContext.jsx:6-10 | The initial record: no content, neither generating nor complete. |
| ReportState.ReportState.StartReport | src/contexts/ReportContext.jsx:13-19 | Content empty, generating, not complete, whatever came before. |
| ReportState.ReportState.UpdateReportContent | src/contexts/ReportContext.jsx:22-29 | The content becomes the stripped text and both flags are kept. |
| ReportState.ReportState.CompleteReport | src/contexts/ReportContext.jsx:32-38 | Not generating, complete, content kept. |
| ReportState.ReportState.CompleteReportIdempotent | src/contexts/ReportContext.jsx:32-38 | Completing twice ends in the same state as completing once. |
| ReportState.ReportState.ResetReport | src/contexts/ReportContext.jsx:41-47 | Back to the initial record. |
| ReportState.UseReport | src/contexts/ReportContext.jsx:62-68 | The provider's value, or the `useReport` error exactly when there is no provider. |
| ReactContext.UseContext | src/contexts/ReportContext.jsx:62-68 | A context hook succeeds exactly when a provider is present, returning its value. Otherwise it fails with the hook's message. |
| ReportApi.VerifyInviteCode | src/api/report.js:10-24 | Without an app, the not-initialised error. Otherwise exactly one `invite-code` call with action `consume` and the given report id and code. |
| ReportApi.TextOrEmpty | src/api/report.js:109 | A text column with a value keeps it; a missing or null one gives the empty string. |
| ReportApi.Normalize | src/api/report.js:107-117 | content, subTitle and inviteCode default to the empty string. Status and username are copied. A missing lock becomes 1. The detail is locked if and only if its lock is 1, and completed if and only if the row's status is 1. |
| ReportApi.NormalizeDefaultsLocked | src/api/report.js:113-116 | A detail's lock is never missing. A row without a lock reads as locked; a null lock reads as unlocked. |
| ReportApi.DetailCacheKey | src/api/report.js:33-35 | The key starts with the `report_detail` table name and continues with the serialised params. It depends on the report id alone, not on the database handle. |
| ReportApi.DetailCacheKeyInjective | src/api/report.js:33-35 | Different report ids never share a cache entry. |
| ReportApi.DetailCache.constructor | src/api/report.js:28 | The cache starts empty. |
| ReportApi.DetailCache.GetCachedData | src/api/report.js:40-51 | A missing key gives null and leaves the cache. An entry at most 5000 ms old gives its data and leaves the cache. An older entry is deleted and gives null. |
| ReportApi.DetailCache.SetCachedData | src/api/report.js:56-61 | The key's entry is replaced by the data stamped with the current time; other keys are untouched. |
| ReportApi.DetailCache.SetThenGet | src/api/report.js:40-61 | A stored detail is read back by any lookup within 5000 ms, and a later lookup deletes it. |
| ReportApi.DetailCache.GetReportDetail | src/api/report.js:67-127 | A missing report id or database gives null and touches neither cache nor database. Otherwise `skipCache` deletes the entry and always queries, and without it a fresh entry is returned without a query. A query error is rethrown; no row gives null uncached; the first row is normalised, cached and returned. |
| Json.HexDigit | src/api/report.js:34 | The lower-case hexadecimal digit of a value below 16. |
| Json.EscapeChar | src/api/report.js:34 | One character is written as itself (only when it needs no escape), as a two-character short escape, or as a six-character `\u00xx` escape. |
| Json.Escape | src/api/report.js:34 | Escaping never shortens a string. |
| Json.Quote | src/api/report.js:34 | `JSON.stringify` of a string is quoted at both ends. |
| Json.EscapeCharInjective | src/api/report.js:34 | Different characters have different escapes. |
| Json.EscapeCharPrefixFree | src/api/report.js:34 | No character's escape is a proper prefix of another's. |
| Json.EscapeInjective | src/api/report.js:34 | Different strings have different escaped bodies. |
| Json.QuoteInjective | src/api/report.js:34 | `JSON.stringify` is injective on strings. |
| Json.EscapePlain | src/api/report.js:34 | A string without quotes, backslashes or control characters is written as itself. |
| MockData.UserMessages | src/api/mockData.js:105 | The filter keeps only user messages, all taken from the history. |
| MockData.RoundIndex | src/api/mockData.js:105-106 | The round index is at most the history length. |
| MockData.RoundIndexSnoc | src/api/mockData.js:105-106 | One more message raises the index by one exactly when the user wrote it, so the index counts the user messages. |
| MockData.RoundIndexBounds | src/api/mockData.js:105-106 | A history without user messages is round 0. One made only of user messages is round \|history\|. |
| MockData.MockReply | src/api/mockData.js:109-111 | For an index below 6 the reply is `MOCK_RESPONSES[index]`; from 6 on it is the final report. It is never empty. |
| MockData.SentinelOnlyInReport | src/api/mockData.js:109-111 | A reply starts with `[Report]` exactly when it is the final report, that is from round 6 on. |
| MockData.MockSendMessage | src/api/mockData.js:103-122 | It returns the reply of the history's round. With a stream callback it emits the prefixes of length 1..n of the reply, the last being the whole reply; without one, nothing. |
| ReportView.HashRun | src/pages/report/Result.jsx:112 | The length of the leading run of `#`: everything before it is `#` and the next character is not. |
| ReportView.BlockOf | src/pages/report/Result.jsx:111-113 | A trimmed piece is a heading exactly when it starts with `#`. |
| ReportView.FontSize | src/pages/report/Result.jsx:114 | Level 1 gives `text-2xl`, level 2 `text-xl`, any other level `text-lg`. |
| ReportView.NonBlank | src/pages/report/Result.jsx:103 | The filter keeps only pieces that are not white space only. |
| ReportView.NonBlankSpec | src/pages/report/Result.jsx:103 | A piece is kept if and only if it was there and is not white space only. |
| ReportView.NonBlankAppend | src/pages/report/Result.jsx:103 | The filter distributes over concatenation, so kept pieces stay in their original order. |
| ReportView.Paragraphs | src/pages/report/Result.jsx:103 | No rendered piece is blank. |
| ReportView.RenderBlocks | src/pages/report/Result.jsx:107-145 | One block per rendered piece, in order, each built from the trimmed piece. |
| ReportView.HeadingShape | src/pages/report/Result.jsx:111-113 | A heading's level is the length of the leading `#` run, so at least 1. Its text is what follows that run and the white space after it. |
| ReportView.ParagraphShape | src/pages/report/Result.jsx:130-143 | A paragraph shows the trimmed piece unchanged, which never starts with `#`. |
| ReportView.RenderedParagraphsTrimmed | src/pages/report/Result.jsx:108 | Every rendered paragraph is non-empty with no white space at either end. |
| ReportView.RedirectOnlyWhenLoading | src/pages/report/Result.jsx:158-174 | The page redirects home only while content is empty and the report is incomplete, so only from the loading screen. |
| ReportView.RedirectsHome | src/pages/report/Result.jsx:159 | Definition: no content and not complete. |
| ReportView.ShowsLoading | src/pages/report/Result.jsx:165 | Definition: no content. |
| ShareLanding.CleanText | src/pages/share/shareLanding.jsx:66 | The cleaned text has none of `#*>[]` and no newline. |
| ShareLanding.ExtractDescription | src/pages/share/shareLanding.jsx:63-68 | Missing or empty text gives the default description. Otherwise the first min(200, n) characters of the cleaned text, always followed by `...`. |
| ShareLanding.TeaserShape | src/pages/share/shareLanding.jsx:66-67 | A teaser is 3..203 characters, ends with `...`, and before that is a prefix of the cleaned text, free of the marks and newlines. |
| ShareLanding.CleanPlainText | src/pages/share/shareLanding.jsx:66 | Text without marks or newlines is kept word for word. |
| ShareLanding.PageMode | src/pages/share/shareLanding.jsx:169 | The link's `mode`, unvalidated, or `discover-self` when it is missing or empty. |
| ShareLanding.AfterLoad | src/pages/share/shareLanding.jsx:179-207 | Without a report id nothing is fetched and loading ends. Otherwise a record is kept exactly when one arrives, and the not-found message is set exactly when the fetch fails. Loading always ends. |
| ShareLanding.FullReportLink | src/pages/share/shareLanding.jsx:236 | The link is `/report-result?mode=`, then the mode, then `&reportId=` and the report id. |
| ShareLanding.OfferedLinkHasId | src/pages/share/shareLanding.jsx:234-236 | The full-report link is shown only after a fetch for a real id returned non-empty content. |
| ShareLanding.OffersFullReport | src/pages/share/shareLanding.jsx:234 | Definition: a loaded report with non-empty content. `ShareLanding.OfferedLinkHasId` proves what it implies. |
| ChatPage.FindPending | src/pages/chat/Chat.jsx:62-64 | `find` gives the first matching stored report (mode matches, status `generating`), with no `null` and no match before it. It gives no match exactly when every element is a non-matching object, and throws only when some element is `null`. |
| ChatPage.IsPendingFor | src/pages/chat/Chat.jsx:63 | Definition of the `find` callback: a non-null stored report whose mode is the page's and whose status is `generating`. Its use is proved in `ChatPage.FindPending` and `ChatPage.GetLocalPendingReport`. |
| ChatPage.ReadStorage | src/pages/chat/Chat.jsx:61 | Definition: a missing or empty item reads as `[]`; anything else is parsed. Its consequences are proved in `ChatPage.PendingLookupSpec`. |
| ChatPage.GetLocalPendingReport | src/pages/chat/Chat.jsx:59-71 | Any report returned matches the mode and is generating. |
| ChatPage.PendingLookupSpec | src/pages/chat/Chat.jsx:59-71 | A missing key reads as an empty list. Unparseable storage or a non-array gives null instead of an exception. Otherwise the first match is returned. |
| ChatPage.FindFirstIs | src/pages/chat/Chat.jsx:62-64 | The search stops at the first match when no `null` precedes it. |
| ChatPage.NullBeforeMatchHides | src/pages/chat/Chat.jsx:62-69 | A `null` before any match makes the callback throw, so the lookup gives null. |
| ChatPage.AssistantCount | src/pages/chat/Chat.jsx:126 | The number of assistant messages is at most the number of messages. |
| ChatPage.Progress | src/pages/chat/Chat.jsx:126-127 | Progress is min(assistant messages, 10), so it lies in 0..10. |
| ChatPage.ProgressAfterRound | src/pages/chat/Chat.jsx:126-127 | A user message plus a reply raises progress by one until it reaches 10. |
| ChatPage.ProgressTextShape | src/pages/chat/Chat.jsx:195 | The counter shows exactly two digits that read back as the progress, then `/10`. |
| ChatPage.ProgressText | src/pages/chat/Chat.jsx:195 | Definition: the two padded digits of the progress, then `/10`. Its shape is proved in `ChatPage.ProgressTextShape`. |
| ChatPage.Page.constructor | src/pages/chat/Chat.jsx:80-81 | Not started, nothing pending. |
| ChatPage.Page.CheckPending | src/pages/chat/Chat.jsx:84-90 | A stored report is offered for resume only if it has at least one message. |
| ChatPage.OffersResume | src/pages/chat/Chat.jsx:86 | Definition: a found report with a positive message count. `ChatPage.Page.CheckPending` keeps a report exactly when it holds. |
| ChatPage.Page.HandleResumeAsWritten | src/pages/chat/Chat.jsx:137-144 | As written, resuming throws exactly when a report is pending, because `resumeReport` is undefined. |
| ChatPage.Page.HandleResume | src/pages/chat/Chat.jsx:137-144 | Corrected, with `resumeReport` and `restoreMessages` defined (see Findings). A pending report is resumed, the chat starts and the offer is cleared. With nothing pending, nothing happens. |
| ChatPage.Page.HandleStartNewAsWritten | src/pages/chat/Chat.jsx:147-154 | As written, the offer is cleared and the chat starts, then `createReport` throws and no opening message is sent. |
| ChatPage.Page.HandleStartNew | src/pages/chat/Chat.jsx:147-154 | Corrected, with `createReport` defined (see Findings). The offer is cleared, the chat starts and the opening message is sent. |
| ChatPage.Page.HandleStartAsWritten | src/pages/chat/Chat.jsx:157-164 | As written, `handleStart` always throws and sends no opening message. With a report pending, neither flag changes. Otherwise both flags flip before `createReport` throws. |
| ChatPage.Page.HandleStart | src/pages/chat/Chat.jsx:157-164 | Corrected, with the context functions defined (see Findings). Resume when a report is pending, otherwise start a new chat and send the opening message. Either way the chat has started with no offer left. |
| ChatHistory.MessageId | src/pages/chat/ChatHistory.jsx:47 | The id is `_id` if present and non-null, else `id`, else `msg-<index>`. |
| ChatHistory.Normalize | src/pages/chat/ChatHistory.jsx:46-50 | One message per record, so the length is kept. |
| ChatHistory.NormalizeSpec | src/pages/chat/ChatHistory.jsx:46-50 | Message i comes from record i. Its role defaults to `user`, its content to the empty string, and its id follows `MessageId`. |
| ChatHistory.NormalizeItem | src/pages/chat/ChatHistory.jsx:47-49 | Definition: one record's message, with `??` defaults. Its fields are stated by `ChatHistory.NormalizeSpec`. |
| ChatHistory.FallbackIdsDistinct | src/pages/chat/ChatHistory.jsx:47 | Records with neither id get pairwise distinct fallback ids. |
| ChatHistory.HistoryPage.constructor | src/pages/chat/ChatHistory.jsx:33-34 | No messages, not loading, no effect run yet. |
| ChatHistory.HistoryPage.Effect | src/pages/chat/ChatHistory.jsx:36-43 | A missing or empty report id navigates home without fetching. No database does nothing. Otherwise a new run starts with its own clear `cancelled` flag (line 41), its number is returned, loading starts and the report's messages are requested. |
| ChatHistory.HistoryPage.Cleanup | src/pages/chat/ChatHistory.jsx:59 | A run's cleanup sets that run's flag and changes nothing else. |
| ChatHistory.HistoryPage.Settle | src/pages/chat/ChatHistory.jsx:43-58 | The fetch of a cleaned-up run changes nothing, even after later runs have started. Otherwise an array replaces the messages with its normalisation, anything else keeps them, and loading ends. |
| ChatHistory.SupersededRunIgnored | src/pages/chat/ChatHistory.jsx:41-60 | When the report id changes mid-fetch (cleanup, then the effect for the new id), the old fetch's late result leaves the messages unchanged and the new run loading. |
| Toast.Without | src/components/Toast.jsx:93 | No remaining entry has the removed id, and the list does not grow. |
| Toast.WithoutSpec | src/components/Toast.jsx:93 | An entry survives if and only if it was there with another id. |
| Toast.WithoutAppend | src/components/Toast.jsx:93 | Removal distributes over concatenation, so the survivors keep their order. |
| Toast.WithoutAbsent | src/components/Toast.jsx:93 | Removing an id no entry carries changes nothing. |
| Toast.WithoutIdempotent | src/components/Toast.jsx:92-94 | Removing an id twice is removing it once. |
| Toast.AddThenRemove | src/components/Toast.jsx:79-94 | Adding a toast and removing its id leaves the earlier toasts without that id, and exactly the earlier toasts when none had it. |
| Toast.ToastProvider.constructor | src/components/Toast.jsx:77 | No toasts, no timers. |
| Toast.ToastProvider.AddToast | src/components/Toast.jsx:79-90 | Appends one entry at the end with the current time as id, the message, and the type (default `info`), and returns that id. A timer is scheduled exactly when the duration (default 3000) is positive. |
| Toast.ToastProvider.RemoveToast | src/components/Toast.jsx:92-94 | Every entry with that id goes; the rest keep their order. |
| Toast.ToastProvider.Expire | src/components/Toast.jsx:84-86 | A timer that fires removes its toast's id and is itself consumed. |
| Toast.ToastProvider.Info | src/components/Toast.jsx:98-99 | `message.info` adds a toast of type `info`. |
| Toast.ToastProvider.Success | src/components/Toast.jsx:100 | `message.success` adds a toast of type `success`. |
| Toast.ToastProvider.Warning | src/components/Toast.jsx:101 | `message.warning` adds a toast of type `warning`. |
| Toast.ToastProvider.Error | src/components/Toast.jsx:102 | `message.error` adds a toast of type `error`. |
| Toast.UseToast | src/components/Toast.jsx:115-121 | The provider's value, or the `useToast` error exactly when there is no provider. |
| Toast.ShowThenExpire | src/components/Toast.jsx:79-94 | A toast shown with a positive duration and a fresh id is gone once its timer fires. Toasts and timers are back as they were. |
| MessageList.SpacedPairwise | src/pages/chat/MessageList.jsx:10-12 | With a non-negative delay, neighbouring runs at least `delay` apart means any two runs are. |
| MessageList.Spaced | src/pages/chat/MessageList.jsx:10-12 | Definition: neighbouring throttled runs are at least `delay` apart. `MessageList.Throttle.Call` keeps it. |
| MessageList.Throttle.constructor | src/pages/chat/MessageList.jsx:6-7 | `lastCall` starts at 0 and nothing has run. |
| MessageList.Throttle.Call | src/pages/chat/MessageList.jsx:8-14 | The function runs if and only if now − lastCall ≥ delay, and only then does lastCall become now. All runs stay at least `delay` apart. |
| MessageList.StreamingAfterSend | src/pages/chat/MessageList.jsx:77-79 | Right after an accepted send the list streams, and the empty placeholder shows the thinking indicator. |
| MessageList.StreamingFollowsRound | src/pages/chat/MessageList.jsx:77-110 | Once text arrives the indicator gives way while streaming continues. After success, after a rollback, or with no messages, the list does not stream. |
| MessageList.IsStreaming | src/pages/chat/MessageList.jsx:79 | Definition: the last message is loading. Its behaviour over a round is proved in `MessageList.StreamingAfterSend` and `MessageList.StreamingFollowsRound`. |
| MessageList.ShowsLoadingIndicator | src/pages/chat/MessageList.jsx:109-110 | Definition: a message that is loading and still empty. Its behaviour over a round is proved in the same two lemmas. |
| InviteDialog.Render | src/components/inviteCodeDialog.jsx:12 | A closed dialog renders nothing. An open one shows the input and the error. |
| InviteDialog.RefusalText | src/components/inviteCodeDialog.jsx:27 | The error's own message when it has one, else the default text; never empty. |
| InviteDialog.Dialog.constructor | src/components/inviteCodeDialog.jsx:8-9 | Empty input, no error. |
| InviteDialog.Dialog.HandleSubmit | src/components/inviteCodeDialog.jsx:14-29 | A blank code sets the empty-code error and submits nothing. Otherwise `onSubmit` gets the trimmed code. Success clears the input; failure shows the refusal text and keeps the input. |
| InviteDialog.Dialog.HandleClose | src/components/inviteCodeDialog.jsx:31-36 | Input and error cleared, `onClose` called, navigation to `/`. |
| InviteDialog.Dialog.OnChange | src/components/inviteCodeDialog.jsx:63-66 | The typed text is stored and the error cleared. |
| InviteDialog.SubmittedCodeTrimmed | src/components/inviteCodeDialog.jsx:18-24 | What reaches `onSubmit` is non-empty with no white space at either end. |
| Register.SanitizeUsernameSpec | src/pages/settings/user/register.jsx:234 | The sanitised name has only `[A-Za-z0-9_]` and at most 20 characters. Sanitising is idempotent and keeps a valid name. The result is valid exactly when it has at least 3 characters. |
| Register.SanitizePhoneSpec | src/pages/settings/user/register.jsx:263 | The sanitised phone is digits only, at most 11, idempotent, and keeps a typed mobile number. |
| Register.IsUsernameChar | src/pages/settings/user/register.jsx:146 | Definition: an ASCII letter, digit or `_`. |
| Register.IsValidUsername | src/pages/settings/user/register.jsx:146 | Definition: 3 to 20 characters, all of them username characters. `Register.SanitizeUsernameSpec` proves that a sanitised name is valid exactly when it has at least 3 characters. |
| Register.IsValidPassword | src/pages/settings/user/register.jsx:147 | Definition: at least 6 characters. |
| Register.IsMobileNumber | src/pages/settings/user/register.jsx:149 | Definition: 11 digits, starting with `1` and then one of 3 to 9. `Register.SanitizePhoneSpec` proves that sanitising keeps such a number. |
| Register.IsValidPhone | src/pages/settings/user/register.jsx:149 | Definition: empty, or a mobile number. |
| Register.CanSubmit | src/pages/settings/user/register.jsx:146-151 | Definition: a valid username and password, matching confirmation, and a valid phone. `Register.RegisterForm.HandleRegister` sends exactly when it holds and the form is not loading. |
| Register.SanitizeUsername | src/pages/settings/user/register.jsx:234 | Definition: drop every non-username character and keep the first 20. Its properties are proved in `Register.SanitizeUsernameSpec`. |
| Register.SanitizePhone | src/pages/settings/user/register.jsx:263 | Definition: drop every non-digit and keep the first 11. Its properties are proved in `Register.SanitizePhoneSpec`. |
| Register.ParamsFor | src/pages/settings/user/register.jsx:162-174 | The registration parameters: name, password, invites 0, 2 reports, level 0, and a phone exactly when one was entered. |
| Register.EmailCarriesUsername | src/pages/settings/user/register.jsx:165 | The e-mail is the username followed by `@temp.com`. |
| Register.LoginLink | src/pages/settings/user/register.jsx:190-194 | After success the page goes to `/login`, carrying the encoded `returnUrl` when there is one. |
| Register.RegisterForm.constructor | src/pages/settings/user/register.jsx:137-143 | All fields empty, not loading. |
| Register.RegisterForm.SetUsername | src/pages/settings/user/register.jsx:234 | The username field holds the sanitised input; other fields are unchanged. |
| Register.RegisterForm.SetPhone | src/pages/settings/user/register.jsx:263 | The phone field holds the sanitised input; other fields are unchanged. |
| Register.RegisterForm.HandleRegister | src/pages/settings/user/register.jsx:154-205 | Nothing happens unless all four checks pass and it is not loading. Otherwise the parameters are sent. Success shows the success text and leads to the login link; failure shows the SDK's error text or the fallback. Loading ends false. |
| AuthReply.Settle | src/pages/settings/user/login.jsx:187-189 | A resolved reply counts as a failure exactly when it has both a code and an error, which are rethrown. A rejection passes through. |
| AuthReply.ErrorText | src/pages/settings/user/login.jsx:198 | `err.message`, else `err.error`, else the fallback. |
| AuthReply.ErrorCode | src/pages/settings/user/login.jsx:193 | Definition: `err.code` when it is non-zero, else `err.status`. `Login.PhoneLoginErrorFacts` relies on it. |
| AuthReply.RethrownShowsSdkError | src/pages/settings/user/login.jsx:187-198 | A rethrown reply keeps the SDK's code and shows its error text, never the fallback. |
| Login.SanitizeCodeSpec | src/pages/settings/user/login.jsx:310 | The code field holds at most six digits, and sanitising it again changes nothing. |
| Login.SanitizeCode | src/pages/settings/user/login.jsx:310 | Definition: drop every non-digit and keep the first 6. Its properties are proved in `Login.SanitizeCodeSpec`. |
| Login.SuccessTarget | src/pages/settings/user/login.jsx:174-177 | Success goes to `returnUrl` when present, otherwise `/`. |
| Login.PhoneLoginError | src/pages/settings/user/login.jsx:193-199 | Error code 101 (from `code` or `status`) shows the not-registered text; anything else shows the error's text or the fallback. |
| Login.PhoneLoginErrorFacts | src/pages/settings/user/login.jsx:193-199 | A 101 reported only through `status` is still recognised, and a failed phone login never leaves the error empty. |
| Login.LoginForm.constructor | src/pages/settings/user/login.jsx:136-145 | Password tab, empty fields, countdown 0, not loading. |
| Login.LoginForm.IsValidPhone | src/pages/settings/user/login.jsx:148 | Definition: the phone field is a mobile number (`Register.IsMobileNumber`). |
| Login.LoginForm.CanSendCode | src/pages/settings/user/login.jsx:149 | Definition: a valid phone and the countdown at 0. `Login.LoginForm.HandleSendCode` requests a code exactly when it holds. |
| Login.LoginForm.CanSubmitPhone | src/pages/settings/user/login.jsx:150 | Definition: a valid phone and a 6-character code. `Login.LoginForm.HandlePhoneLogin` uses it as its guard. |
| Login.LoginForm.CanSubmitPassword | src/pages/settings/user/login.jsx:151 | Definition: a username of at least 3 characters and a password of at least 6. `Login.LoginForm.HandlePasswordLogin` uses it as its guard. |
| Login.LoginForm.SetLoginMethod | src/pages/settings/user/login.jsx:246-257 | Switching tabs clears the error and keeps the rest. |
| Login.LoginForm.SetPhone | src/pages/settings/user/login.jsx:298 | The phone field holds at most 11 digits of the input. |
| Login.LoginForm.SetCode | src/pages/settings/user/login.jsx:310 | The code field holds at most 6 digits of the input. |
| Login.LoginForm.Tick | src/pages/settings/user/login.jsx:154-158 | The countdown drops by one while positive and never goes below 0. |
| Login.LoginForm.HandleSendCode | src/pages/settings/user/login.jsx:161-171 | A code is requested exactly when the phone is valid and the countdown is 0. Success restarts the countdown at 60, so no second request can follow; failure shows the send error. |
| Login.LoginForm.HandlePhoneLogin | src/pages/settings/user/login.jsx:180-203 | A no-op unless the phone is valid, the code has 6 characters and it is not loading. Success navigates to the success target; failure shows the mapped error. Loading ends false. |
| Login.LoginForm.HandlePasswordLogin | src/pages/settings/user/login.jsx:206-223 | A no-op unless the username has at least 3 characters, the password at least 6, and it is not loading. Success navigates; failure shows the error's text or the fallback. |
| UseProfile.CheckCanStartChat | src/hooks/useProfile.js:12-18 | A visitor who is not logged in may always start. A logged-in user may start if and only if `remainingReport` is positive, a missing or null count counting as 1. |
| UseProfile.RefusedOnlyWhenExhausted | src/hooks/useProfile.js:14-17 | A refusal happens exactly to a logged-in user whose stored count is 0 or below. |
| Modes.GetModeLabel | src/constants/modes.js:31-33 | The configured labels of the two modes; the unknown-mode label exactly for any other value. |
| Modes.GetDefaultMode | src/constants/modes.js:39-41 | The default is `discover-self`, a valid mode. |
| Modes.GetModeFromSearchParams | src/constants/modes.js:57-62 | `understand-others` only on an exact match of the first `mode` value, `discover-self` otherwise; always a valid mode. |
| Modes.ValidIffConfigured | src/constants/modes.js:48-50 | A mode is valid exactly when the configuration table knows it. |
| Modes.ConfiguredLabel | src/constants/modes.js:15-24 | Definition: the `MODE_CONFIG` label of the two configured modes, none for any other value. |
| Modes.IsValidMode | src/constants/modes.js:48-50 | Definition: one of the two `CHAT_MODES` values. `Modes.ValidIffConfigured` proves it agrees with the configuration table. |
| Modes.SearchParamsFallback | src/constants/modes.js:57-62 | A missing or invalid `mode` falls back to the default mode. |
| WelcomeMessage.GetWelcomeMessage | src/constants/welcome-message.js:22-31 | The understand-others message exactly for that mode, the discover-self message for every other value; always one of the two. |
| ReportTitle.TemplateLayout | src/utils/chat.js:11 | In `Y-MM-DD HH:mm` each two-character field lands at a fixed offset after the year, behind its separator. |
| ReportTitle.FieldsPadded | src/utils/chat.js:11 | The year is printed unpadded. Month (zero-based month plus 1), day, hour and minute are each exactly two digits that read back as their values. |
| ReportTitle.TitleShape | src/utils/chat.js:8-13 | The title is the mode label, `-`, then the time stamp. An unknown mode gives the unknown-mode label as prefix. |
| ReportTitle.GenerateReportTitle | src/utils/chat.js:8-13 | Definition: the mode label, `-`, then the time stamp. Its shape is proved in `ReportTitle.TitleShape`. |
| ReportTitle.Stamp | src/utils/chat.js:11 | Definition: the `Y-MM-DD HH:mm` stamp of the date fields. Its layout and fields are proved in `ReportTitle.TemplateLayout` and `ReportTitle.FieldsPadded`. |
| JsText.IsSpace | src/api/chat.js:194 | Definition: the JavaScript white-space and line-terminator set that `trim` and `\s` use. `JsText.TrimStartSpec`, `JsText.TrimEndSpec` and `JsText.TrimEmptyIffBlank` are stated over it. |
| JsText.IsBlank | src/pages/report/Result.jsx:103 | Definition: text of white space only, for which `trim()` is falsy. `JsText.TrimEmptyIffBlank` proves that equivalence. |
| JsText.StartsWith | src/api/chat.js:195 | Definition: `String.prototype.startsWith`, a prefix test. `ChatApi.LineDelta` tests `data:` with it, and `JsText.Take` and `ChatApi.StreamFacts` state their results through it. |
| JsText.TrimStart | src/pages/report/Result.jsx:113 | Trimming the start never lengthens the text and leaves no white space in front. |
| JsText.TrimStartSpec | src/pages/report/Result.jsx:113 | `trimStart` keeps a suffix and removes only white space before it. |
| JsText.TrimEnd | src/api/chat.js:194 | Trimming the end never lengthens the text and leaves no white space at the end. |
| JsText.TrimEndSpec | src/api/chat.js:194 | `trimEnd` keeps a prefix and removes only white space after it. |
| JsText.TrimEmptyIffBlank | src/hooks/useChat.js:19 | `s.trim()` is empty exactly when `s` is white space only. |
| JsText.TrimIsSlice | src/pages/report/Result.jsx:108 | `trim` keeps a contiguous piece with only white space around it, and no white space at the piece's ends. |
| JsText.TrimIdempotent | src/pages/report/Result.jsx:103-108 | Trimming twice is trimming once. |
| JsText.Trim | src/hooks/useChat.js:19 | Definition: `trimEnd` after `trimStart`. Its properties are proved in `JsText.TrimIsSlice`, `JsText.TrimEmptyIffBlank` and `JsText.TrimIdempotent`. |
| JsText.Take | src/pages/share/shareLanding.jsx:67 | `slice(0, n)` is the prefix of length min(n, \|s\|). |
| JsText.FindFrom | src/api/chat.js:190 | The first occurrence of the separator at or after a position, or the end when there is none. |
| JsText.Split | src/api/chat.js:190 | `split` always yields at least one piece. |
| JsText.JoinSplit | src/api/chat.js:190 | Joining the pieces back with the separator gives the text, so splitting loses nothing. |
| JsText.SplitPiecesFree | src/api/chat.js:190 | No piece contains the separator. |
| JsText.SplitAfterHead | src/pages/report/Result.jsx:103 | A piece free of the separator's first character, followed by the separator, is the first piece. |
| JsText.SplitNoSeparator | src/api/chat.js:190 | Text free of the separator's first character is one piece. |
| JsText.SplitOneCharConcat | src/api/chat.js:188-191 | Lines of x+y are all but the last line of x, then the lines of that last line continued by y. |
| JsText.RemoveChars | src/pages/share/shareLanding.jsx:66 | Removing a character class leaves none of its characters and never lengthens the text. |
| JsText.RemoveCharsAppend | src/pages/share/shareLanding.jsx:66 | Removal distributes over concatenation, so kept characters keep their order. |
| JsText.RemoveCharsNone | src/pages/share/shareLanding.jsx:66 | Text without any of the characters is unchanged. |
| JsText.CollapseNewlines | src/pages/share/shareLanding.jsx:66 | No newline is left. |
| JsText.CollapseNewlinesRun | src/pages/share/shareLanding.jsx:66 | A maximal run of newlines becomes exactly one space, and the text around it is kept. |
| JsText.CollapseNewlinesNone | src/pages/share/shareLanding.jsx:66 | Text without newlines is unchanged. |
| JsText.CollapseNewlinesKeeps | src/pages/share/shareLanding.jsx:66 | Collapsing brings in no character other than the space. |
| JsText.Keep | src/pages/settings/user/register.jsx:234 | Keeping a character class leaves only allowed characters and never lengthens the text. |
| JsText.KeepAllowed | src/pages/settings/user/register.jsx:234 | Text of allowed characters only is kept whole. |
| JsText.SanitizeSpec | src/pages/settings/user/register.jsx:234 | A sanitised field has at most n allowed characters, and sanitising it again changes nothing. |
| JsText.SanitizeKeepsValid | src/pages/settings/user/register.jsx:263 | Allowed text no longer than n is left as typed. |
| JsText.Sanitize | src/pages/settings/user/register.jsx:234 | Definition: `replace` of the disallowed characters, then `slice(0, n)`. Its properties are proved in `JsText.SanitizeSpec` and `JsText.SanitizeKeepsValid`. |
| JsText.NatToString | src/pages/chat/Chat.jsx:195 | `String(n)` is decimal digits with no leading zero. |
| JsText.NatToStringValue | src/pages/chat/Chat.jsx:195 | The printed digits read back as the number. |
| JsText.NatToStringLength | src/pages/chat/Chat.jsx:195 | One digit below 10, two digits for 10..99. |
| JsText.PadStart | src/utils/chat.js:11 | `padStart` gives max(width, \|s\|) characters: fill characters, then `s` unchanged. |
| JsText.Pad2Digits | src/utils/chat.js:11 | Below 100, `String(n).padStart(2, '0')` is exactly two digits that read back as n. |
| JsText.Pad2 | src/utils/chat.js:11 | Definition: `String(n).padStart(2, '0')`. Its properties are proved in `JsText.Pad2Digits`. |
| JsText.ParamGet | src/constants/modes.js:58 | `URLSearchParams.get` is null exactly when no pair has the key. Otherwise it is the value of the first pair with that key. |
| EndToEnd.HeadingLine | src/api/mockData.js:50 | The final report's first line is `# ` and the title, without a line break. |
| EndToEnd.FirstPieceRendered | src/pages/report/Result.jsx:103 | A first piece that is not blank and has no line break is the first rendered piece, whatever follows the blank line. |
| EndToEnd.TitleHeading | src/pages/report/Result.jsx:111-113 | `# ` and a title that does not start with `#` and has no white space at its ends is a level-1 heading showing the title. |
| EndToEnd.RendersTitleFirst | src/pages/report/Result.jsx:103-114 | Content that starts with such a heading line renders the title first, as a level-1 heading. |
| EndToEnd.StoredReportRendersTitle | src/pages/report/Result.jsx:101-113 | The stored mock report renders `个人天赋使用说明书` as its first, level-1 heading. |
| EndToEnd.MockReportDelivered | src/hooks/useChat.js:53-61 | The final mock reply starts with `[Report]`, so as an update it fires `onReportStart` and is forwarded. What the report context stores of it is the heading, a blank line and the rest. |
| EndToEnd.TypedReportTrace | src/hooks/useChat.js:53-61 | A tagged text streamed as typewriter prefixes opens the report at the prefix that is exactly `[Report]`, the 8th. Every later prefix is forwarded, and the last callback forwards the whole text. |
| EndToEnd.MockReportStreamed | src/api/mockData.js:103-122 | The final mock reply, streamed as `MockSendMessage` emits it, fires `onReportStart` once and forwards every prefix from the 8th. The last text forwarded is the whole reply, which the report context stores as heading, blank line and rest. |

## Left out

- The network and the SDKs. The model does not cover `fetch` in `sendMessageViaProxy` and `sendMessageDirect`, their HTTP error texts, or the request body fields other than the message list. It also leaves out the Bmob, Cloudbase and account-SDK calls and the server side of `verifyInviteCode`. Each call is replaced by its outcome: stream chunks, a query outcome, or a resolved or rejected reply.
- `sendMessageViaProxy`'s message mapping, `sendMessageWithTypewriter` and `getApiConfig`: they only forward to the network or report configuration.
- `TextDecoder`: chunks are already-decoded strings.
- `JSON.parse` and reading `choices[0].delta.content`: the uninterpreted function `extract`. `localStorage` is the raw `getItem` result and a `parse` function.
- `encodeURIComponent` is a function parameter.
- Timers and the clock. `Date.now()` and `new Date()` readings are inputs. `setTimeout`/`setInterval` become explicit steps: `Tick`, `Expire`, one typewriter emission per loop turn. The 500 ms mock delay and the typing speed are not modelled.
- Strings are sequences of Unicode scalar values. JavaScript counts UTF-16 code units, so `length` and `slice` of text outside the Basic Multilingual Plane differ.
- `src/api/prompts.js` is not part of this model. Its four texts are the parameter record `ChatApi.Prompts`.
- `getMessages`, which ChatHistory.jsx imports from src/api/report.js, is not defined there. The chat-history fetch is replaced by its result.
- Rendering, styling and animation: JSX, CSS classes other than the heading sizes, the toast container and its colours, and the scroll calls made by the throttle and the list effect.
- React concurrency: batching, effect ordering and async interleaving. Rounds are sequential steps, and each effect is one method call.
- Chat.jsx's `updateMessages` effect (lines 130-134) and `handleReportStart`'s navigation. The effect calls a function the report context does not provide (see Findings). As written, `handleStartNew` sets `hasStarted` (line 149) before `createReport` throws, so the input box is shown with `onSend={sendUserMessage}` (lines 215-228). The visitor's first send makes the message list non-empty, and the effect then throws a TypeError. src/main.jsx:21-24 renders the app without an error boundary, so React unmounts the whole page. The corrected `HandleStartNew` reaches the same effect at once, with its opening message. The model does not represent rendering or unmounting.
- `useProfile`'s data loading, restart and login navigation: thin readers of the profile API.
- Arguments passed explicitly as `null` to `addToast`. An omitted argument is modelled as `None`; JavaScript defaults replace only `undefined`.
- UseChat.ChatSession.SendUserMessage: the exact shape of the final message list is stated only when the ids are unique and the clock is past them. With colliding `Date.now()` ids, the map and filter also touch every older message that shares the id, as the source does.
- UseChat.ChatSession.Send: models the corrected hook, which passes its `mode` option on to `sendMessage`. The request of the hook as written, always discover-self, is given by `UseChat.ChatSession.SendAsWritten`; the rest of the session is the same.
- UseChat.ChatSession.SendUserMessage: built on the corrected `Send`, so its request carries the `mode` option; as written it carries discover-self (Findings, first row).
- ChatPage.Page.HandleResume, ChatPage.Page.HandleStartNew and ChatPage.Page.HandleStart model the handlers with the missing context and hook functions defined. The handlers as written throw; see the `AsWritten` methods and Findings.
- UseChat.ChatSession.Send: unique ids after a round are likewise stated only under that clock assumption.
- Toast.ToastProvider.AddToast: two toasts added in the same millisecond share an id, and removing one removes both. The model keeps that behaviour and states `ShowThenExpire` only for a fresh id.
- ChatApi.HandleStream: its own contract only ties the result to `StreamText`/`StreamUpdates`. Strict growth of the callback arguments and "the result is the last argument" are proved once about those functions, in `ChatApi.StreamFacts`.
- Detection of `[Report]` in useChat.js is case-sensitive, while the strip in ReportContext.jsx ignores ASCII letter case. Both are modelled as written, so `[report]…` is stripped if it reaches the context but never opens a report.

## Findings

| source | as written | input that shows it | evidently intended | confidence | as-written member | corrected member |
|---|---|---|---|---|---|---|
| src/hooks/useChat.js:12 | The hook destructures only the three callbacks, so the `mode` option passed by Chat.jsx:119 is ignored. `sendMessage` at line 51 gets no mode and uses discover-self. | Open the chat with `?mode=understand-others` in direct mode with an API key: the system message is the discover-self prompt. | The request carries the page's mode, so the understand-others prompt is sent. | high, not executed | UseChat.UnderstandOthersPromptLost | UseChat.ModeReachesPrompt |
| src/pages/chat/Chat.jsx:93-99 | The page destructures `createReport`, `updateMessages` and `resumeReport` from `useReport()`, but ReportContext.jsx:50-56 provides none of them. `restoreMessages` at line 118 is likewise missing from `useChat`. | Press start with no pending report: both flags flip, then `createReport(chatMode)` throws a TypeError and the opening message is never sent. With a pending report, `resumeReport(pendingReport)` throws before either flag changes. | Starting sends the opening message; resuming restores the report and starts the chat. | high, not executed | ChatPage.Page.HandleStartNewAsWritten | ChatPage.Page.HandleStartNew |
| src/pages/chat/Chat.jsx:137-144 | `handleResume` calls `resumeReport(pendingReport)` and `restoreMessages(...)`, neither of which is defined (ReportContext.jsx:50-56, useChat.js:95-100). | Open the chat with a pending report that has messages and press resume: the first call throws a TypeError before either flag changes. | The pending report and its messages are restored and the chat starts. | high, not executed | ChatPage.Page.HandleResumeAsWritten | ChatPage.Page.HandleResume |
| src/pages/chat/Chat.jsx:157-164 | `handleStart` dispatches to the two handlers above, so both of its paths throw. | Press start, with or without a pending report: the promise rejects and no opening message is sent. | Resume when a report is pending, otherwise start fresh and send the opening message. | high, not executed | ChatPage.Page.HandleStartAsWritten | ChatPage.Page.HandleStart |
