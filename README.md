# AI literacy self-assessment survey: a verified model of its core

The application is a single-page React survey. A respondent rates statements
in seven categories on a 1–5 scale, one category per step. Answers and the
current step are kept in `localStorage`, so a reload resumes the survey. On
submit, every category gets a score normalised to 0–100. A mock analysis then
produces a report, which is also stored, and a dashboard shows it. The
dashboard can export the report as an A4 PDF.

This project models that core in Dafny:

- `types.dfy` (module `Types`): the records of `types.ts`.
- `jstext.dfy` (module `JsText`): the JavaScript built-ins the core relies on:
  - `trim` and `trimStart`;
  - the first piece of `split` with a one-character separator;
  - `Number.prototype.toString` of integers;
  - `parseInt(s, 10)`.
- `scoring.dfy` (module `Scoring`): the category scores computed by
  `handleSurveySubmit`. Rounding is carried out in exact rational arithmetic.
- `survey.dfy` (module `SurveyView`): what the survey screen derives from its
  props:
  - the answered count and the enabled state of the navigation buttons;
  - the stepper statuses;
  - the shortened category titles.
- `dashboard.dfy` (module `ResultsDashboard`): the dashboard's pure
  projections:
  - `**` emphasis;
  - removal of a leading "N." numbering;
  - shortened score labels;
  - the overall score text;
  - the stable ascending bar-chart order.
- `session.dfy` (module `App`): the App component's session state and the
  `localStorage` entries it writes.
  - Each handler is a transition function on a `Session` record, and the
    lemmas are stated over those functions.
  - The class `AppSession` holds the same state as fields. Its methods update
    those fields step by step as the handlers do, and each method is proved
    equal to its transition function.
- `export.dfy` (module `PdfExport`): the export controller:
  - library status, the single-flight `isDownloadingPdf` flag and the button
    state;
  - the same design of spec functions plus a class `PdfExporter`;
  - the `while` loop that slices the rendered image into pages.
- `sample.dfy` (module `SampleData`): the fixture of `sampleData.ts`.
- `vectors.dfy` (module `Vectors`): concrete instances on the fixture and on
  small inputs.

Parameters and abstractions:

- JSON serialisation is a parameter, `App.Codec`. The model relies only on
  `App.Lawful`: parsing what was stringified gives the value back, and a
  stringified object is never empty.
- Timers are events.
- Whether the PDF libraries are present is a boolean passed to the events that
  check for them.
- The outcome of the analysis promise is a parameter: `Some(analysis)` or
  `None` for a rejection.

## Model

| member | source | states |
|---|---|---|
| JsText.Trim | components/Survey.tsx:31 | `trim()` is the middle of the string: only white space or line terminators are removed, before and after it, and it neither starts nor ends with one. |
| JsText.TrimIdempotent | components/Survey.tsx:31 | Trimming a trimmed string changes nothing. |
| JsText.TrimIdentity | components/Survey.tsx:31 | A string with no white space at either end is its own trim. |
| JsText.BeforeFirst | components/Survey.tsx:31 | `split('(')[0]` is a prefix without `(`. It is followed by `(` unless it is the whole string. |
| JsText.BeforeFirstAbsent | components/Survey.tsx:31 | Without a `(` the first piece is the whole string. |
| JsText.NatToString | App.tsx:79 | `toString()` of a non-negative integer is a non-empty run of digits without a leading zero. |
| JsText.DigitsValueOfNatToString | App.tsx:79 | The digits written for n read back as n. |
| JsText.ParseInt | App.tsx:41 | `parseInt(s, 10)` is NaN exactly when no digit follows the leading white space and the optional sign. |
| JsText.ParseIntOfIntToString | App.tsx:79 | For every integer, `parseInt(i.toString(), 10)` is i. This is the stored step read back. |
| JsText.IntToString | App.tsx:79 | `toString()` of an integer is a minus sign exactly when it is negative, followed by non-empty digits whose value is its magnitude. |
| JsText.LeadingDigitCount | components/ResultsDashboard.tsx:35 | `\d+` at the front matches a maximal run of digits. |
| Scoring.RoundHalfUp | App.tsx:112 | `Math.round` gives the nearest integer, halves upward, and is never negative for a non-negative argument. `toFixed(0)` rounds the magnitude the same way. |
| Scoring.AnswerOrZero | App.tsx:100 | The recorded answer of a question, or the fallback 0 when it has none. |
| Scoring.Total | App.tsx:98-101 | The reduce over the questions. A category none of whose questions is answered totals 0. |
| Scoring.CategoryScoreOf | App.tsx:93-113 | The mapping for one category: 0 for a zero total, otherwise the integer nearest to (t − n)/(4n)·100, halves upward, with n > 0. |
| Scoring.NormalizedScore | App.tsx:103-112 | A zero total scores 0. Otherwise the score is (t − n)/(4n)·100 rounded half up. |
| Scoring.CategoryScores | App.tsx:93-114 | One score per category, in category order, labelled with the category title. |
| Scoring.TotalBounds | App.tsx:98-101 | With every answer in 1..5, the total lies between n and 5n. |
| Scoring.ScoreInRange | App.tsx:93-112 | A category fully answered on the scale scores within 0..100. |
| Scoring.UnansweredScoresZero | App.tsx:98-105 | A category with no answers, or no questions, scores 0. |
| Scoring.AllMinimumScoresZero | App.tsx:95-108 | All answers 1 give 0. |
| Scoring.AllMaximumScoresHundred | App.tsx:96-108 | All answers 5 give 100. |
| Scoring.ScoreMonotone | App.tsx:108-112 | Among non-zero totals, the score never decreases as the total grows. |
| Scoring.ZeroGuardNotMonotone | App.tsx:103-108 | The zero guard breaks monotonicity: an unanswered category scores 0, but one of four answered 3 scores −6. |
| SurveyView.AnsweredCount | components/Survey.tsx:25 | The answered count never exceeds the number of questions. |
| SurveyView.AnsweredCountFull | components/Survey.tsx:25-27 | The count equals the question total exactly when every question id has an answer. |
| SurveyView.AnsweredCountNone | components/Survey.tsx:25 | The count is 0 exactly when no question id has an answer. |
| SurveyView.AllQuestionsAnswered | components/Survey.tsx:27 | It holds exactly when every question of the current category is answered. |
| SurveyView.NavigationOf | components/Survey.tsx:111-134 | Previous is enabled iff the step is not 0. Submit replaces Next iff this is the last step. Next and Submit are enabled iff the category is fully answered. |
| SurveyView.Stepper | components/Survey.tsx:39-52 | Category i is completed iff i < step, current iff i = step, and pending otherwise. |
| SurveyView.StepperHasOneCurrent | components/Survey.tsx:43-52 | With a valid step, exactly one stepper entry is current. |
| SurveyView.ShortCategoryTitle | components/Survey.tsx:30-32 | The short title contains no `(` and has no white space at either end. |
| SurveyView.ShortTitleWithoutParen | components/Survey.tsx:30-32 | A title without `(` is shortened to its trim. |
| SurveyView.ShortTitleOfLabelled | components/Survey.tsx:30-32 | `head (rest)` is shortened to the trimmed head. |
| SurveyView.ShortTitleIdempotent | components/Survey.tsx:30-32 | Shortening a short title changes nothing. |
| ResultsDashboard.SplitMarkersCount | components/ResultsDashboard.tsx:21 | `split('**')` has one more part than the line has non-overlapping markers. |
| ResultsDashboard.JoinSplitMarkers | components/ResultsDashboard.tsx:21 | Joining the parts with `**` gives the line back. |
| ResultsDashboard.ConcatSplitMarkers | components/ResultsDashboard.tsx:21 | Concatenating the parts gives the line with every marker removed. |
| ResultsDashboard.PartsHaveNoMarker | components/ResultsDashboard.tsx:21 | No part contains `**`. |
| ResultsDashboard.PartsSplitLeftmost | components/ResultsDashboard.tsx:21 | Every marker split on is the leftmost one: no part before the last ends with `*`, so "***" splits as "" and "*". |
| ResultsDashboard.SplitMarkersUnique | components/ResultsDashboard.tsx:21 | Those properties fix the split. Any parts that join back to the line, contain no marker and, before the last, do not end with `*` are exactly `split('**')`. |
| ResultsDashboard.SplitMarkers | components/ResultsDashboard.tsx:21 | `split('**')` always gives at least one part. The lemmas beside it fix which parts those are. |
| ResultsDashboard.RenderLine | components/ResultsDashboard.tsx:20-23 | There are markers + 1 spans. A span is emphasised iff its index is odd. No span contains a marker. |
| ResultsDashboard.RenderLineText | components/ResultsDashboard.tsx:20-23 | The rendered text is the line without markers. Re-inserting the markers gives the line back. |
| ResultsDashboard.RenderLineWithoutMarker | components/ResultsDashboard.tsx:20-23 | A line without a marker is a single plain span. |
| ResultsDashboard.StripNumbering | components/ResultsDashboard.tsx:35 | Either the line is unchanged, or a proper suffix remains after a leading digit, and that suffix does not start with white space. |
| ResultsDashboard.StripNumberingPrefix | components/ResultsDashboard.tsx:35 | `digits + "." + whitespace + rest`, where rest does not start with white space, becomes exactly rest. |
| ResultsDashboard.StripNumberingUnnumbered | components/ResultsDashboard.tsx:35 | A line that does not start with digits followed by `.` is left as it is. |
| ResultsDashboard.FormattedScores | components/ResultsDashboard.tsx:214-217 | Same length, order and scores; each label is the short category title. |
| ResultsDashboard.SumScoresBounds | components/ResultsDashboard.tsx:219 | Summing scores that lie in lo..hi gives k·lo..k·hi. |
| ResultsDashboard.SumScores | components/ResultsDashboard.tsx:219 | The reduce of the scores from 0. Non-negative scores sum to a non-negative total. |
| ResultsDashboard.ToFixedZero | components/ResultsDashboard.tsx:219 | `toFixed(0)` writes a minus sign exactly for a negative quotient, even when it rounds to 0, then the digits of the magnitude rounded half up. A negative half therefore rounds away from zero, unlike `Math.round`. |
| ResultsDashboard.OverallAverageText | components/ResultsDashboard.tsx:219 | The text is "NaN" exactly for an empty score list (0 / 0). |
| ResultsDashboard.OverallAverageIsRoundedMean | components/ResultsDashboard.tsx:219 | For a non-empty list of scores in 0..100, the overall text is the decimal numeral of the mean rounded half up, and that value lies in 0..100. |
| ResultsDashboard.SortByScore | components/ResultsDashboard.tsx:221 | The result is ascending by score, a permutation of the input, and stable: the entries of each score keep their relative order. |
| ResultsDashboard.BarChartScores | components/ResultsDashboard.tsx:221 | The bar-chart list is a stable ascending permutation of the formatted scores. |
| App.Restore | App.tsx:36-57 | Restore acts only when both the step and the answers are stored (non-empty). Then the cases are, in order: <br>– a parse failure clears all of `localStorage` and changes nothing else; <br>– a stored result wins and shows Results; <br>– a step below the category count resumes the survey; <br>– otherwise nothing changes. |
| App.Initial | App.tsx:30-34 | The `useState` initial values: the welcome screen, step 0, no answers, no result, not a sample view, with the store as it is. |
| App.Truthy | App.tsx:40 | `if (localStorage.getItem(key))` holds exactly when the key is stored with a non-empty value. |
| App.ViewSample | App.tsx:59-63 | Results is shown with the fixture in sample mode; `localStorage` is untouched. |
| App.ViewSampleSurvey | App.tsx:65-67 | Only the screen changes. |
| App.Answer | App.tsx:69-73 | Exactly the answered id is set. The stored answers decode to the new map, and no other key changes. |
| App.Next | App.tsx:75-81 | The step advances by one, and the stored step reads back as it, only if the step stays below the count. Otherwise nothing changes. A valid step stays valid. |
| App.Prev | App.tsx:83-89 | The step goes back by one, and the stored step reads back as it, only if it stays non-negative. Otherwise nothing changes. |
| App.BeginSubmit | App.tsx:91-92 | Only the screen changes, to Loading. |
| App.FinishSubmit | App.tsx:116-130 | On success the result is shown and stored under its key, its stored form decodes to it, and no other key changes. On failure the survey screen returns, with everything else kept. |
| App.Restart | App.tsx:133-142 | The state is back to its initial values, and exactly the three keys are removed. |
| App.RestoredSurveyIsResumable | App.tsx:40-50 | A restore that resumes the survey leaves the stored entries mirroring the session. |
| App.ReloadResumes | App.tsx:40-50 | Reloading a session whose entries mirror it restores exactly that session. |
| App.AnswerKeepsResumable | App.tsx:69-73 | Answering keeps the entries mirroring the session. |
| App.NextKeepsResumable | App.tsx:75-81 | So does Next. |
| App.PrevKeepsResumable | App.tsx:83-89 | So does Previous. |
| App.ReloadAfterSubmitShowsResult | App.tsx:116-124 | After a successful submit, a reload shows that exact result. |
| App.FailedSubmitKeepsProgress | App.tsx:125-130 | A rejected analysis returns to the survey with the step and answers unchanged. |
| App.ReloadAfterRestartIsFresh | App.tsx:133-142 | After a restart, a reload starts fresh. |
| App.NegativeStepIsRestored | App.tsx:41-48 | Only the upper bound of the stored step is checked: a stored "-1" is restored as step −1. |
| App.AnswerKeepsGuided | components/Survey.tsx:90-93 | An answer from a scale button keeps every answer in 1..5 and every earlier category complete. |
| App.NextKeepsGuided | components/Survey.tsx:127-131 | Next, clickable only once the category is answered, keeps every earlier category complete. |
| App.PrevKeepsGuided | components/Survey.tsx:111-113 | Previous keeps the guided invariant. |
| App.GuidedSubmitScoresInRange | App.tsx:98-112 | When Submit is enabled in a guided session, every submitted score is in 0..100. |
| App.AppSession.constructor | App.tsx:30-34 | The fields start at the `useState` initial values. |
| App.AppSession.RestoreProgress | App.tsx:36-57 | The new state is `Restore` of the old one. |
| App.AppSession.HandleViewSample | App.tsx:59-63 | The new state is `ViewSample` of the old one. |
| App.AppSession.HandleViewSampleSurvey | App.tsx:65-67 | The new state is `ViewSampleSurvey` of the old one. |
| App.AppSession.HandleAnswer | App.tsx:69-73 | The map is updated at one key and the answers are re-stored: `Answer`. |
| App.AppSession.HandleNext | App.tsx:75-81 | The new state is `Next` of the old one. |
| App.AppSession.HandlePrev | App.tsx:83-89 | The new state is `Prev` of the old one. |
| App.AppSession.HandleSurveySubmit | App.tsx:91-114 | Loading is shown, and the returned scores are `CategoryScores` of the current answers. |
| App.AppSession.CompleteSurveySubmit | App.tsx:116-130 | The new state is `FinishSubmit` of the old one. |
| App.AppSession.HandleRestart | App.tsx:133-142 | The new state is `Restart` of the old one. |
| PdfExport.Mount | components/ResultsDashboard.tsx:92-119 | Loaded at once if the libraries are present. Otherwise loading, with the interval and the timeout armed. |
| PdfExport.PollTick | components/ResultsDashboard.tsx:113-119 | A tick that finds the libraries disarms both timers and sets loaded. |
| PdfExport.TimeoutAsWritten | components/ResultsDashboard.tsx:105-111 | The timeout disarms and sets error only if the libraries are missing. |
| PdfExport.TimeoutSettled | components/ResultsDashboard.tsx:105-111 | The corrected timeout, which always settles the status (see Findings). |
| PdfExport.DownloadClick | components/ResultsDashboard.tsx:188-196 | A click during a download is a no-op. On error it only alerts. When loaded it sets the flag and schedules one run. While loading it does nothing. |
| PdfExport.FinishGeneration | components/ResultsDashboard.tsx:132-180 | Every completion path clears the flag. Only a thrown error alerts. |
| PdfExport.Step | components/ResultsDashboard.tsx:92-196 | One event with the corrected timeout. Only a click schedules a run, at most one. Only a completion unschedules one. Timers change only the status and the timers. A click or a completion changes only the flag and the runs. |
| PdfExport.StepAsWritten | components/ResultsDashboard.tsx:92-196 | One event as written. It differs from `Step` exactly at a timeout that finds the libraries present while the timers are armed and the status is not already loaded. |
| PdfExport.Run | components/ResultsDashboard.tsx:92-196 | An event sequence with the corrected timeout. Without a click, no run is ever scheduled. |
| PdfExport.RunAsWritten | components/ResultsDashboard.tsx:92-196 | An event sequence as written. Without a click, no run is ever scheduled. Without a timeout, it agrees with `Run`. |
| PdfExport.ButtonOf | components/ResultsDashboard.tsx:198-210 | The button is disabled iff a download runs or the status is loading. The label follows download, then status. |
| PdfExport.EnabledButtonClickActs | components/ResultsDashboard.tsx:188-210 | The button is enabled exactly when a click would start a download or alert. |
| PdfExport.StepKeepsSingleFlight | components/ResultsDashboard.tsx:127-196 | One run is scheduled while the flag is set, none otherwise. Every event keeps this. |
| PdfExport.RunKeepsSingleFlight | components/ResultsDashboard.tsx:127-196 | Single flight holds over any sequence of events, both as written and with the corrected timeout. |
| PdfExport.MountedSingleFlight | components/ResultsDashboard.tsx:127-196 | From mount on, there is never more than one generation run, both as written and with the corrected timeout. |
| PdfExport.StepStatusMoves | components/ResultsDashboard.tsx:92-125 | An event moves the status only out of loading. |
| PdfExport.RunStatusMoves | components/ResultsDashboard.tsx:92-125 | Loaded and error are kept over any event sequence, for both timeouts. |
| PdfExport.MountedStatusMoves | components/ResultsDashboard.tsx:92-125 | From mount on, the status only moves loading → loaded or loading → error. Loaded is never revoked. |
| PdfExport.RunConcat | components/ResultsDashboard.tsx:92-125 | Running two event sequences in turn is running their concatenation. |
| PdfExport.LateLoadLeavesLoading | components/ResultsDashboard.tsx:105-111 | If the timeout finds libraries that arrived after the last tick, the status stays loading with nothing armed, and the button stays disabled. |
| PdfExport.StuckIsForever | components/ResultsDashboard.tsx:105-119 | From that state, no sequence of events changes anything. |
| PdfExport.RunKeepsLive | components/ResultsDashboard.tsx:105-119 | With the settled timeout, loading holds exactly while the timers are armed. |
| PdfExport.SettledTimeoutDecides | components/ResultsDashboard.tsx:105-111 | With the settled timeout, the status is never loading after the timeout fires. |
| PdfExport.ImageHeightInPdf | components/ResultsDashboard.tsx:156-159 | The image height on the page keeps the canvas aspect ratio at the page width. |
| PdfExport.PageOffsets | components/ResultsDashboard.tsx:161-172 | At least one page, enough pages to cover the image, and no extra page beyond the first. Page i is drawn at offset −i·P. |
| PdfExport.PageCountUnique | components/ResultsDashboard.tsx:161-172 | Those bounds fix the page count: it is max(1, ⌈H/P⌉). |
| PdfExport.PdfExporter.constructor | components/ResultsDashboard.tsx:89-102 | The fields start as `Mount`. |
| PdfExport.PdfExporter.HandleTick | components/ResultsDashboard.tsx:113-119 | The new state is `PollTick` of the old one. |
| PdfExport.PdfExporter.HandleTimeout | components/ResultsDashboard.tsx:105-111 | The new state is `TimeoutAsWritten` of the old one: the timeout as the component writes it. |
| PdfExport.PdfExporter.HandleTimeoutSettled | components/ResultsDashboard.tsx:105-111 | The new state is `TimeoutSettled` of the old one: the corrected timeout (see Findings). |
| PdfExport.PdfExporter.HandleDownloadClick | components/ResultsDashboard.tsx:188-196 | The new state and the alert are `DownloadClick`. |
| PdfExport.PdfExporter.CompleteGeneration | components/ResultsDashboard.tsx:132-180 | The flag is cleared; the new state and the alert are `FinishGeneration`. |
| Vectors.SampleOverallAverage | components/ResultsDashboard.tsx:219 | The sample scores sum to 533, and the overall score is "76". |
| Vectors.TwoQuestionCategory | App.tsx:98-112 | Answers 3 and 4 give 62.5, which rounds to 63. |
| Vectors.PartiallyAnsweredCategory | App.tsx:98-112 | One of four questions answered 3 gives −6.25, which rounds to −6. |
| Vectors.NegativeZeroAverage | components/ResultsDashboard.tsx:219 | A mean of −1/3 is printed as "-0". |
| Vectors.NegativeHalfAverage | components/ResultsDashboard.tsx:219 | A mean of −2.5 is printed as "-3", where `Math.round` gives −2. |
| Vectors.OnePrefixOnly | components/ResultsDashboard.tsx:35 | "1. 2. x" becomes "2. x". |

## Left out

- JSON: `JSON.stringify` and `JSON.parse` are not modelled. They are a `Codec` parameter with the round-trip law.
  - A stored value that parses to something other than the expected shape is outside the model, for example "null".
- IEEE floating point: division, `Math.round`, `toFixed` and the page arithmetic are modelled on exact integers and reals.
- PdfExport.PageOffsets: does not model the accumulated rounding of `heightLeft -= pdfHeight` in floating point.
- PdfExport.ImageHeightInPdf: a canvas of width 0 is excluded. In floating point its ratio is 0, the image height is infinite, and the slicing loop does not end.
- JsText.ParseInt: does not model the loss of precision above 2^53, because `parseInt` returns a double.
- JsText.IntToString: covers integers only. The step is always an integer.
- Timers: the 2-second mock delay, the 500 ms polling, the 8-second timeout and the 500 ms and 50 ms delays are not timed. They are events or left out.
- The analysis promise: its settlement is a parameter. `getMockAnalysis` always returns the fixture's analysis.
- Browser and library I/O: html2canvas, jsPDF, `window.scrollTo`, `alert` and `console` are left out. The alerts appear only as a boolean result.
- The `pdf-render-mode` class toggle is DOM styling and is left out. Its removal is not on the error path.
- Presentational parts are left out:
  - JSX, styles, recharts and the custom tick renderers;
  - the header's newline replacement and the progress bar width;
  - WelcomeScreen, LoadingScreen, SampleSurvey and the icons.
- No handler moves from the welcome screen to the survey. The survey screen is reached only by restoring saved progress, so the model has no such transition.
- The survey screen with a restored negative step is not modelled. `App.NegativeStepIsRestored` shows that the step is accepted. `SURVEY_CATEGORIES[-1]` is then undefined.
- `SURVEY_CATEGORIES` (constants.ts) is not part of this model. The categories are a parameter (`AppSession.categories`, `cats`).
- "`result.scores` is not mutated" holds trivially: sequences are values.
- `localStorage` failures are not modelled: every `getItem`, `setItem`, `removeItem` and `clear` succeeds. In a browser these can throw, on a full quota or with storage disabled.
  - The restore's `catch` (App.tsx:37-56) would also catch a failing `getItem`. The model reaches it only through a failing parse.
  - A throwing `setItem` in `handleAnswer`, `handleNext` or `handlePrev` (App.tsx:72, 79, 87) is uncaught after the React state was already set. The model always has the store agree with the new state.
  - In `handleSurveySubmit`, a throwing `setItem` (App.tsx:123) reaches the `catch` after `setAnalysisResult` (App.tsx:122). The survey screen then returns with the result already set. `App.FinishSubmit` cannot produce that state.

## Findings

| source | as written | input that shows it | evidently intended | confidence | as-written member | corrected member |
|---|---|---|---|---|---|---|
| components/ResultsDashboard.tsx:105-111 | The timeout clears the polling interval and sets `error` if the libraries are missing. If they are present, it sets nothing. | The libraries become available after the last 500 ms poll and before the 8 s timeout. The timeout then finds them, clears the interval and leaves the status at `loading`. The button stays disabled ("준비 중...") forever. | When the timeout finds the libraries, set `loaded`, so the status always settles. | not executed | PdfExport.TimeoutAsWritten (PdfExport.LateLoadLeavesLoading, PdfExport.StuckIsForever; used by PdfExport.StepAsWritten, PdfExport.RunAsWritten and PdfExport.PdfExporter.HandleTimeout) | PdfExport.TimeoutSettled (PdfExport.RunKeepsLive, PdfExport.SettledTimeoutDecides; used by PdfExport.Step, PdfExport.Run and PdfExport.PdfExporter.HandleTimeoutSettled) |
