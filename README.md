# Call-evaluation pipeline: a Dafny model

This project models the core of a debt-collection call reviewer. A recorded
phone call is uploaded to one HTTP endpoint, transcribed, and scored by a
language model against a fixed, weighted rubric of ten parameters; the
browser then shows the scores, a total out of 100, and a list of recommended
actions derived from the feedback text.

Modules, one per source file plus helpers:

- `Rubric` (rubric.dfy): the server's rubric table. It has ten parameters with distinct keys, and their weights sum to 100.
- `Evaluation` (evaluation.dfy): the result record (`scores`, `overallFeedback`, `observation`).
  - The canned result `mockAnalyzeCall`, proved well-formed against the rubric.
  - Its JSON encoding, proved to read back unchanged.
- `AnalyzeCall` (analyze_call.dfy): the `POST` handler as a method.
  - Its inputs are an abstract request, the API key setting and the outcomes of the two external calls. The completion call's outcome is a function of the transcript, and `JSON.parse` is a parameter.
  - It returns the response and the list of external calls it made, in order.
  - The staged upload check (presence, type, size) is a separate function.
- `EvaluationScores` (evaluation_scores.dfy): the score panel.
  - The component's own copy of the rubric, proved identical to the server's.
  - The total and the maximum, the bound between them, and when the total reaches it.
  - The PASS/FAIL and "score/weight" badges, the colour band, and one row per parameter.
- `FeedbackSection` (feedback_section.dfy): `getRecommendedActions` as a method that appends action by action. It is proved equal to a reference definition: a table of phrase triggers.
- `FileUpload` (file_upload.dfy): the upload widget as a class.
  - Its fields are the `isDragOver` flag, the `disabled` prop, and logs of the `onFileSelect` and `alert` calls.
  - It also holds the client accept test, proved equivalent to the server's type check.
- `Text`, `JsonValues`, `Wrappers`: ASCII lower-casing, substring search, decimal rendering, JSON values and `Option`.

Facts about the code that the model keeps:

- The route returns the parsed analysis as it is, with no key check, range check or clamping (route.ts:78-79, 151). The model does the same.
- The canned result carries nothing that tells it apart from a real analysis (route.ts:137, 155).
- The MIME test `type.includes('audio')` is case-sensitive. Only the extension test (`/\.(mp3|wav)$/i`) ignores case.

## Model

| member | source | states |
|---|---|---|
| Rubric.RubricKeys | app/api/analyze-call/route.ts:9-20 | the rubric has exactly 10 parameters, with pairwise-distinct keys |
| Rubric.RubricMaximum | app/api/analyze-call/route.ts:9-20 | the weights of the rubric sum to 100 |
| Rubric.WeightSumSplit | app/api/analyze-call/route.ts:9-20 | the weight total splits into the weights before a parameter, its own weight, and the weights after it |
| Evaluation.MockIsWellFormed | app/api/analyze-call/route.ts:87-104 | the canned result has one score per rubric key, unique keys, and every score in [0, weight]; PASS_FAIL scores are 0 or the full weight; both texts are non-empty |
| Evaluation.GetUnique | app/components/EvaluationScores.tsx:61 | with unique keys, looking up a member's key finds that member's score |
| Evaluation.FromToJson | app/api/analyze-call/route.ts:137 | the JSON body sent for a result reads back as the same result, scores in the same order |
| AnalyzeCall.Validate | app/api/analyze-call/route.ts:111-132 | the upload checks run in order: missing (or empty) field, then type, then size. Each later rejection implies the earlier checks passed. A non-empty text field or an unreadable body is a fault |
| AnalyzeCall.TypeCheckIff | app/api/analyze-call/route.ts:119-124 | the type check rejects iff "audio" occurs nowhere in the MIME type and the lower-cased last four characters of the name are neither ".mp3" nor ".wav" |
| AnalyzeCall.SizeCeiling | app/api/analyze-call/route.ts:127-132 | a well-typed file of exactly 50·1024·1024 bytes is accepted; one byte more is rejected as too large |
| AnalyzeCall.ReplyText | app/api/analyze-call/route.ts:78 | no first choice means failure; null or empty content becomes "{}"; other content is passed on unchanged |
| AnalyzeCall.AnalyzeCallTranscript | app/api/analyze-call/route.ts:72-83 | analysis succeeds iff the service answered, with a first choice, and its text parses. The parsed value is returned verbatim, with no shape or range check |
| AnalyzeCall.EmptyContentIsEmptyObject | app/api/analyze-call/route.ts:78-79 | empty or null model content is analysed as the empty JSON object |
| AnalyzeCall.MockResponseReadsBack | app/api/analyze-call/route.ts:137 | the canned response body reads back as the canned result, which is well-formed against the rubric |
| AnalyzeCall.Post | app/api/analyze-call/route.ts:106-165 | 400 with the stage's message iff validation rejects; 500 iff a fault occurs. No external call unless the upload passes and a key is set. Without a key the canned result is returned. Transcription comes first, and analysis runs only on the transcript that was returned. Any failure of either gives the canned result with status 200; on success the analysis is returned verbatim |
| EvaluationScores.SameTableAsServer | app/components/EvaluationScores.tsx:6-17 | the component's rubric copy equals the server's table entry by entry |
| EvaluationScores.CalculateTotalScore | app/components/EvaluationScores.tsx:37-41 | total is the sum of all score values; max is the sum of the rubric weights, which is 100 |
| EvaluationScores.TotalAtMostMax | app/components/EvaluationScores.tsx:38-39 | scores with distinct keys, each naming a parameter and within [0, its weight], total between 0 and max |
| EvaluationScores.TotalIsMaxIff | app/components/EvaluationScores.tsx:38-39 | with every weight positive, such scores total exactly max iff every parameter is scored and every score is its parameter's full weight |
| EvaluationScores.FullMarksIff | app/components/EvaluationScores.tsx:38-39 | a bounded result totals 100 iff it scores all ten rubric parameters, each at its full weight |
| EvaluationScores.AlignedIsBounded | app/components/EvaluationScores.tsx:38-39 | scores laid out in rubric order, each fitting its parameter, meet the bound's premise |
| EvaluationScores.MockTotals | app/components/EvaluationScores.tsx:38-39 | the canned result is shown as 75 out of 100 |
| EvaluationScores.PassFailLabel | app/components/EvaluationScores.tsx:68 | a PASS_FAIL badge reads "PASS" iff the score is present and greater than 0, and "FAIL" otherwise |
| EvaluationScores.ScoreLabelReadsBack | app/components/EvaluationScores.tsx:68 | a SCORE badge is digits, one slash, digits. The digits before the slash read back as the score, and those after it as the weight |
| EvaluationScores.BandFor | app/components/EvaluationScores.tsx:90 | the band of the percentage computed at line 44: excellent iff total·100 ≥ 80·max; good iff 60·max ≤ total·100 < 80·max; poor iff total·100 < 60·max |
| EvaluationScores.BandMonotone | app/components/EvaluationScores.tsx:90 | a higher total never gets a lower band |
| EvaluationScores.RowsFor | app/components/EvaluationScores.tsx:60-97 | one row per parameter, in table order, with its key, name and badge. Only SCORE parameters have a bar, and every bar has the same band |
| EvaluationScores.Rows | app/components/EvaluationScores.tsx:60-97 | the rows use the rubric copy, and every bar has the band of the overall total out of 100 |
| FeedbackSection.GetRecommendedActions | app/components/FeedbackSection.tsx:12-31 | the appended list equals the reference list: fired trigger actions in table order, or the default alone |
| FeedbackSection.ActionPresence | app/components/FeedbackSection.tsx:15-29 | each action is present iff its phrase occurs in its lower-cased field; the default iff no phrase does |
| FeedbackSection.ActionShape | app/components/FeedbackSection.tsx:12-31 | the list has 1 to 3 entries, in the fixed order disclaimer, tape, urgency, with no duplicates |
| FeedbackSection.DisclaimerAndUrgencyOnly | app/components/FeedbackSection.tsx:15-25 | feedback that mentions a disclaimer and urgency, with no tape disclosure in the observation, gives exactly [permission action, urgency action] |
| FileUpload.ClientMatchesServerTypeCheck | app/components/FileUpload.tsx:33 | the client accepts a file iff the server's type check passes it, so an accepted file is never rejected for its type |
| FileUpload.FileUploader.constructor | app/components/FileUpload.tsx:22 | the widget starts without the drag-over style, with no selections and no alerts |
| FileUpload.FileUploader.HandleFile | app/components/FileUpload.tsx:32-43 | an accepted file is passed to `onFileSelect` once, with its name unchanged, and no alert is raised. A rejected file raises the alert and nothing is selected |
| FileUpload.FileUploader.HandleDragOver | app/components/FileUpload.tsx:45-50 | drag-over sets the flag only when not disabled |
| FileUpload.FileUploader.HandleDragLeave | app/components/FileUpload.tsx:52-55 | drag-leave always clears the flag |
| FileUpload.FileUploader.HandleDrop | app/components/FileUpload.tsx:57-67 | a drop always clears the flag. When disabled, or when nothing was dropped, nothing else happens. Otherwise only the first file is handled |
| FileUpload.FileUploader.HandleFileInputChange | app/components/FileUpload.tsx:69-74 | a missing or empty file list is ignored; otherwise only the first file is handled |
| Text.ContainsIff | app/api/analyze-call/route.ts:119 | the substring scan standing in for `includes` is true iff the needle occurs at some index |
| Text.ParseNatToString | app/components/EvaluationScores.tsx:68 | the decimal rendering of a natural number reads back as that number |

## Left out

- FeedbackSection.DisclaimerAndUrgencyOnly: takes the three phrase tests as premises. The lemma does not prove that the canned texts satisfy them: the verifier cannot evaluate a substring search over literal strings of this length (301 and 215 characters).
- Transcription and chat completion (the OpenAI client, Whisper, `gpt-4o`) are external network calls. They appear only as outcome parameters of `AnalyzeCall.Post`. Reading the file into a buffer counts as part of the transcription step.
- The prompt text is not modelled: it is input to the external model and nothing checks it.
- `JSON.parse` is the parameter `parse`. The only property assumed of it is that "{}" parses to the empty object.
- The score and feedback panels are modelled only for results whose `scores` members are integer numbers and whose two texts are strings. `Evaluation.FromJson` gives `None` for any other body. The page itself keeps whatever `response.json()` yields, unchecked (page.tsx:74-75), and the route forwards the model's JSON unchecked (route.ts:151). Other bodies behave as follows:
  - a missing `scores` makes `Object.values` throw (EvaluationScores.tsx:38);
  - a string score turns the total into string concatenation, so `{greeting: "5", callClosing: 3}` totals `"053"`;
  - a missing `overallFeedback` makes `toLowerCase` throw (FeedbackSection.tsx:15).
- JSON numbers are integers only. JavaScript numbers are doubles, and the prompt lets SCORE parameters take any number between 0 and the weight (route.ts:49). Fractional scores, values beyond 2^53 and exponent notation (from 1e21 up) are not modelled. `Text.IntToString` and `EvaluationScores.ScoreLabelReadsBack` rely on this restriction.
- `NextRequest.formData` and `NextResponse.json` become the `Request` and `Response` datatypes. Console logging is dropped.
- The outer 500 path covers only the two faults the model can name: an unreadable form body, and a text field in place of a file. Other runtime faults are not modelled.
- JavaScript's Unicode `toLowerCase` is approximated by ASCII lower-casing. For the `/i` extension regex this is exact, because only ASCII letters can match ".mp3" and ".wav".
- Floating point is not modelled:
  - `overallPercentage` and `toFixed`: the band thresholds are stated by integer cross-multiplication;
  - the progress-bar widths;
  - `formatFileSize`, so the `size` string of the selected file is not modelled.
- `handleClick` only clicks a DOM element, and is not modelled.
- `AudioPlayer.tsx` (DOM audio and playback times), `page.tsx` (React state, `fetch`, `alert`) and `layout.tsx` (static metadata) are not modelled.
- JSX, CSS and icons are not modelled.
