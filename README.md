# SceneValidator validation pipeline, modelled in Dafny

This project models the validation core of the SceneValidator media tool,
`SceneValidator.validate` in `scene_validator/validator.py`, and proves
properties of that model. `validate` does the following:

1. It records a validation job as `in_progress`.
2. It loads a validation profile.
3. It compares the probed technical metadata of a media file with the
   caller's technical requirements.
4. It asks a content analyzer, a generative model, for content issues.
5. It asks the analyzer for recommendations.
6. It builds a one-sentence summary.
7. It closes the record with one terminal status: `passed`, `failed` or
   `error`.
8. It posts the result, or an error payload, to an optional callback URL.

If a step of the `try` block raises, the record is set to `error` and an
error callback is sent. Then the exception is raised again.

Modules, one per component:

- `Wrappers`: `Option` and `Result`, used in place of `None` and exceptions.
- `PyText`: the Python `str` operations the validator relies on:
  `isspace`, `strip`, `in`, `find`, `split`, `join`, `str(int)`, and
  `int(str)` in base 10 over ASCII digits, with the whitespace `int()`
  skips kept apart from the whitespace `strip()` drops. The differences
  from CPython's `int()` that remain are listed under "Left out".
- `Domain`: issues, checks, recommendations and numbers. It also holds the
  faults that leave the `try` block, with their `str()` texts, and the
  outcomes of media fetches and analyzer calls.
- `TechnicalSpecs`: the comparison in `_validate_technical_specs`, and a
  reference definition of which requirement keys are violated.
- `ResponseParsing`: the fence-stripping extraction of JSON text from an
  analyzer reply. It appears twice in the source, once for content issues
  and once for recommendations.
- `ContentValidation`: the content parse and its one-issue fallback.
- `Recommendations`: the early return for no issues, and the positional
  fallback list.
- `Summary`: the summary sentence. It is checked against a reference
  definition written as a single walk over the issues.
- `Orchestrator`: the pipeline as a function of what the collaborators
  answer (`Pipeline`). It also has the class `SceneValidator`, whose
  fields are:
  - the record store, a map from validation id to record;
  - the callbacks attempted;
  - the downloaded files still on disk;
  - a trace of every outside effect, in order.

  Its methods follow the source method by method. `Validate` is proved to
  do exactly what `Pipeline` describes.

Three behaviours of the program that are easy to get wrong:

- **Content-analyzer call.** `generate_content` at
  `scene_validator/validator.py:261` is outside the `try` that starts at
  :266. A failed call is therefore not turned into a synthetic issue: it
  escapes `_validate_content` and enters `validate`'s error path. The same
  holds for building the content prompt (:239-258) and the recommendation
  prompt (:303-316), which run before any `try` of their own.
- **Downloaded files.** `cleanup` runs only on normal return (:220-221,
  :288). A failure to probe, a resolution that does not parse, a prompt
  that cannot be built or a failed analyzer call leaves the file on disk,
  and the model keeps it in `tempFiles`.
- **Unknown profile.** `_get_validation_profile` raises at :162, inside
  `validate`'s `try`, so the record becomes `error` rather than staying
  `in_progress`.

## Model

| member | source | states |
|---|---|---|
| `PyText.Strip` | scene_validator/validator.py:270-274 | `strip()` returns a slice of its argument that neither starts nor ends with whitespace; the slice begins where `lstrip()` stops. With `IntBlanks` it is the trimming `int()` does. |
| `PyText.StripDropsBlanks` | scene_validator/validator.py:270-274 | Everything `strip()` drops, before and after the slice it keeps, is whitespace. With `Strip`'s own contract this pins the result down as the text with its surrounding whitespace removed. |
| `PyText.Find` | scene_validator/validator.py:269-271 | `find` returns the first index where the substring occurs, or -1. It is non-negative exactly when `sub in s`. |
| `PyText.Split` | scene_validator/validator.py:181 | `split(sep)` always returns at least one piece. |
| `PyText.SplitSingleIff` | scene_validator/validator.py:181 | `split(sep)` returns exactly one piece iff `sep` does not occur in the text. |
| `PyText.SplitPiecesClean` | scene_validator/validator.py:181 | No piece returned by `split(sep)` contains `sep`. |
| `PyText.CharAt` | scene_validator/validator.py:181 | A one-character separator occurs exactly at the positions holding that character. |
| `PyText.SplitWithoutChar` | scene_validator/validator.py:181 | Text without the character `c` does not contain it, and `split(c)` returns the text as its only piece. |
| `PyText.JoinSplit` | scene_validator/validator.py:181 | Splitting on `sep` and joining back with `sep` gives the original text. This partners `Split`. |
| `PyText.ParseInt` | scene_validator/validator.py:181 | `int()` accepts only text that is non-empty once its `int()` whitespace is trimmed. The lemmas below state what it returns. |
| `PyText.FileSeparatorNotSkipped` | scene_validator/validator.py:181 | `int()` and `strip()` trim different sets: `"\x1c1".strip()` is "1", but `int("\x1c1")` raises. |
| `PyText.ParseIntToDecimal` | scene_validator/validator.py:181 | `int(str(n)) == n` for every integer. |
| `PyText.ParseUnsigned` | scene_validator/validator.py:181 | `int()` on text with no whitespace that is a digit run reads the run's value, with underscores ignored. |
| `PyText.ParseNegative` | scene_validator/validator.py:181 | `int()` on text with no whitespace, made of "-" and then a digit run, gives the negated value of the run. |
| `TechnicalSpecs.ParseResolution` | scene_validator/validator.py:181 | Unpacking `map(int, text.split('x'))` into two names, with the pieces converted lazily: it gives `(w, h)` exactly as `ResolutionParsesIff` states, and round-trips `"{w}x{h}"` (`ResolutionRoundTrip`). Its failures are the faults `TechnicalFailsIff` shows escaping. |
| `TechnicalSpecs.ResolutionParsesIff` | scene_validator/validator.py:181 | A resolution requirement gives `(w, h)` exactly when it splits on "x" into two pieces and `int()` reads them as `w` and `h`. |
| `TechnicalSpecs.ResolutionRoundTrip` | scene_validator/validator.py:181 | A requirement written as `"{w}x{h}"` parses back to `(w, h)`. |
| `TechnicalSpecs.CheckTechnicalSpecs` | scene_validator/validator.py:177-226 | The returned check passes iff its issue list is empty. |
| `TechnicalSpecs.IssueFor` | scene_validator/validator.py:180-218 | A violated key's issue is located at that key's property name. Its severity is high for resolution and framerate, and medium for the two audio keys. |
| `TechnicalSpecs.TechnicalFailsIff` | scene_validator/validator.py:180-181 | The checker fails exactly when the resolution requirement is present and does not parse. The parse error is then what escapes. |
| `TechnicalSpecs.TechnicalIssuesAreViolations` | scene_validator/validator.py:177-218 | The issues are exactly one per violated key, in key order. Keys absent from the requirements give nothing. |
| `TechnicalSpecs.TechnicalIssuesOrdered` | scene_validator/validator.py:177-218 | Issues come in strictly increasing key rank (resolution, framerate, audio_channels, audio_sample_rate), so there is at most one per key. Each is the issue of a violated key. |
| `TechnicalSpecs.TechnicalIssueIffViolated` | scene_validator/validator.py:180-226 | There is an issue about key k iff k's requirement is present and violated. The check passes iff no key is violated. |
| `TechnicalSpecs.FramerateBoundary` | scene_validator/validator.py:191-198 | The tolerance is strict: a requirement exactly 0.01 away passes, and one 0.011 away gives exactly one framerate issue. |
| `ResponseParsing.FencedBody` | scene_validator/validator.py:270-272 | The body of a fenced block, taken after the first opening fence. It never contains "```", so a closing fence is never part of the JSON text. `FencedBodyShape` and `ExtractBareFence` say where it starts and ends. |
| `ResponseParsing.ExtractJson` | scene_validator/validator.py:269-274 | In every branch, the extracted text contains no "```" and has no surrounding whitespace. |
| `ResponseParsing.FencedBodyShape` | scene_validator/validator.py:270-272 | A fenced body is the stripped text that follows the first opening fence. It runs to the end of the text or to the start of a "```", and contains no "```". |
| `ResponseParsing.ExtractUnfenced` | scene_validator/validator.py:273-274 | With no fence in the reply, the whole reply is used, stripped. |
| `ResponseParsing.ExtractPrefersJsonFence` | scene_validator/validator.py:269-270 | When a "```json" fence is present it wins, and the body follows the first "```json". |
| `ResponseParsing.ExtractBareFence` | scene_validator/validator.py:271-272 | Without "```json", the body is the text after the first "```", cut at the first "```" after it (or running to the end), stripped. |
| `ResponseParsing.ExtractJsonBlock` | scene_validator/validator.py:269-270 | For the reply "prose ```json body ``` prose" with no other backtick, the result is the stripped body. |
| `ResponseParsing.ExtractBareBlock` | scene_validator/validator.py:271-272 | For the reply "prose ``` body ``` prose" with no other backtick, the result is the stripped body. |
| `ContentValidation.ContentIssues` | scene_validator/validator.py:266-285 | The issues read from an answer: the decoded list, or the single `validation_error` issue when reading the text or decoding raises. `ContentParsed`, `ContentParsedFromBlock` and `ContentFallback` state each case. |
| `ContentValidation.ValidateContent` | scene_validator/validator.py:261-293 | The content check passes iff its issue list is empty. |
| `ContentValidation.ContentStep` | scene_validator/validator.py:228-293 | Download, frames, prompt and analysis: once it returns a check, the check passes iff there are no issues. |
| `ContentValidation.ContentParsed` | scene_validator/validator.py:276-277 | A reply that decodes to N issues gives exactly those N issues in order. It passes iff N = 0. |
| `ContentValidation.ContentParsedFromBlock` | scene_validator/validator.py:266-277 | For a reply with one ```json block, the check holds exactly what the block's stripped body decodes to. |
| `ContentValidation.ContentFallback` | scene_validator/validator.py:278-285 | An unreadable reply or undecodable JSON gives exactly one issue: type `validation_error`, severity `high`, timecode `N/A`, description "Failed to analyze content: " plus the message. The check does not pass. |
| `ContentValidation.ContentPassesIff` | scene_validator/validator.py:266-293 | An answered reply always yields a check. It passes iff the reply decoded to an empty list. |
| `ContentValidation.ContentFailsIff` | scene_validator/validator.py:261-266 | Only the analyzer call, which is outside the `try`, makes the content check fail, and its exception escapes. |
| `ContentValidation.ContentStepFailsIff` | scene_validator/validator.py:233-266 | The content step fails iff the download, the frame extraction, building the prompt or the analyzer call fails. The first such error is the one that escapes; otherwise the step is the content check. |
| `Recommendations.FallbackRecommendations` | scene_validator/validator.py:333-338 | The stock list has one entry per issue. |
| `Recommendations.GenerateRecommendations` | scene_validator/validator.py:295-340 | No issues give `[]` without a prompt; a prompt that cannot be built raises; otherwise the decoded answer or the positional fallback. `NoIssuesNoRecommendations`, `RecommendationsFailIff`, `FallbackPositional` and `DecodedRecommendations` state each case. |
| `Recommendations.NoIssuesNoRecommendations` | scene_validator/validator.py:297-298 | No issues give no recommendations, whatever the prompt or the analyzer would do. |
| `Recommendations.RecommendationsFailIff` | scene_validator/validator.py:297-318 | Recommendations fail iff there is some issue and building the prompt (`json.dumps` of the issues or the profile) raises; that exception escapes. |
| `Recommendations.FallbackPositional` | scene_validator/validator.py:318-338 | Once the prompt was built, any failure of the call, of reading its text or of decoding gives one recommendation per issue. Entry i carries the fixed advice, its `issue_id` is `str(i)`, and `int()` reads it back as i. |
| `Recommendations.FallbackKeysDistinct` | scene_validator/validator.py:335 | The stock `issue_id`s are pairwise different. |
| `Recommendations.DecodedRecommendations` | scene_validator/validator.py:319-330 | Once the prompt was built, a decodable answer is returned as decoded. |
| `Summary.GenerateSummary` | scene_validator/validator.py:342-372 | The summary sentence: `SummaryPassedIff` and `SummaryStates` state it against the reference definitions `CountHigh` and `FirstHighKinds`. |
| `Summary.FirstHighKindsLength` | scene_validator/validator.py:364 | At most k types are named, and fewer only when there are fewer high-severity issues. |
| `Summary.HighSeverityCount` | scene_validator/validator.py:358-361 | The filter keeps as many issues as the reference count of high-severity ones. |
| `Summary.HighSeverityMembers` | scene_validator/validator.py:358-361 | An issue is kept iff it is among the issues and its severity is `high`. |
| `Summary.HighSeverityAppend` | scene_validator/validator.py:359 | Filtering technical-then-content issues keeps the technical ones first. |
| `Summary.HighSeverityKinds` | scene_validator/validator.py:364 | The types of the first k filtered issues are those of the first k high-severity issues met left to right. |
| `Summary.SummaryPassedIff` | scene_validator/validator.py:347-350 | The summary is "Validation passed successfully. No issues found." iff there are no issues at all. |
| `Summary.SummaryStates` | scene_validator/validator.py:352-372 | With issues, the summary states the total, technical and content counts. It then says "No critical issues found." or names the first three high-severity types, followed by " and N more." or ".". |
| `Summary.SummaryTechnicalFirst` | scene_validator/validator.py:359-364 | With three or more technical high-severity issues, only technical types are named. |
| `Summary.FourCriticalIssues` | scene_validator/validator.py:363-368 | Four high-severity issues name the first three types and end in " and 1 more.". |
| `Domain.FaultText` | scene_validator/validator.py:136 | `str(e)` of each fault that leaves the `try`; `MissingProfile` and `StoredMatchesOutcome` show it behind "Validation failed: " in the record. |
| `Orchestrator.GetValidationProfile` | scene_validator/validator.py:157-164 | A profile the store lacks is the "not found" fault; `MissingProfile` shows it stops the run before any download. |
| `Orchestrator.TechnicalStep` | scene_validator/validator.py:171-226 | The technical step returns only after the media was fetched and probed. It returns the comparison's check. |
| `Orchestrator.Pipeline` | scene_validator/validator.py:89-120 | The `try` body as a function of the collaborators' answers: outcome, effects and files. Characterised by `PipelineStatus`, `PipelineFailsIff`, `PipelineStoresNothing`, `SuccessEffects` and the leak lemmas below; `SceneValidator.RunChecks` is proved to compute it. |
| `Orchestrator.Concluded` | scene_validator/validator.py:122-143 | The record after the terminal update; `StoredMatchesOutcome` shows it is well formed and agrees with the outcome. |
| `Orchestrator.SceneValidator.constructor` | scene_validator/validator.py:22-47 | A new validator has no records, callbacks, files or effects. |
| `Orchestrator.SceneValidator.ValidateTechnicalSpecs` | scene_validator/validator.py:166-226 | The download is recorded. The file is removed only when the comparison returns, and the result is the technical step's. |
| `Orchestrator.SceneValidator.ValidateContent` | scene_validator/validator.py:228-293 | The download is recorded, and the frames once the prompt is built. The file is removed only once the analyzer answered, and the result is the content step's. |
| `Orchestrator.SceneValidator.GenerateRecommendations` | scene_validator/validator.py:295-340 | The analyzer is asked only for a non-empty list whose prompt was built, and the result, recommendations or the prompt's fault, is the recommendation function's. |
| `Orchestrator.SceneValidator.SendCallback` | scene_validator/validator.py:374-385 | One attempt is appended to the callbacks and one `CalledBack` to the trace, delivered or not. Nothing else changes and nothing is raised. |
| `Orchestrator.SceneValidator.RunChecks` | scene_validator/validator.py:89-120 | The `try` body runs the profile, technical, content, recommendation and summary steps in order. The first fault stops the run, and outcome, effects and files are those of `Pipeline`. |
| `Orchestrator.SceneValidator.Conclude` | scene_validator/validator.py:122-153 | The trace gains the terminal write and then, only when a URL was given, the callback. The store stays well formed. |
| `Orchestrator.SceneValidator.Validate` | scene_validator/validator.py:49-155 | `in_progress` is written first, then the pipeline's effects, the one terminal status, and last the callback if any. The outcome, a returned result or a re-raised fault, is the pipeline's. The record, the callbacks and the files are as stated. |
| `Orchestrator.PipelineResultShape` | scene_validator/validator.py:106-120 | A returned result carries the request's scene, the given id and the given timestamp. Its status is `passed` or `failed`. |
| `Orchestrator.PipelineStatus` | scene_validator/validator.py:94-120 | The status is `passed` iff both checks pass, iff there are no issues. Recommendations are over the technical issues followed by the content issues. A passed validation has no recommendations and the "passed" summary. |
| `Orchestrator.PipelineFailsIff` | scene_validator/validator.py:89-103 | A validation fails iff the profile, technical or content step fails, or building the recommendation prompt does. The first such fault is raised. |
| `Orchestrator.MissingProfile` | scene_validator/validator.py:157-164 | A profile the store lacks stops the run before any download. It is recorded as "Validation failed: Validation profile '<id>' not found". |
| `Orchestrator.StoredMatchesOutcome` | scene_validator/validator.py:122-143 | On success the terminal record stores the returned result under its status. On a fault it stores "error" and "Validation failed: " plus the fault's text. |
| `Orchestrator.PipelineStoresNothing` | scene_validator/validator.py:89-120 | The steps inside the `try` neither write the store nor post to the callback. |
| `Orchestrator.OneTerminalWrite` | scene_validator/validator.py:87-153 | The whole trace of `validate`: `in_progress` first and a single terminal write with nothing writing the store between them; no callback before the terminal write, and after it only the one callback, present iff a URL was given. |
| `Orchestrator.CallbackOnce` | scene_validator/validator.py:128-153 | One callback is attempted iff a non-empty URL was given. It carries the result on success, or the error-shaped payload on a fault. |
| `Orchestrator.CallbackFailureSwallowed` | scene_validator/validator.py:374-385 | Whether the callback gets through changes nothing about the validation. |
| `Orchestrator.SuccessCleansUp` | scene_validator/validator.py:220-221 | A returning validation leaves neither download on disk and removes nothing else. |
| `Orchestrator.BadResolutionLeaksDownload` | scene_validator/validator.py:171-181 | An unparsable resolution raises after the download. The file stays on disk. |
| `Orchestrator.ContentPromptFailureLeaksDownload` | scene_validator/validator.py:233-258 | An exception while building the content prompt raises before any frame is sent. The content download stays on disk. |
| `Orchestrator.AnalyzerFailureLeaksDownload` | scene_validator/validator.py:233-263 | A failing analyzer call raises after the frames were sent. The content download stays on disk. |
| `Orchestrator.RecommendationPromptFailure` | scene_validator/validator.py:297-311 | An exception while building the recommendation prompt raises after both checks, without asking the analyzer; both downloads are already removed. |
| `Orchestrator.RecommendationsAskedIff` | scene_validator/validator.py:99-103 | A returning validation asks for recommendations, as its last effect, iff it found some issue. |

## Left out

- `SceneValidator.__init__`'s configuration loading, API-key check and client construction are environment and library set-up. The constructor starts with empty state.
- The media processor is not part of this model: downloads, ffprobe, key-frame capture and file deletion. Each fetch is an input (`MediaFetch`): a download error, a read error after a successful download, or the metadata or frames.
- The content analyzer, the record store and `requests.post` are outside the model. Their answers are inputs (`Reply`, `profileLookup`, `callbackDelivered`). Store writes are taken to succeed.
- Prompt wording is left out. Whether building a prompt raises is an input instead: `contentPromptError` stands for `', '.join` of the tags (`validator.py:244`) or `json.dumps` of the content criteria (:249) raising, and `recommendationPromptError` for `json.dumps` of the issues (:303) or of the profile (:311) raising. Which metadata or profile values make them raise (a `null` tag list, a value `json` cannot serialise) is not modelled.
- Scene metadata and profiles are opaque `Document` values, and requirement values are typed: the resolution is a string, the framerate a `Number`, the audio values integers. A JSON value of another type is therefore not modelled: `"audio_channels": "2"`, which always compares unequal to an integer channel count, or a string framerate, whose subtraction raises `TypeError` at `validator.py:192`.
- `json.loads` and the shape of what it returns are parameters (`decodeIssues`, `decodeRecommendations`). They give a list or the exception's message. So a JSON value that is not a list of issue objects is not modelled. Neither is an issue without `type` or `severity`, or `extend` over a non-list.
- UUID generation, `datetime.utcnow()` and logging are left out. The validation id and timestamp are parameters.
- Python floats are modelled as a real value with its `str()` text. Float rounding in the framerate comparison is not captured, and the texts are taken as given.
- PyText.ParseInt: it accepts ASCII digits only, where CPython's `int()` also accepts other Unicode decimal digits. It has no digit limit, where CPython 3.10.7 and later reject a decimal string of more than 4300 digits. Its invalid-literal message (`Domain.FaultText`) quotes the raw text in single quotes, where CPython formats it with `%.200R`: the `repr` (escaped, with the quote chosen by the content) cut at 200 characters.
- A `str(e)` of a collaborator exception is taken as its message string.
- ResponseParsing.FencedBodyShape: it states that the body ends at some "```", not necessarily the first one after the opening fence. Splitting on "```json" first means a run of four backticks ends the body one character later: "```json[]````json" gives "[]`". The exact body is proved for replies with no stray backticks (`ExtractJsonBlock`, `ExtractBareBlock`).
