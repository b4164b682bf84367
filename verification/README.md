# MeetFlow meeting pipeline — a Dafny model

MeetFlow turns an uploaded meeting recording into a transcript with a local
faster-whisper model and then asks a Groq-hosted language model for an
executive summary and a list of action items. This project models the
control flow of that pipeline and proves properties of it:

- **the analysis fallback loop** (`AnalysisService.analyze_meeting`, and its
  inline copy in `app.py`): candidate model names are tried in order, one
  request each. A failed request moves on to the next candidate. Content
  that `json.loads` accepts is returned unchanged. Content on which it raises
  `JSONDecodeError` ends the loop with a degraded dictionary holding at most
  500 characters of the raw text; any other exception it raises moves on to
  the next candidate. If no candidate answers, the call raises `All models failed. Last error: …`;
- **the transcription service**: the lazily loaded model, transcript
  assembly (`seg + " "` per segment, then `strip()`), the three-key metadata
  record, and the temporary file of an uploaded recording with its suffix
  rule and cleanup;
- **the script's presentation logic**: `load_whisper_model` returning None,
  the placeholder that replaces a failed analysis so the transcript is still
  shown, and the defaults used to display the summary and numbered action items.

Modules: `Wrappers` (Option, Result), `Json` (decoded values, `dict.get`,
Python truthiness), `Text` (`str.isspace`, `strip`, slicing, `posixpath.splitext`),
`Analysis`, `Transcription` and `App`.

External collaborators are parameters:
- the chat-completion service is a sequence `replies`, where `replies[i]` is what the i-th request got back;
- `json.loads` is a function `parse: string -> Parse` with three outcomes: `Decoded(v)` for a returned value (`JNull` for a parsed `null`), `DecodeError` for `JSONDecodeError`, and `OtherError(message)` for any other exception, such as the `ValueError` for an integer literal longer than 4300 digits or a `RecursionError` for deep nesting;
- the Whisper constructor and the decoder are functions returning a `Result`;
- the filesystem is the set of paths that exist.

The fallback loop is written as a recursive fold (`Analysis.Fold`) over the
candidates. It is proved equal to an independent definition
(`Analysis.Verdict`) that reads the outcome off the first reply that ends the
loop: a reply with content on which `json.loads` returns or raises
`JSONDecodeError`.

Points where the code differs from a natural reading of the design:
- parsed JSON is returned with no check that `resume_executif` or `action_items` is present;
- a first content that parses to `null` makes the call raise, even though a candidate answered and later candidates were never asked;
- a reply without content (`message.content` None) counts as a request failure, because `json.loads(None)` raises `TypeError`, not `JSONDecodeError`;
- content on which `json.loads` raises anything but `JSONDecodeError` also counts as a request failure, so the next candidate is asked instead of degrading to the raw text;
- an item without an owner is displayed as `Not assigned`; "To be determined" appears only in the prompt;
- the transcript can be empty: an empty segment sequence gives `""`;
- the service holds one model for its size, fixed when the service is constructed.

In every case the model follows the code.

## Model

| member | source | states |
|---|---|---|
| Text.Strip | backend/services/transcription_service.py:85 | the stripped text has no whitespace at either end, is an infix of the input with only whitespace around it, and is empty for an all-whitespace input |
| Text.StripOfPadded | backend/services/transcription_service.py:85 | stripping any whitespace padding off a string with no edge whitespace gives back exactly that string, so strip is determined by its result |
| Text.Truncate | backend/services/analysis_service.py:134 | the degraded summary is a prefix of the raw text of at most 500 characters; it is the whole text when that is at most 500 long, and exactly 500 characters otherwise |
| Text.SplitExt | backend/services/transcription_service.py:125 | root and extension concatenate back to the name; a non-empty extension starts with '.' and has no further '.' or '/', and the last component has a non-dot character before it, so leading dots never start an extension |
| Text.SplitExtFindsExtension | backend/services/transcription_service.py:125 | conversely, a last path component with a non-dot character before ".e" (e free of '.' and '/') has extension ".e" |
| Analysis.Fold | backend/services/analysis_service.py:111-121 | the loop sends at most one request per candidate, in list order, the i-th one for the i-th candidate |
| Analysis.FoldMatchesVerdict | backend/services/analysis_service.py:111-142 | the loop's outcome equals the reference definition read off the first reply that ends it (content that parses or raises JSONDecodeError); the loop asks exactly the candidates up to and including that reply, or all of them when there is none |
| Analysis.ResultIsVerdict | backend/services/analysis_service.py:111-147 | the returned value or raised error of analyze_meeting is determined by the first reply that ends the loop and the errors before it |
| Analysis.AnalyzeMeeting | backend/services/analysis_service.py:84-121 | None means the three default models in order, and an explicit list, even an empty one, is used unchanged; every request carries the same system prompt, "Analyze this meeting transcription:\n\n" followed by the transcript, temperature 0.7 and a json_object format |
| Analysis.DegradedResult | backend/services/analysis_service.py:133-136 | the degraded dict has exactly the summary and action_items keys, an empty item list, and a summary that is the raw text cut to its first 500 characters |
| Analysis.Finish | backend/services/analysis_service.py:144-147 | the call raises exactly when the loop ran out or parsed null, with "All models failed. Last error: " followed by the last error or "None"; otherwise the parsed value or the degraded dict is returned |
| Analysis.ParsedContentReturnedUnchanged | backend/services/analysis_service.py:111-147 | the first content that parses to a non-null value is returned unchanged, and no later candidate is asked |
| Analysis.UnparsedContentDegrades | backend/services/analysis_service.py:124-137 | content on which json.loads raises JSONDecodeError ends the loop; the result is a dict with exactly the summary and action_items keys, the summary is a prefix of the raw text of at most 500 characters (the whole text if short enough), and the item list is empty |
| Analysis.UnansweredExhausts | backend/services/analysis_service.py:107-145 | when no reply ends the loop (request errors, missing content, content on which json.loads raises anything but JSONDecodeError), every candidate is asked once and the call raises "All models failed. Last error: " followed by the last failure, (the request error, the NoneType message, or the parse exception's text), or "None" for an empty list |
| Analysis.NullContentRaises | backend/services/analysis_service.py:124-145 | a first content that parses to JSON null stops the loop and raises the all-failed error with the error seen before it |
| Analysis.RaisesIffNoUsableContent | backend/services/analysis_service.py:144-145 | the call raises exactly when no reply ends the loop or the first one that does parses to null |
| Analysis.FailedCandidateIsTransparent | backend/services/analysis_service.py:140-142 | a candidate that does not end the loop, at the head of the list, does not change the result when a later candidate ends it with anything but null |
| Analysis.StopIndependentOfPrompt | backend/services/analysis_service.py:91-121 | the loop's outcome does not depend on the prompt text, and requests differ only in their system message |
| Transcription.NewService | backend/services/transcription_service.py:15-23 | a new service holds no model and keeps the chosen size, "base" when none is given |
| Transcription.LoadModel | backend/services/transcription_service.py:35-47 | the constructor (size, cpu, int8) runs only when no model is held; success stores and returns the model; failure raises "Error loading Whisper model: …" and leaves the state unchanged |
| Transcription.LoadModelIdempotent | backend/services/transcription_service.py:35-47 | a second load after a successful one constructs nothing and returns the same instance |
| Transcription.FailedLoadRetries | backend/services/transcription_service.py:36-45 | after a failed load the service is unchanged, so the next load constructs again |
| Transcription.Transcript | backend/services/transcription_service.py:81-85 | the transcript has no leading or trailing whitespace, and no segments give "" |
| Transcription.AssembleTranscript | backend/services/transcription_service.py:81-85 | the segment loop with `text += seg + " "` and a final strip computes the transcript |
| Transcription.TranscriptIsStrippedJoin | backend/services/transcription_service.py:81-85 | the transcript equals `" ".join(segments).strip()` |
| Transcription.TranscriptOfCleanSegments | backend/services/transcription_service.py:81-85 | for non-empty segments without edge whitespace, the transcript is exactly the segments in order joined by single spaces |
| Transcription.Metadata | backend/services/transcription_service.py:88-92 | metadata has exactly the keys language, language_probability and duration, copied from info, with duration null when absent |
| Transcription.TranscribeAudioFile | backend/services/transcription_service.py:69-97 | the model is loaded first when absent, and a load error propagates unwrapped; a decode or segment error becomes "Error during transcription: …"; success gives the transcript and metadata of the decoded file |
| Transcription.HiddenNameGetsDefaultSuffix | backend/services/transcription_service.py:125 | an upload named like ".wav" (leading dot, no other dot), under any directory, is stored with the ".mp3" suffix |
| Transcription.UploadSuffix | backend/services/transcription_service.py:125 | the suffix is the upload's extension when it has one, ".mp3" otherwise, and always starts with '.' |
| Transcription.TranscribeUploadedAsWritten | backend/services/transcription_service.py:120-156 | as written: a failed creation leaves the disk unchanged; a failed write leaves the temporary file on disk; every later exit removes it |
| Transcription.AsWrittenLeaksOnWriteFailure | backend/services/transcription_service.py:126-128 | an upload whose write fails leaves its temporary file on disk |
| Transcription.TranscribeUploaded | backend/services/transcription_service.py:120-156 | with the path recorded at creation, no temporary file outlives the call on any exit; errors are re-raised unchanged; success is the transcription of the temporary file |
| Transcription.UploadVersionsAgreeUnlessWriteFails | backend/services/transcription_service.py:140-156 | the corrected and the as-written upload agree on every input except a failed write |
| App.LoadWhisperModel | app.py:70-85 | the script's loader gives the model when construction succeeds and None instead of raising when it fails |
| App.InlineAnalysis | app.py:220-262 | the inline loop has the service's outcome for the default candidates, and sends the same requests apart from the indentation of its prompt copy |
| App.AnalysisOrPlaceholder | app.py:265-271 | a successful analysis is used as is; any analysis failure becomes the placeholder dictionary |
| App.RenderLines | app.py:317-319 | items are numbered consecutively, each with its task (default "Task not specified") and owner (default "Not assigned"), and rendering fails exactly when some item is not a dictionary |
| App.Render | app.py:307-327 | rendering fails exactly on a non-dictionary result or a truthy non-list or non-dictionary item; the summary defaults to "No summary available"; the notice appears exactly when the item list is falsy (missing means empty); otherwise items are numbered from 1 with their defaults |
| App.BuiltResultsRenderWithoutItems | app.py:265-271 | the placeholder and any degraded result render as their summary with the "no action items" notice |
| App.MissingOwnerShowsDefault | app.py:319 | an item without an owner is shown as item 1 owned by "Not assigned" |
| App.DownloadName | app.py:299 | the download name is the upload name between "transcription_" and ".txt" |
| App.RunPipeline | app.py:125-166 | the script stops when the model is None; otherwise the transcript is shown exactly when transcription succeeded, whatever the analysis did, together with the placeholder-protected analysis and its rendering |
| App.AnalysisFailureShowsPlaceholder | app.py:265-271 | when no reply ends the analysis loop (every candidate fails), the analysis shown beside the transcript is the placeholder, displayed as its summary with the "no action items" notice |

## Left out

- Streamlit calls, status updates, error-help message matching (app.py:180-185) and the footer: presentation only.
- Groq client construction, the API key lookup and the HTTP call: network and configuration. Each request's reply is an input.
- faster-whisper decoding, language detection and beam search: the decoder is a function from the model and call arguments to segments and info, or an error. A failure while draining the lazy segment generator is the same error as a failure of the call.
- `json.loads` is the `parse` function. Objects are maps, so a repeated key keeps one value, as in Python.
- Floating point: probabilities, durations and JSON numbers are exact reals that are copied through. JSON numbers that Python rounds to 0.0 (for example 1e-400) are falsy in Python but not in the model.
- Exception texts (`str(e)`) are strings supplied by the oracles. The rendering errors are named only by their exception class.
- A `JSONDecodeError` raised by the request itself reaches the `JSONDecodeError` handler. Before any response exists, `if response:` is false and the loop continues; the model's `RequestError` covers this. After an earlier candidate produced a response, that stale response is used instead. Its content is None (a `TypeError` "object of type 'NoneType' has no len()" then escapes the call), or the string `json.loads` rejected with another exception (the call then returns a degraded dict of that old content). These two outcomes are not modelled; `RequestError` stands for such a request.
- `@st.cache_resource` memoisation of `load_whisper_model`: framework caching.
- The temporary-file handling inline in app.py:134-147 and 171-194 is not modelled. The service's version is modelled. The inline version records the path after the write in the same way.
- Deleting a temporary file is assumed to succeed. The source ignores a failing unlink, or only prints a warning.
- `os.path.splitext` is modelled for POSIX paths only; Windows drive letters and backslashes are not modelled.
- The `sys.path`/importlib fallback of analysis_service.py:12-41, test_imports.py and frontend/app.py (the UI over the two services, which repeats app.py's placeholder and display code) are not part of this model.
- Transcription.TranscribeUploadedAsWritten: the contract gives the result only when creation or the write fails. On the other paths it agrees with the corrected version, which `UploadVersionsAgreeUnlessWriteFails` states.

## Findings

| source | as written | input that shows it | evidently intended | confidence | as-written member | corrected member |
|---|---|---|---|---|---|---|
| backend/services/transcription_service.py:126-128 | `temp_file_path` is assigned only after `temp_file.write(...)`, and the file was created with `delete=False`, so a write that raises leaves the temporary file on disk; neither cleanup block sees its path | upload "meeting.wav", temporary name "/tmp/tmpab12cd", write raises "No space left on device": "/tmp/tmpab12cd.wav" remains | the path is recorded as soon as the file exists, so the except and finally blocks delete it on every exit | medium, not executed | Transcription.AsWrittenLeaksOnWriteFailure | Transcription.TranscribeUploaded |
