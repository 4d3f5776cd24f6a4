# Duplicate-content check on upload, in Dafny

This project models the upload path of a "second brain" web application. A user uploads a file. For a text file the application:

1. asks OpenAI for an embedding of the text;
2. searches the user's stored files for similar documents, using a Supabase stored procedure. When that procedure answers with an error, a local cosine-similarity scan runs instead. When the call throws, the search returns no matches and no scan runs;
3. if similar documents exist, stops and shows a modal listing them. The user then chooses "Upload Anyway" or "Cancel Upload".

Modules:

- `Common`: an optional value (JavaScript's null/undefined); the decimal text of numbers in template strings, with its inverse; the character set of `String.prototype.trim`.
- `VectorMath`: `cosineSimilarity`. The dot product and the squared norms are accumulated exactly as a loop. The final `dot / (sqrt(normA) * sqrt(normB))` is a parameter `quot`. A zero norm gives NaN, as in the source.
- `EmbeddingService`: `generateEmbedding`, `findSimilarDocuments`, `manualSimilarityCheck` and `detectConflicts`. What the network answers is passed in as data (`ProviderResponse`, `Store`). What the service asks is returned as data (`EmbeddingRequest`, `StoreCall`).
- `ConflictAlert`: what the modal renders for its props, and its `showDetails` toggle (`class AlertState`).
- `FileUpload`: the upload component as `class Uploader`.
  - Its five state variables are fields.
  - Its four handlers are methods.
  - The outside effects it causes (the conflict check, the storage upload, the row insert, the success callback) are appended to an `effects` log.
  - The `Valid()` invariant ties the alert, the stashed upload and the stashed report together.

Behaviour of the code that the model keeps on purpose:

- The fallback scan neither sorts its matches nor limits their number. The RPC's `match_count` of 5 does not apply to it (`ManualMatchesAppend`, `ManualMatchesUnlimited`).
- A preview always ends in `...`, even for content shorter than 100 characters.
- While the alert is shown, a second file selection is not refused by the handler. Only the modal overlay keeps the user away from the input.
- When the conflict check reports an error, the "Warning: Could not check for conflicts." message is overwritten at once by the upload's own messages ("Uploading file..." under the spinner, then the outcome). The warning itself is never shown.
- A null text given to `generateEmbedding` throws a TypeError at the logging line, before the blank-text guard. `detectConflicts` turns that into an error report.

## Model

| member | source | states |
|---|---|---|
| Common.NatToDecimal | src/lib/embeddingService.js:43 | the text of `${status}` is a non-empty run of digits, with no leading zero for numbers of two digits or more |
| Common.DecimalRoundTrip | src/lib/embeddingService.js:43 | reading the decimal text of a number back gives the number |
| Common.DecimalInjective | src/lib/embeddingService.js:43 | two different numbers have different decimal texts |
| Common.TrimStart | src/lib/embeddingService.js:14 | the leading half of `trim()` keeps a suffix, drops only whitespace, and what it keeps starts with a character outside `IsJsWhitespace` |
| Common.TrimEnd | src/components/FileUpload.js:30 | the trailing half of `trim()` keeps a prefix, drops only whitespace, and what it keeps ends with a character outside `IsJsWhitespace` |
| Common.BlankIffTrimEmpty | src/lib/embeddingService.js:14 | `s.trim().length === 0` holds exactly when every character is in the ECMAScript whitespace and line-terminator set (`IsJsWhitespace`), i.e. `IsBlank(s)` |
| Common.LeadingDigits | src/lib/embeddingService.js:43 | the digit run at the start of a string is maximal: all digits, followed by a non-digit or the end |
| Common.LeadingDigitsOfDecimal | src/lib/embeddingService.js:43 | the status digits in an error message end where the ` - ` separator starts |
| VectorMath.CosineSimilarity | src/lib/embeddingService.js:153-167 | the loop returns the score of the exact sums (dot product and both squared norms); a missing argument or a length mismatch returns 0 |
| VectorMath.ScoreOf | src/lib/embeddingService.js:154-166 | the score is NaN exactly for a computed ratio with a zero norm (0/0); a missing argument or a length mismatch scores 0 |
| VectorMath.SquaredNormNonNegative | src/lib/embeddingService.js:162 | the accumulated `normA` is never negative |
| VectorMath.DotSymmetric | src/lib/embeddingService.js:161 | the accumulated dot product does not depend on the argument order |
| VectorMath.ZeroNormZeroDot | src/lib/embeddingService.js:160-166 | a zero squared norm forces a zero dot product, so the division is 0/0 (NaN) and never a finite number |
| VectorMath.CosineComponents | src/lib/embeddingService.js:154-166 | the early return happens exactly for a missing argument or unequal lengths; otherwise both norms are non-negative and a zero norm comes with a zero dot product |
| VectorMath.CosineSymmetric | src/lib/embeddingService.js:153-167 | swapping the arguments swaps the norms and keeps the dot product; with the exact quotient the score is symmetric |
| VectorMath.SelfSimilarity | src/lib/embeddingService.js:153-167 | a nonzero vector scores exactly 1 against itself under the exact quotient |
| VectorMath.Negate | src/lib/embeddingService.js:153-167 | models no source line: the `-a` input of the -1 property (`OppositeSimilarity`), with the same length and every component negated |
| VectorMath.NegateSums | src/lib/embeddingService.js:160-164 | against its negation the dot product is minus the squared norm, and the negation keeps the squared norm |
| VectorMath.NegatedCosine | src/lib/embeddingService.js:153-166 | the loop's sums for a vector and its negation are (-n, n, n) |
| VectorMath.OppositeSimilarity | src/lib/embeddingService.js:153-167 | a nonzero vector scores exactly -1 against its negation under the exact quotient |
| EmbeddingService.ProviderMessageRoundTrip | src/lib/embeddingService.js:40-44 | the thrown `OpenAI API error: <status> - <body>` message carries the status and the body, both recoverable from it |
| EmbeddingService.GenerateEmbedding | src/lib/embeddingService.js:11-53 | a request is sent exactly for non-blank text with a non-empty key; blank text returns null; a missing key throws; the request carries the bearer key, the text and `text-embedding-ada-002`; a non-ok status throws with its status and body; an unreachable provider rethrows its error; an empty `data` throws a TypeError; null text throws a TypeError before any guard; null is returned exactly for blank text; an embedding is returned exactly when the provider answers ok with data, and it is the first entry |
| EmbeddingService.NoRequestNoDependence | src/lib/embeddingService.js:12-22 | when the guards stop the call, the provider's answer does not affect the outcome |
| EmbeddingService.ManualSimilarityCheck | src/lib/embeddingService.js:119-150 | the loop returns the in-order scan of the rows returned (nothing when the select throws); no more entries than rows; every similarity strictly above the threshold |
| EmbeddingService.ManualMatches | src/lib/embeddingService.js:127-145 | the reference scan keeps at most one entry per row, and every kept similarity is strictly above the threshold |
| EmbeddingService.QualifiesOnDegenerateRows | src/lib/embeddingService.js:131-134 | a zero vector on either side scores NaN and is never kept, whatever the threshold; a row of another length scores 0 and is kept exactly when the threshold is negative |
| EmbeddingService.ManualMatchesAppend | src/lib/embeddingService.js:127-145 | the scan distributes over concatenation of the rows: it keeps row order and never sorts |
| EmbeddingService.ManualMatchesExact | src/lib/embeddingService.js:129-143 | every entry comes from a row with an embedding whose score is a number above the threshold, and every such row contributes its entry |
| EmbeddingService.ManualMatchesUnlimited | src/lib/embeddingService.js:127-145 | when every row qualifies, all rows are returned: no count limit |
| EmbeddingService.FindSimilarDocuments | src/lib/embeddingService.js:56-116 | no embedding means no call and `[]`; the listing select comes first, and a thrown listing ends the search with that one call and `[]`; after a listing that did not throw, the RPC with `match_count` 5 is the second and last call unless it reports an error, in which case the fallback select is the third; the fallback select runs exactly when the RPC reports an error, and its scan is the result; RPC data (or `[]` for null) is returned as is; a thrown listing or RPC gives `[]` |
| EmbeddingService.ListingIsIgnored | src/lib/embeddingService.js:69-81 | the preliminary listing's rows and error never change the search result |
| EmbeddingService.FallbackMatchesQualify | src/lib/embeddingService.js:94-100 | on the fallback path every match scores above the threshold and comes from a stored row with an embedding |
| EmbeddingService.JsRound | src/lib/embeddingService.js:195 | `Math.round` gives the integer within one half below or strictly less than one half above |
| EmbeddingService.Preview | src/lib/embeddingService.js:196 | null or empty content gives `No preview available`; otherwise the first 100 characters (or all of them) followed by `...` |
| EmbeddingService.ToConflicts | src/lib/embeddingService.js:192-197 | one conflict per similar document, in order |
| EmbeddingService.DetectConflicts | src/lib/embeddingService.js:170-212 | the embedding request is the one `generateEmbedding` makes; `hasConflicts` holds exactly when the list is non-empty; an error report has no conflicts, no embedding and no store calls; when `generateEmbedding` returns null (blank text) the report is `{hasConflicts: false, conflicts: []}` and no search is made |
| EmbeddingService.DetectConflictsReport | src/lib/embeddingService.js:178-207 | with an embedding, the report carries it, its store calls are those of one search at threshold 0.85, and each conflict is the matching document's id, name, rounded percentage and preview |
| EmbeddingService.DetectConflictsDegrades | src/lib/embeddingService.js:208-211 | a failing embedding call gives `{hasConflicts: false, conflicts: [], error: message}` |
| EmbeddingService.PercentInRange | src/lib/embeddingService.js:195 | a similarity in [0, 1] is reported as an integer percentage in [0, 100] |
| EmbeddingService.IdenticalContentConflicts | src/lib/embeddingService.js:170-204 | on the fallback path (the RPC's answer is an input to the model, and here it is an error), text whose embedding equals that of any one of the owner's stored files yields a report with conflicts that includes that file at 100% |
| ConflictAlert.BadgeTier | src/components/conflictAlert.js:45-49 | red from 95 up, yellow from 90 below 95, orange below 90 |
| ConflictAlert.DocumentNoun | src/components/conflictAlert.js:24 | the noun is plural exactly for more than one conflict |
| ConflictAlert.HeadingPlural | src/components/conflictAlert.js:24 | the heading reads `documents` exactly when the count exceeds one |
| ConflictAlert.Render | src/components/conflictAlert.js:3-72 | nothing for a null or empty list; otherwise the heading for the count, one card per conflict in order with its key, name and badge tier, previews exactly while details are shown, and the toggle's label |
| ConflictAlert.AlertState.constructor | src/components/conflictAlert.js:4 | a mounted alert starts with previews hidden |
| ConflictAlert.AlertState.ToggleDetails | src/components/conflictAlert.js:67-71 | the button flips `showDetails` |
| FileUpload.IsTextFileIff | src/components/FileUpload.js:25 | a file is read as text exactly when its type is `text/` followed by anything or its name ends in `.txt` |
| FileUpload.BlobKeyInjective | src/components/FileUpload.js:69 | the same file uploaded by the same user at two different times goes to two different storage keys |
| FileUpload.ReportFailed | src/components/FileUpload.js:36 | a report counts as failed only when it has an error, and an empty error message is falsy so it does not count |
| FileUpload.ErroredReportNeverStops | src/components/FileUpload.js:36-46 | a report from `detectConflicts` that carries an error never stops the upload, and a report that stops it carries the embedding to stash |
| FileUpload.CommitEffects | src/components/FileUpload.js:64-98 | the blob upload under `${userId}/${now}_${name}` comes first; the row insert follows exactly when the upload succeeded; the success callback follows exactly when both succeeded |
| FileUpload.CommitWritesBlobFirst | src/components/FileUpload.js:68-91 | one blob upload per commit, a row insert only right after it, and the success callback exactly when nothing failed |
| FileUpload.Uploader.constructor | src/components/FileUpload.js:7-11 | the component starts idle, with no message, no stash and no effects |
| FileUpload.Uploader.ProceedWithUpload | src/components/FileUpload.js:64-98 | performs the commit effects, rethrows the first error, sets the success message only on success, and clears `uploading` on every path |
| FileUpload.Uploader.HandleFileUpload | src/components/FileUpload.js:15-62 | no file changes nothing; an unreadable text file shows the error and writes nothing; a non-text or blank file is committed with a null embedding; text is checked once and is either stashed with the report and its embedding (alert shown) or committed with the report's embedding; the invariant is kept |
| FileUpload.Uploader.ActOnReport | src/components/FileUpload.js:36-49 | an error report or one without conflicts commits; a report with conflicts stashes the upload and shows the alert without writing |
| FileUpload.Uploader.HandleConflictProceed | src/components/FileUpload.js:100-116 | commits the stashed file, content and embedding without a second check, reports the outcome and clears the stash |
| FileUpload.Uploader.HandleConflictCancel | src/components/FileUpload.js:118-124 | discards the stash, clears the message and writes nothing |
| FileUpload.AwaitingDecisionRendersAlert | src/components/FileUpload.js:161-168 | while awaiting a decision the alert renders (never the empty-list `null`), with one card per stashed conflict |
| FileUpload.ProceedUsesReportEmbedding | src/components/FileUpload.js:42 | the row written on "Upload Anyway" carries exactly the embedding of the report that stopped the upload |

## Left out

- Network and database I/O: the answers of OpenAI and Supabase are parameters, not computed. The `find_similar_documents` stored procedure is not part of this model, so RPC results are taken as given.
- Floating point: sums are exact reals. `Math.sqrt` and the final division are the parameter `quot`. `ExactQuotient` states only what the exact quotient satisfies.
- Console logging: not modelled, except where a logging line throws. `generateEmbedding` has two such lines: line 12 on a null text (`NullTextMessage`), and line 47 on an empty `data.data` (`NoEmbeddingMessage`). The `fileName` argument of `detectConflicts` is only logged, so it is omitted.
- The `EmbeddingService` constructor reads the key from the environment. Here the key is the `apiKey` field of `Environment`.
- `Date.now()` is the parameter `now`.
- Concurrency and React scheduling: each handler runs as one step, state updates apply at once, and no two handlers interleave. `uploading` is therefore false between handlers, and the spinner and the disabled input are not modelled.
- A throwing `onUploadSuccess` callback, and the clearing of the file input (`event.target.value = ''`), are not modelled.
- JSX markup and styling are not modelled. A render is the texts and choices in `ConflictAlert.View`. The upload component's own message area (the `Error` colouring) is not modelled.
- Strings are sequences of Unicode code points. `substring(0, 100)` in JavaScript counts UTF-16 code units, which differs for characters outside the Basic Multilingual Plane.
- A stored embedding is taken to be an array of numbers. pgvector may return it as text, which the fallback would then compare as a string of a different length. This is not modelled.
- The other files of the repository (the file list, the dashboard, the test page) are not part of this model.
- EmbeddingService.JsRound: `Math.round` of a double is modelled on exact reals.
