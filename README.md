# License plate server — a verified model of its decision core

The server reads a picture, runs text recognition on it, and decides what to
do about the licence plate it sees. It accepts pictures two ways: uploaded to
`/AnalyzePicture`, or fetched from a phone camera by `/WebcamPicture`. It
keeps a `plates` table that maps each plate to a free-form status.

The handlers work in four steps:

1. They walk the recognition result line by line, word by word.
2. They keep the first word whose text matches the Swedish plate pattern
   `^[A-Z]{3}\s?\d{2,3}[A-Z]?$` and whose confidence is above 0.5.
3. They strip the spaces from that text and look the plate up.
4. They act on the status:
   - "Godkänd" opens the gate;
   - an unknown plate is reported by the upload handler, and inserted as
     "Ej Godkänd" and notified by the camera handler;
   - any other status is refused (upload handler) or notified as known
     (camera handler).

Four more handlers maintain the table: add, delete, update status, list.

This project is a Dafny model of all of that. It is mixed, as the code is:
- the pattern test and the status-to-action branching are functions;
- the extraction loops are methods with loop invariants, proved against
  specification functions;
- the table is a class holding a `map<string, string>` field, with one method
  per handler or SQL statement.

| file | module | contents |
|---|---|---|
| `wrappers.dfy` | `Wrappers` | `Option` |
| `plate_grammar.dfy` | `PlateGrammar` | the character classes of Python's `re`, the pattern as a left-to-right matcher (`MatchFrom`), its language (`PlateParts`, `Render`), `text.replace(" ", "")` |
| `ocr_scan.dfy` | `OcrScan` | the recognition result (`Word`, `Line`, `OcrResult`), the scan specification (`FirstAcceptedFrom`, `ScanFrom`, `Candidate`), the loops of both handlers |
| `decision.dfy` | `Decision` | the responses and outbound calls, and the branching after the lookup in both handlers |
| `registry.dfy` | `Registry` | the `plates` table as the class `PlateRegistry`, and the `/UpdatePlate` outcome |
| `pipeline.dfy` | `Pipeline` | each handler end to end: as a function (`AnalyzeRun`, `WebcamRun`) and as a method on a `PlateRegistry` |

Python's semantics are modelled as they are, not as they look:
- `[A-Z]` is the 26 ASCII capitals.
- `\s` is every character for which `str.isspace()` holds, so a tab, a
  no-break space or a line feed can be the separator.
- `\d` is every Unicode decimal digit (category Nd, Unicode 13.0). It is
  defined as 65 runs of ten code points.
- `$` matches at the end of the text or just before one final "\n".
- `replace(" ", "")` removes only U+0020. A tab separator, or a final "\n",
  stays in the plate.
- `confidence` is a `real`.

Three behaviours of the code are easy to misread; the model follows the code:
- **Unreachable gate or notifier.** An exception from the HTTP client when
  posting to `/ControlGate` or a notification endpoint is not absorbed into
  the answer's `action` text. It leaves the `async with` block and is caught
  by the handler's `except Exception`, which answers `{"error": str(e)}` (`Error(GateUnreachable)`,
  `Error(NotifierUnreachable)`). In the camera handler the insert of a new
  plate is already committed by then, so the row stays.
- **Missing result or line in the upload handler.** The upload handler does
  not treat a `None` result or a `None` line of words as "no plate". Its
  `for` raises a `TypeError` outside every `try`, which is an HTTP 500
  (`Crashed`, `InternalServerError`).
- **Camera fetch failure.** An exception while fetching the camera picture is
  also outside the `try`, so it is also a 500. A non-200 reply answers
  `{"error": "Kunde inte hämta bilden från mobilen"}`.

Inputs that stand for I/O:
- the recognition result (`OcrResult`);
- the camera's reply and the replies of `/ControlGate` and the notification
  endpoints (`HttpReply`: a status code, or `Unreachable` for a client
  exception);
- the table's contents before the request.

A `Decision` records the response, the outbound calls in order, and the row
to insert, if any.

## Model

| member | source | states |
|---|---|---|
| PlateGrammar.IsPlateLetter | server.py:67 | defines `[A-Z]`: exactly the 26 ASCII capitals, no other letter |
| PlateGrammar.IsWhitespace | server.py:67 | defines `\s`: exactly the code points for which `str.isspace()` holds (U+0009-U+000D, U+001C-U+0020, U+0085, U+00A0, U+1680, U+2000-U+200A, U+2028, U+2029, U+202F, U+205F, U+3000) |
| PlateGrammar.IsDecimalDigit | server.py:67 | defines `\d`: exactly the 650 code points of the 65 runs of ten decimal digits of Unicode 13.0 (category Nd), the ASCII digits among them |
| PlateGrammar.MatchesPlatePattern | server.py:67 | defines `re.match(r'^[A-Z]{3}\s?\d{2,3}[A-Z]?$', text)` as a left-to-right matcher over the three classes; its language is characterised by `MatchesPlatePatternIff` |
| PlateGrammar.IsAccepted | server.py:67 | defines the filter: a word is accepted exactly when its text matches the pattern and its confidence is strictly above 0.5 |
| PlateGrammar.ClassesDisjoint | server.py:67 | `\d`, `\s` and `[A-Z]` share no character, so the pattern needs no backtracking |
| PlateGrammar.MatchedIsRendered | server.py:67 | every text the matcher accepts is three capitals, an optional whitespace character, two or three decimal digits and an optional capital, with at most one final "\n" after it |
| PlateGrammar.RenderedIsMatched | server.py:67 | every such well-formed text, with or without one final "\n", is accepted by the matcher |
| PlateGrammar.MatchesPlatePatternIff | server.py:67 | the pattern test holds exactly for the well-formed texts, optionally followed by one "\n" (both directions) |
| PlateGrammar.StripSpaces | server.py:68 | defines `text.replace(" ", "")`: every U+0020 removed, every other character kept in order; its properties are in `StripSpacesFacts` and `StripSpacesAppend` |
| PlateGrammar.StripSpacesFacts | server.py:68 | the stripped text holds no space and is no longer; a text without spaces comes back unchanged |
| PlateGrammar.StripSpacesAppend | server.py:68 | stripping distributes over concatenation |
| PlateGrammar.StrippedPlate | server.py:68 | a matched plate keeps its letters, digits and suffix; its separator is dropped only when it is the ASCII space |
| PlateGrammar.StrippedNewline | server.py:68 | a final "\n" survives the stripping |
| PlateGrammar.StrippedPlateLength | server.py:67-70 | a text that passes the pattern strips to at least five characters, so `if plate_number:` always holds after a match |
| PlateGrammar.ExampleSpacedPlate | test_ocr.py:36 | the repository's test plate "HET 69A" passes the filter at confidence 0.9 |
| PlateGrammar.ExampleSpacedPlateStripped | server.py:68 | "HET 69A" becomes the plate "HET69A" |
| PlateGrammar.ExampleCompactPlates | server.py:67 | "ABC12A" and "XYZ123" pass above 0.5; confidence exactly 0.5 is refused |
| PlateGrammar.ExampleRefusedTexts | server.py:67 | lower-case letters and a fourth digit do not match |
| PlateGrammar.ExampleTrailingNewline | server.py:67 | one final "\n" is accepted and two are not |
| OcrScan.FirstAcceptedFrom | server.py:60-69 | the index of the first word at or after `j` that is a `(text, confidence)` pair passing the filter, with none before it; none at all when no later word passes |
| OcrScan.ScanFrom | server.py:59-71 | a hit is the first accepted word of the first line holding one; every earlier line has no accepted word; a `None` line before any hit is skipped by the camera handler and makes only the upload scan raise |
| OcrScan.ScanWords | server.py:60-69 | the inner loop with its `break` finds a plate exactly when some word is accepted; it is the stripped text of the first accepted word, and is never empty |
| OcrScan.Candidate | server.py:56-71 | defines what `plate_number` holds after the loops: the stripped text of the scan's hit, nothing, or (upload handler only) the `TypeError` on a `None` result or an early `None` line; the camera handler's `if ocr_result:` makes a `None` result nothing |
| OcrScan.ExtractUpload | server.py:56-71 | the upload handler's nested loops compute the candidate of the specification, raising on a `None` result or a `None` line reached before the plate |
| OcrScan.ExtractWebcam | server.py:275-294 | the camera handler's loops, guarded by `if ocr_result:` and `if line:`, compute the candidate of the specification |
| OcrScan.FirstMatchWins | server.py:59-71 | the chosen word passes the filter and no word before it in line-then-word order does, whatever the confidences |
| OcrScan.FoundIsFirstAccepted | server.py:59-71 | a found plate is the space-stripped text of an accepted word that no accepted word precedes |
| OcrScan.HitIsAccepted | server.py:59-71 | a scan that stops has stopped at an accepted word |
| OcrScan.WebcamFindsAnyMatch | server.py:278-292 | when any word is accepted, the camera handler finds a plate, at that word or an earlier one |
| OcrScan.WebcamNoMatch | server.py:278-294 | with no accepted word, an empty result, or only empty and missing lines, the camera handler finds no plate |
| OcrScan.UploadCrashesFrom | server.py:59-60 | from line `i`, the upload scan raises exactly when a `None` line comes before every line with an accepted word |
| OcrScan.UploadCrashes | server.py:59-60 | the upload handler raises exactly when the result is `None` or a `None` line precedes every accepted word |
| OcrScan.VariantsAgreeFrom | server.py:279-292 | on lines that all hold words, the two scans agree from every line on |
| OcrScan.VariantsAgree | server.py:279-292 | on a result without `None` entries, both handlers pick the same plate |
| OcrScan.UploadHitWebcamAgreesFrom | server.py:279-292 | from line `i`, where the upload scan hits, the camera scan hits the same word |
| OcrScan.UploadFoundWebcamAgrees | server.py:279-292 | a plate the upload handler finds is the plate the camera handler finds on the same result |
| OcrScan.ExampleFirstNotSurest | server.py:279-292 | of two plates in one line, the first is picked although the second has higher confidence; a malformed word before them is skipped |
| OcrScan.SingleWordCandidate | server.py:61-69 | a result of one word yields that word's stripped text exactly when it passes the filter, and nothing otherwise, in both handlers |
| Decision.OpenGate | server.py:85-100 | posts to `/ControlGate`; keeps plate and "Godkänd"; the action is "Grinden har öppnats." exactly on a 200 reply and "Kunde inte öppna grinden." on any other code; a client exception gives an error answer |
| Decision.UploadDecision | server.py:82-104 | "Godkänd" gives exactly the `OpenGate` answer and call; an unknown plate is "not in database" with no call; any other status answers the plate, that status and "Statusen tillåter inte grindöppning." with no call; nothing is ever inserted |
| Decision.WebcamDecision | server.py:304-345 | exactly one call: gate for "Godkänd", known-plate notification for another status, unknown-plate notification for a missing plate; a row "Ej Godkänd" is inserted exactly for a missing plate; plate and status are reported, "Ej Godkänd" for a new plate; the "Godkänd" branch is `OpenGate`'s answer; outside it, the answer is an identification exactly when the notifier answered, with the action "Ny registreringsskylt tillagd och notis skickad." for a new plate and "Notis skickad för Ej Godkänd registreringsskylt." for a known one, and an error answer when the notifier raised |
| Registry.UpdateOutcomeAsWritten | server.py:167-174 | as written, a missing plate gives HTTP 500, because `HTTPException` is never imported; a matched row gives "Status för … har uppdaterats till …" |
| Registry.UpdateOutcomeIntended | server.py:167-170 | as intended, a missing plate gives HTTP 404 "Registreringsnumret hittades inte i databasen."; a matched row gives "Status för … har uppdaterats till …" |
| Registry.UpdateMissingPlateFinding | server.py:167-168 | with zero rows matched, the code answers 500 where 404 is intended; the two agree when the row exists |
| Registry.StatusOf | server.py:78-83 | defines the SELECT's `fetchone()`: the row's status when the plate has a row, nothing otherwise; `PlateRegistry.Lookup` is proved to compute it |
| Registry.PlateRegistry.Lookup | server.py:78-79 | the SELECT finds a status exactly when the plate has a row, and it is that row's status |
| Registry.PlateRegistry.AddPlate | server.py:119-131 | an existing plate reports "finns redan" and leaves the table unchanged; otherwise exactly that plate is added, with the status given, and nothing else changes |
| Registry.PlateRegistry.Insert | server.py:333-335 | the camera handler's INSERT adds exactly the new row |
| Registry.PlateRegistry.DeletePlate | server.py:143-148 | only the given plate is removed; success is reported whether or not it was there |
| Registry.PlateRegistry.UpdatePlate | server.py:161-170 | only an existing plate's status changes; an absent plate leaves the table unchanged and gives the intended 404 outcome (as written, the code answers 500; see `UpdateOutcomeAsWritten` and "## Findings") |
| Registry.PlateRegistry.ListPlates | server.py:213-220 | one row per plate, each with its status, no plate twice, every plate present |
| Pipeline.AnalyzeRun | server.py:45-111 | defines the upload handler's answer: a 500 when the loops raise, "Ingen registreringsskylt kunde identifieras." without a plate, otherwise `UploadDecision` on the looked-up status; it never changes the table |
| Pipeline.WebcamRun | server.py:254-352 | defines the camera handler's answer and new table: a 500 when the camera fetch raises, the `{"error"}` answer on a non-200 reply, "no plate" without one, otherwise `WebcamDecision` on the looked-up status, with its row inserted |
| Pipeline.AnalyzePicture | server.py:56-111 | the upload handler (loops, lookup, branching) computes `AnalyzeRun` on the current table and does not write it |
| Pipeline.WebcamPicture | server.py:260-352 | the camera handler computes `WebcamRun`, and the table afterwards is the one `WebcamRun` gives |
| Pipeline.UnidentifiedLeavesRegistry | server.py:110-111 | without a plate, both handlers answer "Ingen registreringsskylt kunde identifieras." (the upload handler answers a 500 if it raised), make no call and leave the table as it was |
| Pipeline.EmptyResultIsNoPlate | server.py:278-294 | for the camera handler, an empty result or one with only empty and missing lines is "no plate", and the table is unchanged |
| Pipeline.GateOpenIffApproved | server.py:85-88 | both handlers command the gate exactly when the plate they found has the status "Godkänd" |
| Pipeline.GateFailureKeepsDecision | server.py:89-100 | for every result where the upload handler finds an approved plate, both handlers keep plate and status; only the action tells a 200 from another code; the table is unchanged |
| Pipeline.UploadNeverRegisters | server.py:103-104 | the upload handler never inserts; an unknown plate is reported "not in database" with no call |
| Pipeline.FirstSightingRegisters | server.py:331-345 | the camera handler's first sighting adds exactly one row with "Ej Godkänd", notifies it as unknown and reports that status; the row stays when the notifier is unreachable |
| Pipeline.RepeatSightingFindsRecord | server.py:322-330 | the next sighting of that plate finds the row, inserts nothing and notifies it as known |
| Pipeline.WebcamRegistryIdempotent | server.py:331-336 | a second run on the same picture leaves the table as the first run left it |
| Pipeline.RepeatRunSameIdentification | server.py:304-345 | two runs on the same picture report the same plate and status, whatever the gate and notifier answer |
| Pipeline.ScenarioNewPlate | server.py:331-345 | "XYZ123" on an empty table: one row "Ej Godkänd", an unknown-plate notification, no gate command |
| Pipeline.ScenarioApprovedPlate | server.py:85-94 | "ABC12A" registered "Godkänd", gate answering 200: both handlers report "Grinden har öppnats." |
| Pipeline.ScenarioLowerCase | server.py:110-111 | "abc123" identifies no plate in either handler, and the table is unchanged |

## Left out

- Text recognition (`PaddleOCR`): its output is an input of the model, shaped as lines of words.
- Image decoding, the grayscale conversion, the 800×600 resize and saving `processed_image.jpg`: these are image-library calls and file I/O.
- SQLAlchemy and MySQL: the table is an in-memory map. The connection constants, and any database exception, are not modelled. Such an exception becomes `{"error": str(e)}` in most handlers. In `update_plate` it becomes a bare 500 instead, because its `except` raises the never-imported `HTTPException`. A failing lookup or insert cannot happen in the model. Plates are matched by exact string equality; in the source, `WHERE plate_number = :plate` compares under the column's collation, which the repository does not fix and which ignores case under MySQL's defaults, so `Lookup`, `AddPlate`, `DeletePlate` and `UpdatePlate` hold as stated only for a case- and accent-sensitive collation.
- HTTP I/O through `httpx`: the replies are inputs (`HttpReply`). The exact `str(e)` text of an error answer is not kept, only which call failed. The camera handler's unclosed session on its lookup paths has no counterpart.
- FastAPI routing and request parsing, the startup logger, the constant-answer stub endpoints, the `uvicorn` entry point, and `print` logging.
- Concurrency: the model runs one request at a time. The lookup-then-insert race of two simultaneous sightings, and the shared `processed_image.jpg`, are therefore not modelled.
- Floating point: `confidence` is a mathematical real compared with 0.5.
- test_ocr.py is a one-off script. Only its test plate "HET 69A" appears, as an example.
- Malformed recognition entries beyond the one modelled: a word is either a `(text, confidence)` pair or skipped. A word with fewer than two elements (which would raise `IndexError`) or a non-string text (which would make `re.match` raise `TypeError`) is outside the model.
- `\d` follows Unicode 13.0. Python releases built on another Unicode version accept a slightly different digit set.

## Findings

| source | as written | input that shows it | evidently intended | confidence | as-written member | corrected member |
|---|---|---|---|---|---|---|
| server.py:167-174 | a plate with no row reaches `raise HTTPException(status_code=404, ...)`, but `HTTPException` is never imported: a `NameError` is raised, the `except` raises it again through the same missing name, and the client gets a bare 500 | `PUT /UpdatePlate` with a plate number that has no row | HTTP 404 with detail "Registreringsnumret hittades inte i databasen." | not executed | Registry.UpdateOutcomeAsWritten, Registry.UpdateMissingPlateFinding | Registry.UpdateOutcomeIntended, Registry.PlateRegistry.UpdatePlate |
