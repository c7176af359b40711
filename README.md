# Recognizer screen: transcript, controls and capture cycle

This project models the state machine inside the `RecognizerPage` screen of a
sign-language recognition app. Every five seconds, while recording is on and a
camera is mounted, the screen captures a photo. It POSTs the photo to a
recognition service's `/predict` endpoint. If the POST throws, it falls back to
a GET on the same path. The word that comes back is appended to a transcript,
unless it equals the transcript's last word. The user can undo the last word,
toggle recording and flip between the back and front cameras. The screen shows
a placeholder or the words joined by spaces. Before the main view it shows a
blank view, a permission-denied message or a font-loading screen, in that order.

Modules, one per component:

- `Wrappers`: `Option`, used for JavaScript `undefined` and for absent outcomes.
- `Transcript`: the word list and its invariant `NoAdjacentDuplicates`. It holds
  the updater `AppendWord`, `Undo` (defined through ECMAScript
  `Array.prototype.slice` semantics, `JsSlice`), `Join`, and `Feed`, which runs a
  whole stream of recognised words through the updater.
- `Controls`: camera `Facing`, `Flip` and `ToggleRecording`.
- `Display`: the result `Panel` for a transcript and the `ScreenFor` gating
  (permission, then fonts, then the main view with the camera only when focused).
- `Cycle`: one timer callback as a pure function `RunCycle`. The camera's result
  and the two requests' results are parameters. `RunCycle` returns which requests
  were made, what was logged and which word, if any, reaches `AppendWord`.
- `Page`: the component as a class `RecognizerPage`. Its fields are the state
  hooks plus `cameraPresent`, which stands for `cameraRef.current`. Its methods
  are the permission callback, a render pass, the three buttons and the timer
  callback `Tick`. Each method's `modifies` clause names only the field it
  updates, so every other field is unchanged. The class invariant `Valid()` says
  the transcript has no equal neighbours. Two client methods play a user session.

Inputs from the outside world are parameters: the permission answer, the
font and focus hooks, the camera's capture result and the two HTTP results.
The source's `!photo.uri` test is JavaScript truthiness, so a missing uri and an
empty-string uri both abort the cycle (`Cycle.HasUri`). An empty transcript's
last entry is `undefined`, which never equals a string word (`Transcript.LastEntry`).

## Model

| member | source | states |
|---|---|---|
| Transcript.LastEntry | RecognizerPage.js:57 | `t[t.length - 1]` is absent exactly when the transcript is empty, otherwise it is the final word |
| Transcript.AppendWord | RecognizerPage.js:56-61 | the result extends the transcript by at most one entry, keeps it as a prefix, always ends with the word, and equals the old transcript exactly when the old last entry already was the word |
| Transcript.AppendWordCases | RecognizerPage.js:56-61 | the updater yields `t + [w]` when `t` is empty or ends in a different word, and `t` itself when it ends in `w` |
| Transcript.AppendWordKeepsNoAdjacentDuplicates | RecognizerPage.js:56-61 | a transcript without equal neighbours keeps that property after an append |
| Transcript.AppendWordIdempotent | RecognizerPage.js:56-61 | receiving the same word twice has the effect of receiving it once |
| Transcript.AppendWordComparesLastEntryOnly | RecognizerPage.js:57 | the check is against the last entry only: a word present earlier is appended again |
| Transcript.AppendWordExamples | RecognizerPage.js:56-61 | ["HELLO"] stays on "HELLO", becomes ["HELLO","WORLD"] on "WORLD", and ["A","B"] grows on "A" |
| Transcript.Feed | RecognizerPage.js:56-77 | successive ticks' words run through the updater in order; the transcript never shrinks, and after a non-empty stream its last entry is the stream's last word |
| Transcript.FeedKeepsNoAdjacentDuplicates | RecognizerPage.js:56-77 | for every stream of words returned by either request path, the transcript never holds two equal neighbours |
| Transcript.FeedExtends | RecognizerPage.js:56-77 | recognised words only extend the transcript: the old one stays a prefix, at most one entry per word |
| Transcript.FeedKeepsDistinctStream | RecognizerPage.js:56-77 | a stream with no repeats that does not restart with the last entry is appended in full |
| Transcript.RepeatedWordRecordedOnce | RecognizerPage.js:56-77 | the same word on two consecutive cycles is recorded once |
| Transcript.RelativeIndex | RecognizerPage.js:108 | a `slice` argument becomes a position in `0..len`: negatives count from the end and are clamped at 0, arguments past the end are clamped at `len` |
| Transcript.JsSlice | RecognizerPage.js:108 | `slice(start, end)` is the sub-range between the two relative positions, and empty when they do not increase |
| Transcript.Undo | RecognizerPage.js:108 | undo is `JsSlice(t, 0, -1)`, i.e. `slice(0, -1)`; its result is a prefix of the transcript one entry shorter, or empty for an empty transcript (`UndoDropsLast` gives the closed form) |
| Transcript.UndoDropsLast | RecognizerPage.js:108 | undo is `t[..|t|-1]` on a non-empty transcript and `[]` on an empty one, has length `max(0, |t|-1)` and is a prefix |
| Transcript.UndoKeepsNoAdjacentDuplicates | RecognizerPage.js:108 | undo keeps the no-equal-neighbours invariant |
| Transcript.UndoAfterAppend | RecognizerPage.js:58 | undo reverses an append that took effect |
| Transcript.Join | RecognizerPage.js:123 | `join(sep)` is empty for no words and starts with the first word |
| Transcript.JoinEndsWithLast | RecognizerPage.js:123 | a non-empty join ends with the last word |
| Transcript.JoinSnoc | RecognizerPage.js:123 | joining after an append adds the separator and the new word at the end |
| Transcript.JoinLength | RecognizerPage.js:123 | the joined text is every word plus one separator between each pair of neighbours |
| Controls.Flip | RecognizerPage.js:156-160 | the flip button always changes the facing, and yields front exactly from back |
| Controls.FlipTwice | RecognizerPage.js:156-160 | flipping twice restores the facing |
| Controls.ToggleRecording | RecognizerPage.js:141 | the record button always changes the flag |
| Controls.ToggleRecordingTwice | RecognizerPage.js:141 | toggling twice restores the flag |
| Display.PanelFor | RecognizerPage.js:111-136 | an empty transcript shows "Press 'Record' to start" in gray at size 18, with no header and no backspace image; otherwise the header "Translation Result", the words joined by single spaces in black at size 32, and the image |
| Display.PanelAfterAppend | RecognizerPage.js:56-61 | after an append that took effect the panel shows the earlier text, a space and the new word; a repeated word leaves the panel unchanged; the backspace image is shown either way |
| Display.PanelAfterLastUndo | RecognizerPage.js:108-123 | undoing the only word brings back the placeholder panel |
| Display.ScreenFor | RecognizerPage.js:90-190 | blank exactly while permission is unknown; the denial message exactly when it is denied, whatever the fonts; loading exactly when granted without fonts; otherwise the main view, with the camera preview and its facing exactly when focused |
| Display.DenialIgnoresEverythingElse | RecognizerPage.js:90-91 | the denial screen does not depend on fonts, focus, facing or transcript |
| Display.CameraMounted | RecognizerPage.js:180-181 | the camera (and its ref) is mounted exactly on the main view with a preview |
| Display.CameraMountedExactly | RecognizerPage.js:179-188 | the camera surface is rendered exactly when permission is granted, fonts are loaded and the screen is focused |
| Cycle.PredictUrl | RecognizerPage.js:51 | the request URL is the service base URL followed by `/predict` |
| Cycle.HasUri | RecognizerPage.js:37 | `photo.uri` is truthy exactly when the capture produced a photo with a present, non-empty uri |
| Cycle.RunCycle | RecognizerPage.js:32-85 | a capture happens exactly when recording is on and a camera is mounted; requests are made exactly when the photo has a uri; at most two, both to `service + "/predict"` and carrying that uri; the first is a POST; a GET follows exactly when the POST throws; a word comes back exactly when some request was made and one of them succeeded, from the POST when it succeeded, otherwise from the GET |
| Cycle.ApplyOutcome | RecognizerPage.js:56-77 | the word of a cycle, if any, goes through the updater; without one the transcript is unchanged; `GetSuccessAppends` shows the POST and GET paths apply the same rule |
| Cycle.CycleKeepsNoAdjacentDuplicates | RecognizerPage.js:50-81 | every cycle keeps the transcript free of equal neighbours |
| Cycle.IdleTickDoesNothing | RecognizerPage.js:33 | with recording off or no camera: no capture, no request, no log, transcript unchanged |
| Cycle.MissingUriSendsNothing | RecognizerPage.js:37-40 | a photo without a uri logs "Failed to capture photo.", makes no request and leaves the transcript unchanged |
| Cycle.PostSuccessAppends | RecognizerPage.js:50-61 | a successful POST sends one request, logs nothing, and its word goes through the updater |
| Cycle.GetSuccessAppends | RecognizerPage.js:62-77 | a GET that succeeds after a failed POST sends both requests, logs the POST failure once, and its word goes through the same updater with the same effect as a successful POST of that word |
| Cycle.CaptureThrewLogsOnce | RecognizerPage.js:35-36 | a capture that throws is caught at lines 82-84: one "Error during prediction:" log line with the message, no request, transcript unchanged |
| Cycle.BothRequestsFail | RecognizerPage.js:62-84 | when POST and GET both throw: both requests are sent, two log lines are written, no word is returned and the transcript is unchanged |
| Cycle.FallbackIrrelevantAfterPostSuccess | RecognizerPage.js:50-66 | the GET's result has no effect unless the POST throws |
| Page.RecognizerPage.constructor | RecognizerPage.js:12-18 | initial state: permission unknown, back camera, not recording, empty transcript, empty service URL, no camera |
| Page.RecognizerPage.PermissionSettled | RecognizerPage.js:22-28 | the permission answer is recorded and the service URL is set; nothing else changes and the invariant is kept |
| Page.RecognizerPage.Render | RecognizerPage.js:90-190 | the rendered screen is `ScreenFor` of the current state, and the camera reference is present exactly when the camera surface is rendered; the invariant is kept |
| Page.RecognizerPage.PressUndo | RecognizerPage.js:108 | the transcript becomes `Undo` of the old one, the invariant is kept, and nothing else changes |
| Page.RecognizerPage.PressRecord | RecognizerPage.js:141 | only the recording flag changes, to its negation; the invariant is kept |
| Page.RecognizerPage.PressFlip | RecognizerPage.js:156-160 | only the facing changes, to its flip; the invariant is kept |
| Page.RecognizerPage.Tick | RecognizerPage.js:32-85 | the callback's outcome is `RunCycle` of the current state and the given results, only the transcript changes, by `ApplyOutcome`, and the invariant is kept |
| Page.SessionRepeatedWord | RecognizerPage.js:22-85 | from a fresh screen, granting permission, rendering, recording and receiving "HELLO" by POST and then by the GET fallback gives the transcript ["HELLO"] |
| Page.SessionNewWordThenUndo | RecognizerPage.js:32-160 | a new word is appended, flip leaves the transcript alone, undo removes the word, and after recording is switched off a tick sends nothing |

## Left out

- Camera permission requests and `takePictureAsync`: foreign asynchronous device calls. Only their outcomes are modelled, as parameters of `PermissionSettled` and `Tick`.
- The HTTP calls, the multipart form data and the query-parameter encoding of the fallback: network I/O. A request is modelled by its method, URL and photo uri, and a response by a word or an error message.
- The response body is untyped in the source; the model takes it to be a string, so JavaScript `!==` between non-string values is not modelled.
- The five-second `setInterval` timer, its cancellation when `recording` or `service` change, and overlapping in-flight cycles: timing and asynchronous interleaving. Each tick runs to completion against the current state, so a result landing after recording was switched off is not modelled.
- Page.RecognizerPage.PressUndo: applies the undo to the current transcript; the source reads the value captured by the last render, which differs only when an update is pending.
- The capture quality 0.5 (a float) and the base64 option.
- `console.error` output: a log line is modelled by its fixed text and the error message, not printed.
- Fonts, navigation focus and icon assets are external hooks given as parameters; all styling other than the panel's font size and colour (including the record button's border width) is left out.

