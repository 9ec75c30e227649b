# TubeVault download flow, modelled in Dafny

TubeVault is a small web front end for the yt-dlp downloader. A Flask server
(`app.py`) runs downloads in the background. It records each job's progress
in two global maps, `download_progress` and `download_status`. A browser
script (`static/js/app.js`) sends the download form, then polls
`/progress/<id>` once a second until the job finishes or fails.

This project models the decision logic of both halves as pure functions over
immutable data:

- `common.dfy`: `Option` and `Result`.
- `strings.dfy`: JavaScript `trim`, decimal text, `padStart`, `split`/`join` and `split().pop()`.
- `values.dfy`: the Python/JSON values that options and events are made of, with Python truthiness, type names and `str()` of scalars.
- `server_progress.dfy`: the two tracking maps, the progress hook, the `/progress/<id>` lookup and the clearing `/cleanup` does.
- `server_download.dfy`: the option merge of `download_video`, the cookie-file substitution, and the starting and error records.
- `server_info.dfy`: the description truncation and video-format filter of `/info`.
- `client_options.dfy`: `getDownloadOptions`.
- `client_format.dfy`: `formatDuration` on whole seconds, and `getFileName`.
- `client_session.dfy`: the polling session as a transition system. It covers `startDownload`, `startProgressTracking`, `stopProgressTracking`, `updateProgress`, and a run of timer ticks.
- `interplay.dfy`: what happens where the halves meet. The page's options go through the server's merge, and server records come back as poll answers.

How some behaviour is represented:

- Timers are handles. `setInterval` returns a fresh positive number and `clearInterval` removes it from the set of live timers. "At most one poll timer" is therefore an invariant about that set, not a flag.
- Inputs stand in for the outside world: the answers of `fetch`, the result of reading the cookie file, the events yt-dlp reports to the hook and whether it raised, and the name of the temporary cookie file.
- Exceptions raised inside `download_video` are values. They carry the text CPython's `str(e)` gives: `KeyError` prints the quoted key, and each `TypeError` message has its exact wording.

The page has no cancel action and never sets `currentDownloadId` back to null. After a
terminal answer the timer is cleared, but the id stays.

## Model

| member | source | states |
|---|---|---|
| Strings.Trim | static/js/app.js:169 | the trimmed URL has no leading or trailing JavaScript white space, is a contiguous slice of the input, and only white space was removed |
| ClientOptions.GetDownloadOptions | static/js/app.js:217-263 | no options (a rejected promise) exactly when the cookie file cannot be read. Only `format`, `postprocessors`, `noplaylist` and `cookiedata` appear. Format precedence: audio-only gives `bestaudio/best`; otherwise container F gives `Q[ext=F]` or `best[ext=F]`; otherwise quality Q gives Q; with none of the three there is no format. The mp3/192 postprocessor appears exactly for audio-only, and `noplaylist: false` exactly when the playlist box is checked. A selected file decides `cookiedata` (an empty file sets none), and trimmed pasted text counts only without a file |
| ClientOptions.CookieDataIsText | static/js/app.js:247-260 | every `cookiedata` the form sends is a non-empty string |
| ClientFormat.DurationArithmetic | static/js/app.js:586-589 | the minutes and seconds are below 60, hours·3600 + minutes·60 + seconds gives back the duration, and there are hours exactly from 3600 seconds on |
| ClientFormat.DurationFieldsLong | static/js/app.js:586-596 | from one hour on the text is `h:mm:ss`: three fields, hours without a leading zero and positive, minutes and seconds exactly two digits below 60, adding back up to the duration |
| ClientFormat.DurationFieldsShort | static/js/app.js:586-596 | below one hour the text is `m:ss`: two fields, minutes without a leading zero below 60, seconds exactly two digits below 60, adding back up to the duration |
| ClientFormat.FormatDurationRoundTrip | static/js/app.js:586-596 | reading the displayed duration back as `h:mm:ss` or `m:ss` gives the number of seconds |
| ClientFormat.FormatDurationInjective | static/js/app.js:586-596 | different durations are displayed differently |
| ClientFormat.GetFileNameIsBaseName | static/js/app.js:598-600 | the file name contains neither `/` nor `\`, is a suffix of the path, and is either the whole path or preceded by a separator: the text after the last separator |
| ClientFormat.GetFileNameOfPlainName | static/js/app.js:598-600 | a path without separators is its own file name |
| ClientFormat.GetFileNameIdempotent | static/js/app.js:598-600 | taking the file name of a file name changes nothing |
| ClientSession.StartProgressTracking | static/js/app.js:286-294 | the session then holds a fresh handle, the previously held timer is cleared, and exactly one timer is live; nothing else changes |
| ClientSession.StopProgressTracking | static/js/app.js:296-301 | afterwards no timer is held or live; a session that held none is unchanged |
| ClientSession.StopIdempotent | static/js/app.js:296-301 | stopping twice is stopping once |
| ClientSession.Initial | static/js/app.js:4-8 | the page starts with no download id, no timer held or live, an idle button and valid timer bookkeeping |
| ClientSession.AtMostOneTimer | static/js/app.js:286-301 | in every session with valid bookkeeping, at most one poll timer is live, and one is live exactly while the session polls |
| ClientSession.Replay | static/js/app.js:168-336 | any sequence of submissions and timer ticks keeps the timer bookkeeping valid |
| ClientSession.OneTimerAfterAnyActions | static/js/app.js:286-301 | from the initial page, whatever is submitted and answered, at most one poll timer is ever live, and one is live exactly while the page polls |
| ClientSession.SuccessFor | static/js/app.js:542-561 | the success alert links a file exactly when a non-empty file name is given, and the link names that file's base name |
| ClientSession.StartDownload | static/js/app.js:168-215 | an empty trimmed URL sends nothing and only shows "Please enter a video URL". An unreadable cookie file aborts with no change at all. Otherwise the trimmed URL and the form's options are posted. Only an accepted answer sets the id to `download_id` and starts tracking with one fresh timer, leaving the button busy. A refused or failed request leaves the id, the timer and the progress card as they were, enables the button again, and shows "Failed to start download: " with the server's error, the default text, or the transport message |
| ClientSession.TerminalNotice | static/js/app.js:303-336 | every final answer produces a notice, and it is a success notice exactly for status `finished` |
| ClientSession.UpdateProgress | static/js/app.js:303-336 | without a truthy id nothing is requested and nothing changes. An answer that is not final (`starting`, `downloading`, `not_found` or any other status) changes nothing. A final answer (transport failure, non-ok, `finished`, `error`) clears the timer without setting another, hides the progress card and frees the button. Its notice is the success alert with the file link and a file-list reload for `finished`, "Download failed: " with the error for `error`, and "Error tracking progress: " with the message for failed requests. The success alert leaves the error alert as it was, and an error notice leaves the success alert as it was |
| ClientSession.StopsIffTerminal | static/js/app.js:313-334 | while tracking, a tick stops polling, and shows a notice, exactly when the answer is final |
| ClientSession.Run | static/js/app.js:291-293 | repeated ticks keep the timer bookkeeping valid and show at most one notice in the whole run, never an empty one, because every final answer clears the timer |
| ClientSession.RunNonTerminal | static/js/app.js:303-336 | answers that are never final leave the session polling, unchanged and silent, however many there are |
| ClientSession.RunStopsAtFirstTerminal | static/js/app.js:286-336 | the first final answer ends polling with no live timer. Its notice is the only one shown, and later answers are never requested |
| ServerProgress.Hook | app.py:37-76 | only the entries for the hook's own id change, and none disappears. A missing status raises KeyError('status'). `downloading` stores a downloading record and leaves `download_status` alone. That record's total is `total_bytes` when truthy, else `total_bytes_estimate`, else 0; its downloaded bytes, speed and eta default to 0, its file name defaults to 'Unknown', and its percent is the literal 0 when the total is not positive and otherwise the ratio of downloaded to total bytes. The event fails exactly when the total, or the downloaded count it divides, is not a number. The TypeError's text is then "'>' not supported between instances of '<total type>' and 'int'" for a non-number total, and "unsupported operand type(s) for /: '<downloaded type>' and '<total type>'" for a non-number downloaded count. `finished` stores the event's file name with status completed, and raises KeyError('filename') without one. `error` stores the error text (default 'Unknown error') with status error. Any other status changes nothing |
| ServerProgress.HookKeepsCoherent | app.py:37-76 | the hook keeps the maps coherent: a status only beside a progress record, the two agreeing, and `not_found` never stored |
| ServerProgress.ApplyEvents | app.py:114-116 | feeding the engine's events in order touches only the job's own entries, removes none, and keeps the maps coherent |
| ServerProgress.ApplyEventsLast | app.py:114-116 | the events are applied in order: the maps after all of them are the hook's result on the maps after all but the last, unless an earlier event raised |
| ServerProgress.GetProgress | app.py:201-204 | a known id is answered with its stored record; an unknown id gets the default answer, with status `not_found` and error 'Download not found' |
| ServerProgress.NotFoundIffUnknown | app.py:201-204 | on coherent maps the default answer is given exactly for ids that have no record |
| ServerProgress.Cleanup | app.py:283-302 | once every file is removed, every id is answered `not_found` and has no status, and the maps are coherent. A removal that raises skips both `clear()` calls, and every id is answered as before |
| ServerDownload.MergeOptions | app.py:83-104 | without user options (absent or empty) the defaults are used: format `best[height<=720]/best`, noplaylist True. The merge fails exactly when `cookiedata` is truthy and not a string, with TypeError "write() argument must be str, not <type>". `cookiedata` never reaches the engine. Every other user key overrides its default, and defaults the user does not name stay. Nothing else appears, except `cookiefile`. A truthy cookie value yields `cookiefile` naming the temporary file, unless the user set one |
| ServerDownload.Initialize | app.py:106-112 | before the engine runs the job reads `starting` with status downloading; other jobs are untouched and coherence is kept |
| ServerDownload.RecordError | app.py:130-136 | any exception leaves an error record with the exception's text and status error; other jobs are untouched and coherence is kept |
| ServerDownload.DownloadVideo | app.py:78-136 | a job always leaves records for its own id and for no other, and coherence is kept. Options that cannot be merged fail the job with the exception's text. Without an exception the records are what the hook made of the starting records, event by event; an engine that reports nothing leaves the job `starting`. An exception raised inside the hook, or by the engine after its events, is recorded with its text beside status error |
| ServerDownload.FinishedRunCompletes | app.py:63-69 | a run that does not raise and whose last event reports the file finished leaves the job finished with that file, beside status completed |
| ServerDownload.TerminalRecordsAgree | app.py:63-76 | on coherent maps a failed record sits beside status error and a finished one beside status completed |
| ServerInfo.ShortDescription | app.py:334-337 | a missing description becomes empty. One of at most 200 characters is kept as it is. A longer one becomes its first 200 characters followed by `...` |
| ServerInfo.ShortDescriptionIdempotent | app.py:334-337 | shortening an already shortened description changes nothing |
| ServerInfo.VideoFormatsAppend | app.py:341-351 | filtering distributes over concatenation, so the kept formats stay in their original order |
| ServerInfo.VideoFormatsCount | app.py:341-342 | every format is kept exactly when every format has a video codec, and none is kept exactly when none has one |
| ServerInfo.ListVideoFormats | app.py:339-351 | the loop building `formats` yields the descriptions of exactly the video formats, in order |
| Interplay.WireBody | app.py:201-204 | the body the page reads carries the record's status, one of the five, and an error text exactly for failed jobs and unknown ids. A starting record carries 'Preparing download...' as its file name; downloading and finished records carry theirs when it is a string |
| Interplay.ProgressReply | app.py:197-206 | `/progress/<id>` always answers with an ok status: the record's status and error for a known id, and `not_found` with 'Download not found' and no file name for an unknown one |
| Interplay.UnknownIdKeepsPolling | app.py:201-206 | an id the server has no record of gets a `not_found` answer that the page does not treat as final, so the page keeps polling, unchanged and silent |
| Interplay.PollingStopsIffFinal | static/js/app.js:317-328 | the page stops polling exactly when the server holds a finished or failed record for the id |
| Interplay.FinalRecordNotices | static/js/app.js:317-328 | a failed record is announced as "Download failed: " with its error, a finished one with the success alert, a file-list reload and a link to the file's base name; the job status agrees with either |
| Interplay.MergeFailureReported | app.py:130-136 | a job whose options cannot be merged is reported on the next poll as failed, with the exception's text, and polling stops |
| Interplay.FormOptionsReachEngine | app.py:92-104 | options the page builds always merge. The engine gets the page's format or the 720p default, and single-video mode unless the playlist box was checked. It gets a cookie file exactly when cookie data was sent, and the mp3 postprocessor exactly for audio-only. It never gets the raw `cookiedata` |

## Left out

- DOM rendering: `displayVideoInfo`, `displayProgress`, the file list, scrolling, button labels. The button is a busy flag, and the alerts are their texts.
- `escapeHtml`: it depends on the browser's serialisation.
- `getVideoInfo`, `loadDownloadedFiles`, `deleteFile`, `cleanupAllFiles` and the 30-second file-list timer on the page. They are outside the download flow. Reloading the file list after completion is a flag.
- `fetch`, `FileReader` and timer timing: their outcomes are inputs. Each request is treated as settling before the next event, so overlapping requests and responses that arrive after a newer download started are not modelled.
- `formatFileSize`, `formatSpeed`, `toFixed` and the value of `round(downloaded / total * 100, 1)`: these are floating-point numerics. The percent is kept as the ratio it is computed from.
- `formatDuration` on fractional seconds: only whole seconds are modelled.
- ClientFormat.FormatDuration: the page's `seconds` is a JavaScript Number (a double). The model uses unbounded naturals, so its round trip and injectivity describe the page only below about 2^53 seconds. Beyond that `Math.floor(seconds / 3600)` rounds, and from 1e21 hours `${hours}` switches to exponent notation.
- yt-dlp itself (`ydl.download`, `extract_info`). It is an input: the events it reports and the text of any exception it raises. How yt-dlp wraps or reports exceptions raised inside a hook is not modelled: such an exception ends the run with its own text.
- Filesystem work: writing and removing the temporary cookie file, listing and removing downloads, `send_file`, the `abspath` check. The temporary file's name is an input, and so is whether `/cleanup`'s removal of a file raised.
- `urlparse` validation, download id generation from the clock, `datetime` formatting, and the background thread with its unguarded global maps.
- Hook: event values are scalars (None, bool, int, str). Float values and the TypeErrors of other exotic types are not modelled.
- ServerDownload.MergeOptions: options that are not a dictionary are not modelled, and `str()` of non-scalar values is not modelled.
- Interplay.WireBody: a file name that is not a string (a number, say) is read as absent. The page would still treat such a name as truthy and fail only when the link is clicked.
- ClientSession.UpdateProgress: `displayProgress` throwing on an unexpected body (a `downloading` answer without a string file name) is not modelled. It would take the "Error tracking progress" path.
- The submit button being disabled while busy, which in the page prevents a second submission: `StartDownload` accepts any session.
