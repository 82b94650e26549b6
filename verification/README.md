# zm_ai core, modelled in Dafny

zm_ai adds object detection, e-mail alerts and clip export to a ZoneMinder
video recorder. Four scripts make up its core.

- **`poll_zm_for_events.py`** is the event poller. It logs in to the
  recorder and keeps the token. Every cycle it lists the events of the last
  minutes for the configured cameras. A finished event that is not yet
  processed is marked processed and its video is downloaded, unless the
  per-camera sliding window shows that the camera exceeds its rate limit.
  Unfinished events are kept pending and re-checked one by one. At the end of
  the cycle the processed-ID store is rewritten.
- **`yolo8_analyze.py`** is the detection worker. It takes a downloaded clip
  `<monitor>-<event>.mp4` and reads the two ids back from its name. It samples
  about one frame per second and keeps, per object class, the most confident
  box over the sampled frames. It saves one picture per class found.
- **`email_notify.py`** is the notifier. It queues new detection pictures of
  the configured cameras. Each batch interval, it drains the queue into one
  message.
- **`zm_export.py`** is the exporter. It selects the events that overlap a
  requested window and cuts each to the window. It downloads the clips,
  trims the first and the last, and can join them into one file with ffmpeg.
  Throughout, it keeps a JSON progress counter with an overall percentage.

The three worker scripts share one `printLog`, which keeps a rolling log file.

Each script is modelled in the form its code takes:

- The poller's state, which it updates in place, is the class
  `Poller.Poller`. Python's insertion-ordered `dict` is `OrderedDict.ODict`.
  The login globals are the class `Auth.Session`.
- The notifier's queue is the class `Notifier.Watcher`.
- Loops become methods with invariants, each proved equal to a function that
  specifies it. Examples are the download loop, the concat loops, the
  progress loop, the pagination loop, the detection folds and the frame loop.
- Pure helpers become functions with lemmas. These include `_safe_id`,
  `_with_overall_fields`, `_parse_size`, `_hms`, `_pick_event` and
  `extract_ids`.

Times are whole seconds on the scripts' local timeline. `strftime` with
`%Y-%m-%d %H:%M:%S` is written out in `Clock`, including the calendar. So is
`strptime` with that format, for the zero-padded form that `strftime` writes. Everything outside the process is a parameter:

- answers of the recorder's HTTP API;
- ffmpeg and ffprobe results;
- the boxes the network reports for each frame;
- the contents of files;
- the clock.

## Model

| member | source | states |
|---|---|---|
| SafeId.SafeId | zm_export.py:32-34 | the identifier holds only `[A-Za-z0-9._-]` and has no `-` at either end |
| SafeId.SafeIdOfNone | zm_export.py:34 | `None` gives the empty identifier |
| SafeId.CollapseOfAllowed | zm_export.py:34 | the substitution leaves text of allowed characters unchanged |
| SafeId.SafeIdFixedPoint | zm_export.py:32-34 | a string is returned unchanged iff it is allowed characters with no `-` at either end |
| SafeId.SafeIdIdempotent | zm_export.py:32-34 | sanitising twice equals sanitising once |
| SafeId.CounterFileName | zm_export.py:42-48 | the counter file is `counter_<safe id>.json`; the name starts with `counter_` and contains no `/` |
| SafeId.ProgressFileName | zm_export.py:50-58 | there is a progress file name iff the job id is present and non-empty; it is then `concat_progress_<safe id>.txt` and contains no `/` |
| Progress.RoundHalfEven | zm_export.py:249 | Python's `round` lands within one half of its argument |
| Progress.RoundMonotone | zm_export.py:249 | `round` never decreases as its argument grows |
| Progress.PercentBounds | zm_export.py:235-249 | `overall_percent` is always between 0 and 100 |
| Progress.Overall | zm_export.py:235-249 | definition of the overall fraction; `PercentHalves` and `PercentWithoutConcat` state what it gives |
| Progress.OverallPercent | zm_export.py:235-249 | definition of `overall_percent`; `PercentBounds`, `PercentHalves`, `PercentWithoutConcat` and `PercentMonotone` state its properties |
| Progress.PercentHalves | zm_export.py:239-249 | with `want_concat`, the download phase stays at or below 50% and the concat phase at or above 50% |
| Progress.PercentWithoutConcat | zm_export.py:235-249 | without `want_concat` the percentage is `round(100 * clamp(done/total))`, 0 for a non-positive total, and exactly `100*done/total` rounded when done is within the total |
| Progress.PercentMonotone | zm_export.py:235-249 | more done in the same phase never lowers the percentage |
| Progress.OverallStatusMeaning | zm_export.py:252-263 | `overall_status` is `done` iff status is `done`, except for a finished download that a concat follows; `error` stays `error`; an empty status is `running` |
| Progress.OverallStatus | zm_export.py:252-263 | definition of `overall_status`; `OverallStatusMeaning` states its cases |
| Progress.OverallText | zm_export.py:252-271 | a finished concat reads `overall 100%`; every other text starts with `overall <percent>%` |
| Progress.CounterWrite | zm_export.py:60-97 | nothing is stored without a job id; otherwise one snapshot with phase defaulting to `download`, status to `running`, `want_concat` to false, and the derived percentage and status |
| Progress.ConcatWriteWithoutFlag | zm_export.py:80-85 | a concat write without the `want_concat` argument is stored as a job without concat, so its percentage is the concat fraction alone (0 at the start) |
| Progress.DoneAt | zm_export.py:171-175 | the clips covered is the floor of the clamped fraction times the clips, capped at the last clip but one: between 0 and clips-1, and clips-1 once the output is complete |
| Progress.ProgressDones | zm_export.py:156-184 | definition of the clip counts written while following the output lines; its properties are stated in `ProgressDonesClimb` and `FirstDueLineWrites` |
| Progress.ProgressDonesClimb | zm_export.py:168-184 | the counts written while following the output lie above every count written before and at most at the last clip but one, and they strictly increase |
| Progress.RunningWritesSnoc | zm_export.py:176-183 | writing one more count appends exactly that count's running concat write: the writes are `RunningWrites` of the counts |
| Progress.RunningWritesClimb | zm_export.py:176-183 | running writes of rising counts below the last clip are `running` concat writes with strictly increasing `done`, and there are none without a job id |
| Progress.FirstDueLineWrites | zm_export.py:152-183 | with a job id, the first due `out_time_ms` line always writes, with the clips it covers |
| Progress.ProgressLog | zm_export.py:123-198 | definition of the snapshots the progress loop stores: none without a spawn, else the running writes of `ProgressDones` and the final write; `RunWithProgress` is proved to store exactly these |
| Progress.RunWithProgress | zm_export.py:123-198 | no spawn gives failure and no writes; otherwise success iff the return code is 0. The writes are exactly `ProgressLog`: the running writes of the counts made while following ffmpeg's output (`RunningWrites` of `ProgressDones`), then the final write. Clips are clamped to at least 1 and a non-positive duration counts as 1. Hence the writes before the last are `running` concat writes with strictly increasing `done` in [0, clips-1], and the last has `done == clips` and status `done` iff the return code is 0 |
| Progress.FollowLine | zm_export.py:158-184 | an `out_time_ms` value moves the elapsed time. A due line writes the counter iff the clips covered exceed the last write; it then writes a running snapshot of those clips and makes them the last write. Otherwise nothing is written and the last write stays |
| Progress.FollowOutput | zm_export.py:152-184 | the loop over the output lines, from no elapsed time and nothing written, makes exactly the running writes of the counts `ProgressDones` defines |
| Progress.ClosingWrite | zm_export.py:186-196 | the final write ends the log: all clips done, status `done` iff the return code is 0, after the running writes |
| Clock.ParseStamp | poll_zm_for_events.py:168 | `strptime` on the zero-padded layout: a stamp that parses is 19 characters with a space at position 10 |
| Clock.ParseStampNeedsSpace | poll_zm_for_events.py:163-168 | a whitespace-free word never parses as a stamp |
| Clock.StampShape | poll_zm_for_events.py:168 | a stamp that parses is a date and a time of day separated by its one space |
| Clock.ParseFormatStamp | poll_zm_for_events.py:396-426 | the stamp `strftime` writes is read back unchanged by `strptime`, for years 1 to 9999 |
| Clock.FormatStamp | poll_zm_for_events.py:397 | definition of `strftime` with the stamp layout; `ParseFormatStamp` proves that `ParseStamp` reads it back |
| LogRetention.UniversalNewlines | poll_zm_for_events.py:414-415 | reading in text mode leaves no `\r`: `\r\n` and a lone `\r` are read as `\n`, and a text without `\r` is read unchanged |
| LogRetention.CarriageReturnEndsLine | poll_zm_for_events.py:414-415 | a `\r` ends a line for `readlines`, which reads it as `\n`, and a `\n` right after it belongs to the same line end |
| LogRetention.CarriageReturnExample | poll_zm_for_events.py:414-415 | `"[x] a\rb\n"` reads as the two lines `"[x] a\n"` and `"b\n"`; the retention pass then drops the second one, which is unstamped |
| LogRetention.ReadLinesOfConcat | poll_zm_for_events.py:413-435 | lines written with `writelines` read back with `readlines` as the same lines, when each has its one `\n` at the end and holds no `\r` |
| LogRetention.ConcatOfReadLines | poll_zm_for_events.py:413-435 | reading the log in text mode and writing its lines back gives the file with its newlines translated, and reproduces a file without `\r` |
| LogRetention.LineStampOf | poll_zm_for_events.py:424-426 | a line `[<stamp>] <rest>` is read with the stamp between its brackets |
| LogRetention.RetainedExactly | email_notify.py:178-189 | a line survives the retention pass iff it is in the file and passes the keep test |
| LogRetention.KeepLine | poll_zm_for_events.py:422-430 | definition of the keep test; `UnbracketedLineDropped` and `KeepStampedLine` state its cases |
| LogRetention.Retained | poll_zm_for_events.py:420-430 | definition of the retention pass; `RetainedExactly` and `RetainedIdempotent` state its properties |
| LogRetention.RetainedIdempotent | poll_zm_for_events.py:420-430 | a second pass with the same cutoff changes nothing |
| LogRetention.UnbracketedLineDropped | poll_zm_for_events.py:424 | a line not starting with `[` is dropped |
| LogRetention.KeepStampedLine | poll_zm_for_events.py:424-428 | a line with a parseable stamp is kept iff the stamp is not older than the cutoff |
| LogRetention.EntryKeptIffFresh | poll_zm_for_events.py:396-428 | the line an entry writes is kept by a later pass iff the entry is not older than that pass's cutoff |
| LogRetention.RetainLines | yolo8_analyze.py:232-242 | the retention loop keeps exactly the retained lines, in order |
| LogRetention.PrintLog | poll_zm_for_events.py:395-441 | it prints the stamped entry. With logging off, the file is untouched. Otherwise the new file is the retained lines, read in text mode with universal newlines, followed by the entry and its newline |
| ExportWindow.SelectEventIff | zm_export.py:1079-1120 | an event gives a clip iff it has an id, a start and an end, and its overlap with the unbuffered window is at least the buffer and positive |
| ExportWindow.SelectEvent | zm_export.py:1079-1120 | definition of the per-event selection; its meaning is stated in `SelectEventIff` and `SelectEventSound` |
| ExportWindow.SelectEventSound | zm_export.py:1114-1135 | a clip lies inside its event and the window, with `offset = clipStart - evStart`, and offset plus duration within the event |
| ExportWindow.SelectEventExample | zm_export.py:1114-1118 | event [T, T+60] and window [T+10, T+40] with no buffer give offset 10 and duration 30 |
| ExportWindow.SelectAll | zm_export.py:1079-1136 | one page's clips number no more than its events and all lie in the window |
| ExportWindow.CollectFromSound | zm_export.py:1051-1145 | every collected clip lies in the window; no more pages are read than were answered |
| ExportWindow.CollectFrom | zm_export.py:1051-1145 | definition of the pagination, page by page; `CollectFromSound` states its properties and `CollectEvents` proves the loop equal to it |
| ExportWindow.CollectEvents | zm_export.py:1045-1145 | the pagination loop returns the clips and page count of the recursive listing definition |
| ExportWindow.FetchPage | zm_export.py:1061-1145 | one request either ends the listing with its page's result or continues it consistently with the listing definition |
| ExportWindow.CollectPage | zm_export.py:1079-1136 | the per-event loop appends exactly the page's selected clips and carries the last start time seen |
| ExportWindow.HmsParts | zm_export.py:1001-1005 | minutes and seconds are below 60 and the parts add back up to the whole non-negative seconds |
| ExportWindow.Hms | zm_export.py:1001-1006 | definition of the `HH:MM:SS` text; `HmsReadsBack` states that it reads back |
| ExportWindow.HmsReadsBack | zm_export.py:1001-1006 | below 100 hours the text is `HH:MM:SS` whose fields add back up to the seconds |
| ExportWindow.PickEvent | zm_export.py:334-344 | the first finished event, else the first event, else nothing |
| Download.DownloadWrite | zm_export.py:579-617 | a download write stores download-phase snapshots for the given total |
| Download.AppendWrite | zm_export.py:574-628 | one more write that reports no fewer clips and bytes keeps the counter log monotone |
| Download.StreamChunks | zm_export.py:597-607 | the chunk loop adds every chunk's length to the bytes and keeps the writes monotone |
| Download.FetchClip | zm_export.py:574-628 | per clip, exactly one of `downloaded` and `failed` goes up. `attempted` goes up iff a response arrived. The bytes grow by every chunk of a 200 response. `skipped_existing` is unchanged |
| Download.Saved | zm_export.py:585-611 | definition of a fetch that saves its clip (a 200 answer whose transfer completes); `FetchClip` and `SavedWithinAttempted` state its effect |
| Download.CountedStep | zm_export.py:574-628 | one more fetch counted that way keeps the stats equal to those of all fetches so far |
| Download.SavedIdsSubsequence | zm_export.py:574-611 | `downloaded_now` is a subsequence of the listed events, in their order |
| Download.SavedWithinAttempted | zm_export.py:585-611 | saved clips ≤ answered requests ≤ listed clips |
| Download.DownloadClips | zm_export.py:568-628 | the counts are those of the fetches' outcomes, with `downloaded == len(downloaded_now)`. Writes start with `starting` and never report fewer clips done or bytes |
| Download.FirstIndex | zm_export.py:638 | the position of the first entry with the given id |
| Download.LastIndex | zm_export.py:639 | the position of the last entry with the given id |
| Download.PlanTrim | zm_export.py:631-695 | no cuts without trim, ffmpeg or downloads; at most two cuts, only of the first and last downloaded ids |
| Download.PlanTrimSingle | zm_export.py:657-668 | a single downloaded clip gets one cut from its offset for its duration |
| Download.PlanTrimEnds | zm_export.py:669-695 | with distinct first and last ids, the head is cut iff offset > 0.01 and the tail iff `len - dur > 0.25` and `dur > 0.01` |
| Download.DownloadAndTrim | zm_export.py:550-703 | nothing without download or clips. Otherwise the stats are counted, with `attempted ≤ len(events_out)` and `downloaded_now` an ordered subsequence. The cuts are the trim plan, the writes are monotone, and the last write is `done` |
| Concat.ParseSize | zm_export.py:722-732 | a parsed size is two positive integers; nothing for a missing or empty text |
| Concat.ParseSizeOfText | zm_export.py:722-732 | `W:H` and `WxH` read back as (W, H) iff both are positive, otherwise nothing |
| Concat.ParseSizeNeedsOneSeparator | zm_export.py:724-726 | a text without exactly one separator is refused |
| Concat.ConcatMode | zm_export.py:809-835 | the mode is `copy` or `reencode` |
| Concat.ModeOfSize | zm_export.py:809-835 | asking for a size re-encodes iff the size is valid |
| Concat.ModeDefaults | zm_export.py:809-835 | default settings copy; a frame rate re-encodes iff positive |
| Concat.AudioModeMeaning | zm_export.py:845-911 | audio goes through `atempo` iff present and the speed changes, and is `none` iff absent |
| Concat.AudioMode | zm_export.py:845-911 | definition of the audio mode; `AudioModeMeaning` states when each mode is chosen |
| Concat.AtempoChain | zm_export.py:871-880 | the chain is non-empty and its product is the speed. Every factor but the last is 2.0 above speed 1, or 0.5 otherwise, and the last is within ffmpeg's range |
| Concat.FastSteps | zm_export.py:874-876 | halving steps of 2.0 leave a remainder in (1, 2 + 10⁻⁶] with the product preserved |
| Concat.SlowSteps | zm_export.py:877-879 | doubling steps of 0.5 leave a remainder in [0.5 − 10⁻⁶, 1] with the product preserved |
| Concat.OnDisk | zm_export.py:783-788 | the concat list holds only downloaded ids whose file exists |
| Concat.OnDiskComplete | zm_export.py:783-788 | every downloaded id whose file exists is listed |
| Concat.ListOnDisk | zm_export.py:784-788 | the list-building loop gives exactly that list |
| Concat.TotalSecondsNonNegative | zm_export.py:817-822 | non-negative durations sum to a non-negative total |
| Concat.TotalSeconds | zm_export.py:817-822 | definition of the summed durations; `TotalSecondsNonNegative` and `SumDurations` state its properties |
| Concat.SumDurations | zm_export.py:817-822 | the duration loop gives the specified sum |
| Concat.EffectiveTotal | zm_export.py:824-831 | the expected output duration times a positive speed is the input total; otherwise it is the input total |
| Concat.ConcatWrite | zm_export.py:766-795 | a concat write without the `want_concat` argument stores one concat snapshot with the given status iff the job id is set |
| Concat.ConcatDownloads | zm_export.py:705-945 | the early exits write `skipped`, `error` and `skipped`. Otherwise the mode, audio mode and `atempo` chain are the specified ones, with the product equal to the speed. The writes are exactly `ConcatRunWrites` with the expected output duration `EffectiveTotal` of the summed probed durations (`TotalSeconds`) and the speed. The first write is `running` with done 0. The last is `done` with all clips, or `error` with 0, and never carries `want_concat`. The result is enabled iff ffmpeg succeeded |
| Concat.ConcatRunWrites | zm_export.py:834-926 | definition of the writes of a concat run once the list is known: `running`, the progress loop's writes for the expected output duration, then `done` or `error`; `ConcatRunShape` states its ends |
| Concat.ConcatRunShape | zm_export.py:834-926 | nothing is stored without a job id. With one, the first write is `running` with no clip done and the mode. The last is `done` with every clip, or `error` with none, and never carries `want_concat` |
| Concat.ConcatSettings | zm_export.py:845-911 | the recorded settings before ffmpeg runs: not enabled, the listed clips, the mode, the audio presence and mode, and an `atempo` chain present iff there is audio and a speed change, whose product is the speed |
| Concat.ConcatLog | zm_export.py:834-926 | the run succeeds iff ffmpeg was spawned and returned 0, and its writes are exactly `ConcatRunWrites` |
| Concat.RunConcat | zm_export.py:834-945 | the writes are exactly `ConcatRunWrites` for the given expected duration and progress output, with the progress writes as `Progress.RunWithProgress` states them. The mode, audio mode and `atempo` chain are the specified ones, and the result is enabled iff ffmpeg succeeded |
| OrderedDict.ODict.Put | poll_zm_for_events.py:329 | assignment keeps a known key's place and appends a new one, preserving validity |
| OrderedDict.ODict.Remove | poll_zm_for_events.py:335 | `pop` removes the key and keeps the others in order |
| Poller.PartId | poll_zm_for_events.py:149 | at most one number per part of the camera list |
| Poller.ParseMonitorsOfList | poll_zm_for_events.py:148-149 | a list written as `1,2,3` parses back to the same numbers |
| Poller.FilterPageAdmits | poll_zm_for_events.py:215-224 | only events of allowed cameras are kept, and all come from the page |
| Poller.ListingOnlyAllowed | poll_zm_for_events.py:215-224 | every listed event belongs to an allowed camera |
| Poller.ListingFrom | poll_zm_for_events.py:199-232 | definition of the paged listing; `ListingOnlyAllowed`, `ListingStopsAtShortPage` and `ListEvents` state its properties |
| Poller.ListingStopsAtShortPage | poll_zm_for_events.py:199-232 | a page shorter than the limit is the last one read |
| Poller.FilterEvents | poll_zm_for_events.py:215-224 | the filter loop gives the specified filtered page |
| Poller.ListEvents | poll_zm_for_events.py:188-234 | the listing loop gives the specified listing for the parsed camera list |
| Poller.Pruned | poll_zm_for_events.py:323 | the pruned window holds each entry not older than the bound exactly as often as the window does, none older, and keeps the window's order (a subsequence of it) |
| Poller.Slide | poll_zm_for_events.py:322-324 | after an event at `t` the window holds the recent entries and ends with `t` |
| Poller.PrunedAllNewer | poll_zm_for_events.py:323 | nothing is pruned when every entry is recent |
| Poller.PrunedAllOlder | poll_zm_for_events.py:323 | everything is pruned when every entry is old |
| Poller.NewestFirstNeverPrunes | poll_zm_for_events.py:322-324 | events met newest first never prune the window: it is the old window plus all of them |
| Poller.SpacedOldestFirstStaysSingle | poll_zm_for_events.py:322-324 | events met oldest first and further apart than the window leave a one-entry window |
| Poller.BurstInOneListing | poll_zm_for_events.py:322-330 | within one listing, the event after `limit` closed events of a camera exceeds the threshold |
| Poller.StoreLines | poll_zm_for_events.py:179-182 | definition: one store line per processed entry, in insertion order; `StoreLineHasThreeWords` states what a line holds |
| Poller.StoreLineHasThreeWords | poll_zm_for_events.py:163-182 | a saved line has three words: the id, the date and the time |
| Poller.LoadProcessedIds | poll_zm_for_events.py:155-173 | the loaded processed IDs are always empty |
| Poller.StillOpen | poll_zm_for_events.py:340-354 | the events kept pending are among those re-checked and stay open |
| Poller.PassComplete | poll_zm_for_events.py:340-379 | at the end of the pass the pending keys are the ones that stayed open, and none is processed |
| Poller.Poller.constructor | poll_zm_for_events.py:291-294 | the loop starts with empty processed and pending dicts, empty windows and no downloads |
| Poller.Poller.Admit | poll_zm_for_events.py:322-332 | the event slides into its camera's window and is marked with its start stamp; `over` iff the window exceeds the threshold |
| Poller.Poller.Fetch | poll_zm_for_events.py:335-336 | the event leaves the pending dict and one download is requested |
| Poller.Poller.HandleListed | poll_zm_for_events.py:304-338 | a processed event changes nothing; an open one is stored as pending; an unparseable start aborts; a finished one is marked and downloaded iff its window is within the threshold |
| Poller.Poller.ListNext | poll_zm_for_events.py:304-338 | one turn binds `ev` to the event and loses no processed or pending ID. Unless the cycle aborts, the event ends up processed or pending, and processed when finished |
| Poller.Poller.ListingPass | poll_zm_for_events.py:304-338 | on success every listed event is processed or pending, every finished one is processed, and `ev` is left bound to the last one |
| Poller.Poller.Recheck | poll_zm_for_events.py:340-379 | a processed or unanswered pending event is dropped. One still open stays. One that closed is stamped with the start of the leftover `ev`, using the re-fetched camera, or the cycle aborts when `ev` has none |
| Poller.Poller.Drop | poll_zm_for_events.py:340-351 | the event leaves the pending dict and nothing else changes |
| Poller.Poller.Close | poll_zm_for_events.py:361-379 | the closed event slides into its camera's window, is marked with its stamp and leaves the pending dict. A download is requested iff the window stays within the threshold |
| Poller.Poller.RecheckAt | poll_zm_for_events.py:340-379 | one re-check inside the pass keeps the pass invariant |
| Poller.Poller.ReconcilePending | poll_zm_for_events.py:340-379 | the pending events left are exactly those not processed, answered and still open. Every closed one is processed with the leftover `ev` stamp, and no pending event is processed |
| Poller.Poller.SaveStore | poll_zm_for_events.py:179-182 | the store is rewritten as one line per processed event and nothing else changes |
| Poller.Poller.PollCycle | poll_zm_for_events.py:296-381 | a completed cycle processes every finished listed event, leaves no pending event processed and saves the store; an aborted one leaves the store as it was |
| Auth.Step | poll_zm_for_events.py:87-145 | a request is made iff the token is unusable. Only a grant changes the state. A grant sets the expiry to now plus one hour, or ten years when authentication is found off, and keeps the state usable for the next hour. Without a usable token the reply decides: a raising request is `Raised`; a non-200 or non-JSON answer is `Refused`; a 200 JSON body with a non-empty `access_token` grants that token for an hour; without one, `version` and `apiversion` together grant the dummy token for ten years and switch authentication off; anything else is `Refused` with the state unchanged. A grant happens exactly in those two cases. Authentication is off iff it was already, or the server sent version and apiversion |
| Auth.RequestAfterTheHour | poll_zm_for_events.py:91-113 | after a normal grant, a call an hour or more later sends a new login request |
| Auth.DisabledIsFinal | poll_zm_for_events.py:91-92 | once authentication is off, no request is ever made again and the state never changes |
| Auth.NoRequestWithinTheHour | poll_zm_for_events.py:91-113 | calls within an hour of a grant make no request and keep the state |
| Auth.Session.constructor | poll_zm_for_events.py:66-68 | the login state starts with no token, expiry 1 and authentication assumed on |
| Auth.Session.Login | poll_zm_for_events.py:87-145 | `login_bauth` updates the globals as the step function says |
| Detector.Stem | yolo8_analyze.py:103 | the stem is a prefix of the name |
| Detector.StemOfMp4 | yolo8_analyze.py:103 | `splitext` removes the `.mp4` extension |
| Detector.ExtractIds | yolo8_analyze.py:101-107 | the ids come back iff the stem splits on `-` into exactly two digit strings, otherwise `("unknown", "unknown")` |
| Detector.ExtractIdsOfDownload | yolo8_analyze.py:101-107 | the ids read back from the poller's `<monitor>-<event>.mp4` path are the poller's ids |
| Detector.Fold | yolo8_analyze.py:88-93 | the kept dict holds, per allowed class, one candidate of that class |
| Detector.Keep | yolo8_analyze.py:88-93 | definition of offering one candidate; `FoldKeeps` and `FoldPicksFirstMax` state what the fold of it keeps |
| Detector.FoldKeeps | yolo8_analyze.py:82-95 | a class is kept iff it is allowed and some candidate has it |
| Detector.FoldPicksFirstMax | yolo8_analyze.py:82-95 | the kept candidate of a class is its first most confident one |
| Detector.BoxCandidates | yolo8_analyze.py:85-91 | definition: each box becomes its class, confidence and `(x1, y1, x2-x1, y2-y1)`; `DetectObjects` states what the fold over them keeps |
| Detector.DetectObjects | yolo8_analyze.py:77-95 | per allowed class seen in the frame, the first most confident box, classes in order of first sighting |
| Detector.SampleInterval | yolo8_analyze.py:114-124 | the interval is at least 1. It is 1 for a missing or sub-1 frame rate. Otherwise it is within one half of the rate |
| Detector.Sightings | yolo8_analyze.py:141-143 | definition: one sighting per class the frame's dict holds, tagged with the frame number; `OnlySampledFrames` and `BestOfClip` state the properties |
| Detector.OnlySampledFrames | yolo8_analyze.py:129-139 | every sighting comes from a frame in 1..n that the interval divides |
| Detector.SaveNamesDiffer | yolo8_analyze.py:180 | different classes of one event get different file names |
| Detector.SaveNames | yolo8_analyze.py:170-180 | definition: one `<cam>_<event>_<class>.jpg` per kept class, in the dict's order; `SaveNamesDistinct` proves that none repeats |
| Detector.SaveNamesDistinct | yolo8_analyze.py:170-182 | no picture overwrites another of the same event |
| Detector.BestOfClip | yolo8_analyze.py:141-151 | the kept sighting of a class is its first most confident one over the sampled frames |
| Detector.Offer | yolo8_analyze.py:146-151 | a listed class replaces its entry only when strictly more confident; other classes are untouched |
| Detector.MergeFrame | yolo8_analyze.py:141-151 | merging one frame equals folding its sightings after the earlier ones |
| Detector.FrameCandidatesNext | yolo8_analyze.py:129-143 | frame `n` adds its sightings iff the interval divides `n` |
| Detector.SampleFrames | yolo8_analyze.py:129-151 | the frame loop's result is the fold of the sightings of the sampled frames |
| Detector.ProcessVideo | yolo8_analyze.py:112-182 | per class, the first most confident sighting from a sampled frame in range. One distinct save name per kept class, none without frames |
| Notifier.CamIdList | email_notify.py:205 | definition: one prefix per comma-separated item, the stripped item followed by `_`; `CamIdListOfIds` and `NotifiesListedCameras` state what it matches |
| Notifier.EmptySettingPrefix | email_notify.py:205 | an empty setting gives the single prefix `_` |
| Notifier.CamIdListOfIds | email_notify.py:205 | a list of camera ids gives `<id>_` per id, in order |
| Notifier.PrefixNamesCamera | email_notify.py:128 | a picture of camera `c` matches `<k>_` iff `c == k` (so `13_` never matches `3_`) |
| Notifier.NotifiesListedCameras | email_notify.py:128 | a picture is queued by name iff its camera is in the setting |
| Notifier.EmptySettingNotifiesNoCamera | email_notify.py:128 | with an empty setting no detection picture is queued |
| Notifier.Basenames | email_notify.py:84 | definition: the base names of the batch, in order; `BodyLists` states that the body lists them |
| Notifier.SubjectCount | email_notify.py:83 | the number in the subject reads back as the batch size |
| Notifier.BodyLists | email_notify.py:84 | after the header, the body's lines are the base names in batch order |
| Notifier.Watcher.constructor | email_notify.py:117-118 | the watcher starts with an empty queue and the prefixes of the setting |
| Notifier.Watcher.OnCreated | email_notify.py:120-131 | a created path is appended iff it is not a directory, created since start-up and its name has a camera prefix |
| Notifier.Watcher.Drain | email_notify.py:77-84 | an empty queue sends nothing. Otherwise the batch is the queue in append order, the queue is cleared, and the subject and body describe the batch. Nothing queued is lost |
| Notifier.DrainedOnce | email_notify.py:77-113 | with distinct queued paths, no path is drained twice and no drained path is still waiting, so each file is mailed at most once |

## Left out

- HTTP, ffmpeg, ffprobe, YOLO and OpenCV, SMTP and MIME, the folder watcher, threads, the lock and `sleep` are not modelled. Their results are parameters: listing pages, re-fetched events, fetch outcomes, login replies, probe results, return codes, per-frame boxes and file-creation events.
- `zm_ai.py` (the web front end) is not part of this model.
- Floating point: percentages, speeds, durations and confidences are reals, and times are whole seconds. Sub-second event times and `round(x, 3)` of the clip offsets are not modelled.
- Clock.ParseStamp: accepts only the zero-padded 19-character form with one space, which is the form `strftime` writes. `strptime` also accepts one-digit month, day, hour, minute and second fields, a day padded with a space, and any run of whitespace between date and time. Such a start time aborts the poller's cycle in the model (poll_zm_for_events.py:319, 362), and such a log line is kept by the retention pass without the cutoff test (poll_zm_for_events.py:426, yolo8_analyze.py:238). The recorder and the scripts write the padded form. Whitespace is the ASCII set; Python's `\s` also matches other Unicode spaces.
- Download.PlanTrim: the `exists()` tests on the first and last clip (zm_export.py:657, 670, 682) are not modelled. The model assumes that a clip saved by the download loop still exists when it is trimmed.
- Datetime parsing in the exporter (`_parse_dt`, ISO forms) is not modelled: listed start and end times are given as seconds, or as missing.
- Progress.RunWithProgress: the exception path of the progress loop (zm_export.py:200-211) is not modelled. The quarter-second wall-clock throttle is a per-line input flag.
- Progress.RoundHalfEven: ties go to the even integer as Python does, but the contract states only the half-unit bound and monotonicity.
- Detector.SampleInterval: states that the interval is within one half of the frame rate, not which way ties round.
- Concat.ConcatDownloads: requires a positive speed whenever the `atempo` chain would be built. The source's halving loop never ends for a speed ≤ 0.
- Concat.ConcatDownloads: the concat list file, the GPU encoder probe, the command-line text and the deletion of the clips after success are not modelled.
- The concat writes at zm_export.py:768-842 and 926-945 omit `want_concat`, as the source does, so they are stored as jobs without concat.
- `skipped_existing` is never incremented in the source; the model keeps it at 0.
- `attempted` counts only requests that got a response, and the bytes of a transfer that fails part-way stay counted, as in the source.
- The trim plan takes the first clip by first match and the last clip by last match in `events_out`, as the source does. The ffmpeg cuts are returned, not run.
- The buffered-overlap test at zm_export.py:1096-1099 never decides anything on its own: the unbuffered test implies it.
- The export's `last_ev_start_in_page` carries over from page to page, as in the source.
- Poller.LoadProcessedIds: the loader asks for lines of two words, but a saved line has three, because the stamp holds a space. `strptime` also cannot parse a word without a space. The store therefore always loads empty. The model follows the code here, although the store is meant to survive a restart.
- `mark_id_as_processed` is never called in the source and is not modelled.
- The required-keys checks at poll_zm_for_events.py:307-310 and 348-359 cannot fail, because the listing and the re-fetch always build those keys. They are folded into the re-fetch answer, where `None` stands for a failed re-fetch.
- The pending pass takes the start time of the event `ev` last bound by the listing loop (poll_zm_for_events.py:362), as the source does. When `ev` is unbound or has no parseable start, the resulting exception aborts the cycle.
- Exceptions in the poller's cycle are modelled as an abort that skips the rest of the cycle, including the store rewrite. The logging of the exception is not modelled.
- The token check is not modelled in the three routines that call it: `get_events_in_range_by_start` (poll_zm_for_events.py:189), `get_event_by_id` and `download_event_video`. The video transfer itself is not modelled either. A download is recorded as the request `download_event_video(eid, cam)`.
- The listing's login at poll_zm_for_events.py:189 runs outside the listing's `try`. A raising login request therefore ends the whole cycle (poll_zm_for_events.py:383). The model's listing has no login step, so it does not capture that abort.
- Auth.Session.Login: the token file write is not modelled (nothing reads the file). The second `time.time()` reading in the authentication-off branch is taken to be the same instant. A failing request is the `Raised` outcome.
- Detector.ProcessVideo: the frame reader is the sequence of per-frame boxes. The unreachable `fps <= 0` error, the log lines, the drawing of boxes and `imwrite` are not modelled. The saved file names are returned, not written.
- Digit tests (`isdigit`, `int()`) accept ASCII digits only; Unicode digits and underscores in numbers are not modelled.
- Notifier: file creation times are whole seconds. Attachments and the outcome of sending are not modelled: the queue is cleared before sending, so the outcome cannot re-queue a file.
- Progress.CounterWrite: the snapshot keeps the fields the progress logic reads. The `monitor_id`, `current_file` and `http` fields (zm_export.py:570-699) are not modelled. A failing write is swallowed by the source (zm_export.py:96-97); the model treats every write as stored.
- `printLog`'s console output is returned as the printed text. A failure to write the log file is not modelled.
