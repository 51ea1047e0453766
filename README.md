# EEG acquisition and viewer tools, modelled in Dafny

The repository holds two PyQt desktop tools for an eight-channel EEG board.
The board streams text lines over TCP from an ESP32.

- `wifi_plot_filter.py` is the acquisition tool, `DataAcquisitionWindow`.
  - It runs a timed motor-imagery protocol. Each round shows "Rest", a fixation cross and "Left", then "Rest", a cross and "Right".
  - While a Left or Right phase records, it logs every `Channel:` line as a trial row.
  - At the end it writes a raw CSV and a band-pass filtered CSV.
- `wifi_plot_only.py` is the live viewer, `ADCPlotter`.
  - Every 100 ms it draws the last 750 values of channels 1 to 8.
  - It also draws their spectra and a head map coloured by the latest amplitudes.
  - It keeps the last ten received lines in a text box.
  - A button toggles the board between its normal and test modes.

Both tools share the reader thread `TCPThread`. It frames the byte stream into
lines, emits every stripped non-empty line, and pushes each nine-field sample
line into nine bounded buffers of 750 values.

The model, module by module:

| module | file | models |
|---|---|---|
| `Text` | text.dfy | `str.split`, `str.join`, `str.strip()`, `xs[-n:]` |
| `Patterns` | patterns.dfy | the sample pattern `^([\d\.\-eE]+,){8}[\d\.\-eE]+$` and the `Channel:` pattern as direct matchers |
| `Decimal` | decimal.dfy | `float()` over the pattern's alphabet, with exact rational values; its inverse `FormatFixed` |
| `Framing` | framing.dfy | what the reader computes from all text received so far: complete lines, pending fragment, samples, per-channel histories, `deque(maxlen=750)` |
| `Reader` | reader.dfy | class `TcpReader`. Its receive loop, line handling and buffer pushes update its fields in place. Each method is proved to keep the state equal to the `Framing` functions of the received text. |
| `Trials` | trials.dfy | the `Channel:` line check and the trial row `[timestamp] + eeg + [class]` |
| `Filters` | filters.dfy | the guard and branch structure of `apply_bandpass_filter` and `apply_lowpass_filter`. `filtfilt` is a length-preserving parameter that refuses a signal not longer than its pad length. |
| `Export` | export.dfy | `saveCSV` as a row and column transformation. The filtered table is filled column by column in a two-dimensional array. |
| `Sequencer` | sequencer.dfy | the acquisition protocol as a state machine over a `Session` value. `QTimer.singleShot` becomes a list of armed timers, and the event loop fires the earliest first. |
| `Acquisition` | acquisition.dfy | class `AcquisitionWindow`. Every method is proved to move the window exactly as the matching `Sequencer` function moves a `Session`. |
| `Interleaving` | interleaving.dfy | the acquisition window with serial lines arriving between timer firings, as a replay of events |
| `Viewer` | viewer.dfy | class `Plotter` (the viewer window): the text box, the mode button, and `update_plot` with its per-channel loops; also the head-map colours |

The main results:

- **Framing.** The reader's framing depends only on the concatenated text, never on where chunks break. The pending fragment never holds a line feed. An empty chunk changes nothing.
- **Sample lines and buffers.**
  - A line enters the buffers exactly when it is nine non-empty comma-separated fields over `[0-9.eE-]` that all parse.
  - Every buffer then holds the last 750 values of its own channel, so the nine buffers always have equal length.
  - `--` passes the pattern but not `float`, so such a line reaches no buffer.
- **Acquisition protocol.**
  - A start with `n >= 1` rounds, a non-negative rest and phases of at least 0.3 s runs exactly `n` rounds in `9n` timer firings.
  - The instructions shown are `n` copies of "Rest", "", "Left", "Rest", "", "Right", followed by "Collection finish".
  - The log is saved once and start is enabled again.
  - In every intermediate state, recording is on only while "Left" or "Right" is shown, and rows carry the class shown.
  - All of this holds whatever serial lines arrive between the timer firings. The one saved log is then exactly the rows logged on the way.
- **Short phases.** A Left phase shorter than the 300 ms recording delay ends before recording starts. Recording then switches on during the following "Rest" and labels those rows Left.
- **Export.**
  - The filtered file keeps the row count, timestamps and classes.
  - Each channel column is filtered independently.
  - An empty log writes no filtered file.
  - As written, `saveCSV` raises on a log of 15 to 33 rows. The exception escapes `runRound` and ends the application after the raw file. The rest of the model uses the corrected guard (see Findings).
- **Viewer.**
  - The text box holds the last ten lines, the newest last.
  - The mode button alternates between "Normal" and "Test".
  - Each curve, spectrum window and head amplitude is derived from that channel's last 750 values.
  - The y-range spans exactly the checked channels' values.
  - Larger amplitudes never get a milder colour.

## Model

| member | source | states |
|---|---|---|
| Text.Split | wifi_plot_filter.py:65 | `split('\n')` yields one more piece than there are separators, and no piece holds the separator |
| Text.JoinSplit | wifi_plot_only.py:294-299 | joining the pieces of a split gives back the original text |
| Text.SplitJoin | wifi_plot_only.py:294-299 | splitting a join of separator-free parts gives back the parts |
| Text.Strip | wifi_plot_filter.py:69 | `strip()` returns the infix that neither starts nor ends with whitespace; everything removed is whitespace |
| Text.Suffix | wifi_plot_filter.py:52 | what `deque(maxlen=n)` keeps: the last `min(len, n)` elements, in order |
| Text.PyTail | wifi_plot_only.py:89 | `xs[-n:]` for every integer `n`, including zero and negative `n` |
| Patterns.MatchesWholeIffFields | wifi_plot_filter.py:75 | on a line without a line feed, the anchored pattern matches exactly when the line is nine comma-separated non-empty runs of pattern characters |
| Decimal.ParsedFieldInClass | wifi_plot_filter.py:75-78 | every text `float` accepts here is a non-empty run of the pattern's characters |
| Decimal.FormatFixedRoundTrip | wifi_plot_filter.py:78 | `float` reads back exactly the value of any fixed-point rendering `FormatFixed(units, places)` |
| Framing.Emit | wifi_plot_filter.py:68-72 | at most one line per piece, and no emitted line is empty |
| Framing.Pending | wifi_plot_filter.py:62-66 | the kept fragment holds no line feed and is the tail of all text received, starting right after its last line feed (or at its start when there is none) |
| Framing.SplitExtends | wifi_plot_filter.py:62-66 | splitting old text plus a chunk keeps the old complete pieces and re-splits the fragment with the chunk |
| Framing.EmitConcat | wifi_plot_filter.py:68-72 | lines emitted from two runs of pieces are the concatenation of each run's lines |
| Framing.ReceiveExtends | wifi_plot_filter.py:59-72 | a chunk adds exactly the complete lines of fragment plus chunk, and its last piece becomes the new fragment; framing is independent of chunk boundaries |
| Framing.ParseAll | wifi_plot_filter.py:78 | all fields parse exactly when the list comprehension does not raise, and then value `i` is field `i`'s value |
| Framing.ParseSampleIff | wifi_plot_filter.py:75-80 | a line is a sample exactly when it has nine pattern fields that all parse, and each channel then receives its own field |
| Framing.UnparsableFieldRejects | wifi_plot_filter.py:77-82 | a field `float` rejects keeps the whole line out of every buffer |
| Framing.DoubleDashRejected | wifi_plot_filter.py:75-82 | a line whose first field is `--` passes the pattern and still reaches no buffer |
| Framing.HistoryAppend | wifi_plot_filter.py:79-80 | a new sample extends each channel's history by that sample's own field |
| Framing.PushKeepsSuffix | wifi_plot_filter.py:52 | pushing onto the last 750 values gives the last 750 of the extended history; a full buffer drops exactly its oldest value |
| Framing.SuffixOfSuffix | wifi_plot_only.py:85-90 | the `n <= 750` most recent buffered values are the `n` most recent values overall |
| Reader.TcpReader.constructor | wifi_plot_filter.py:37-52 | a failed connect leaves `running` false; buffers and fragment start empty |
| Reader.TcpReader.Receive | wifi_plot_filter.py:59-66 | after a chunk, fragment, emitted lines and buffers equal the framing functions of all text received; an empty chunk changes nothing |
| Reader.TcpReader.HandleLines | wifi_plot_filter.py:68-72 | the loop over `lines[:-1]` emits `Emit(Init(lines))` and keeps the buffers matched to the samples |
| Reader.TcpReader.HandleLine | wifi_plot_filter.py:69-82 | one line is stripped, skipped if empty, and emitted; a sample is pushed; a line that fails to parse changes no buffer |
| Reader.TcpReader.PushSample | wifi_plot_filter.py:79-80 | channel `i`'s buffer receives value `i`, bounded at 750, and nothing else changes |
| Reader.TcpReader.Run | wifi_plot_filter.py:55-87 | the loop appends every chunk up to the first failure, skips time-outs, and keeps the state valid |
| Reader.TcpReader.BuffersAligned | wifi_plot_filter.py:79-80 | all nine buffers have the same length: the number of samples so far, capped at 750 |
| Reader.TcpReader.Stop | wifi_plot_filter.py:89-94 | `stop` clears `running` and closes the socket; nothing else changes |
| Reader.TcpReader.SendData | wifi_plot_only.py:79-83 | `data + '\n'` is sent when the socket is usable; otherwise the failure is swallowed |
| Reader.TcpReader.LatestData | wifi_plot_only.py:85-90 | `None` exactly before the first sample; otherwise nine rows, each the `min(size, 750)` most recent values of its channel |
| Reader.ParsedSample | wifi_plot_filter.py:75-80 | a pattern-matching line whose fields parse is a sample with exactly nine values |
| Reader.PoolStep | wifi_plot_filter.py:79-80 | pushing a sample keeps every buffer equal to the last 750 values of its channel's history |
| Reader.LatestRows | wifi_plot_only.py:85-90 | the rows `get_latest_data` slices from the buffers are the most recent values of each channel's history |
| Trials.BeforeMarker | wifi_plot_filter.py:288 | `split('Channel:')[1]` after the marker is a prefix of the rest of the line |
| Trials.BeforeFirstMarker | wifi_plot_filter.py:288 | that prefix stops at the first marker: none starts inside it, and one starts right after it unless it is the whole rest |
| Trials.TrialRowOf | wifi_plot_filter.py:285-295 | a row exists only for a `Channel:` line; it carries the given timestamp and class, and payload fields 2 to 9 |
| Trials.RowOfFields | wifi_plot_filter.py:288-293 | with at least nine fields, a row exists exactly when every field parses |
| Trials.TrialRowIff | wifi_plot_filter.py:286-288 | a line the `Channel:` pattern accepts has at least nine payload fields; it yields a row exactly when all of them parse |
| Trials.SampleLineIsNoTrial | wifi_plot_filter.py:75 | the sample pattern and the `Channel:` pattern (line 286) are disjoint: a sample line is never a `Channel:` line and yields no trial row |
| Trials.PayloadFieldCount | wifi_plot_filter.py:286-288 | each field the pattern consumes ends before the next marker, so the payload holds at least eight commas |
| Filters.CoefficientCount | wifi_plot_filter.py:24-29 | a design of order `n` has more than `n` coefficients, so `filtfilt`'s pad length always exceeds three times the order |
| Filters.FiltFilt | wifi_plot_filter.py:25-30 | `filtfilt` succeeds exactly on signals longer than three times the coefficient count, and keeps their length |
| Filters.BandDesign | wifi_plot_filter.py:21-29 | a non-positive `lowcut` selects a low-pass at `highcut`, otherwise a band-pass; frequencies are divided by `0.5 * fs` |
| Filters.ToolDesignsAccepted | wifi_plot_filter.py:19-29 | the designs both tools ask for (0.5 to 30 Hz, and the viewer's 50 Hz low-pass, at 500 Hz) have normalised frequencies `butter` accepts |
| Filters.BandpassFilter | wifi_plot_filter.py:14-30 | a signal shorter than `3 * order` comes back unchanged; any other goes through `filtfilt` with the selected design |
| Filters.BandpassGuardTooShort | wifi_plot_filter.py:19-30 | with the tool's settings, a 15-sample signal passes the guard and `filtfilt` rejects it |
| Filters.BandpassFilterSafe | wifi_plot_filter.py:19-30 | the corrected filter never fails: too-short signals come back unchanged and longer ones are filtered |
| Filters.SafeAgreesWhereDefined | wifi_plot_filter.py:19-30 | wherever the original returns a signal, the corrected filter returns the same one |
| Filters.LowpassFilter | wifi_plot_only.py:307-313 | a signal shorter than 19 samples comes back unchanged, and the length is kept |
| Filters.LowpassNeverFails | wifi_plot_only.py:307-313 | with order at most 5 the guard of 19 covers the pad length, so the low-pass never fails |
| Export.Column | wifi_plot_filter.py:311-313 | column `ch` holds channel `ch` of every row, in row order |
| Export.FilteredColumn | wifi_plot_filter.py:316-318 | a column filtered with the corrected guard (`BandpassFilterSafe`) has one value per row |
| Export.FilteredColumnAsWritten | wifi_plot_filter.py:316-318 | a column filtered by the original function, when it does not raise, has one value per row |
| Export.AsWrittenFailsOnShortLogs | wifi_plot_filter.py:316-318 | the original filter raises exactly for logs of 15 to 33 rows; elsewhere it agrees with the corrected one |
| Export.ColumnsAsWritten | wifi_plot_filter.py:316-318 | the loop over the channels completes exactly when no channel's filter raises, and then holds each channel's filtered column |
| Export.CsvAsWrittenRaises | wifi_plot_filter.py:297-329 | as written, `saveCSV` raises after the raw file exactly on a log of 15 to 33 rows; on any other log it writes what the corrected `SaveCsv` writes |
| Export.SaveCsv | wifi_plot_filter.py:297-329 | with the corrected guard, the two files written are the raw log and, unless the log is empty, the filtered table |
| Export.CsvShape | wifi_plot_filter.py:305-323 | with the corrected guard, the raw file is the log; a filtered file exists exactly for a non-empty log and keeps row count, timestamps and classes |
| Export.ChannelsFilteredIndependently | wifi_plot_filter.py:316-321 | output column `ch` is the filtered input column `ch` |
| Export.SameColumnSameOutput | wifi_plot_filter.py:316-318 | two logs that agree on a column get the same filtered column |
| Export.ShortLogUnfiltered | wifi_plot_filter.py:316-318 | with the corrected guard, a log of at most 33 rows is written unfiltered; as written only one under 15 rows is, and 15 to 33 rows raise (`CsvAsWrittenRaises`) |
| Sequencer.Initial | wifi_plot_filter.py:175-190 | the window starts not recording, with no timer, an empty log and start enabled |
| Sequencer.Schedule | wifi_plot_filter.py:239 | `singleShot(ms, f)` arms `f` at `clock + ms`; a negative timeout arms nothing |
| Sequencer.MillisTruncates | wifi_plot_filter.py:214 | `int(x * 1000)` truncates toward zero and is negative exactly when `x * 1000 <= -1` |
| Sequencer.HandleSerialData | wifi_plot_filter.py:283-295 | the log is unchanged or gains one row while recording; nothing else changes |
| Sequencer.HandleSerialDataAppends | wifi_plot_filter.py:283-295 | a row is appended exactly while recording for a `Channel:` line whose fields parse, labelled with the current class |
| Sequencer.EarliestIndexIsFirstDue | wifi_plot_filter.py:250-251 | the timer run next is due first, and among timers due together it is the one armed first |
| Sequencer.FireMovesForward | wifi_plot_filter.py:239-275 | firing never moves the clock back and keeps every armed timer ahead of it |
| Sequencer.DispatchMovesForward | wifi_plot_filter.py:239-275 | every callback arms timers only at or after the current time |
| Sequencer.StartFallbacks | wifi_plot_filter.py:208-231 | with unreadable inputs: 1 round, 1000 ms rest, 3000 ms per phase; the log is cleared, start disabled, and "Rest" shown |
| Sequencer.RunRoundFinishes | wifi_plot_filter.py:232-237 | with no round left and the corrected `saveCSV`: "Collection finish" is shown, the log saved once, and start enabled |
| Sequencer.RunRoundAsWrittenAborts | wifi_plot_filter.py:232-237 | as written, a finishing `runRound` whose log has 15 to 33 rows ends the application, leaving the log in the raw file only; in every other case it is the corrected `RunRound` |
| Sequencer.StartWithoutRounds | wifi_plot_filter.py:208-237 | a start with zero or fewer rounds finishes at once, saving an empty log |
| Sequencer.FireCrossBeforeLeft | wifi_plot_filter.py:242-245 | the rest timer shows the cross and arms "Left" one second later |
| Sequencer.FirePhaseLeft | wifi_plot_filter.py:247-252 | "Left" is shown, the class set to Left, and the 300 ms start and phase-end timers armed |
| Sequencer.FireStartRecording | wifi_plot_filter.py:277-278 | the start timer switches recording on |
| Sequencer.FireStopAfterLeft | wifi_plot_filter.py:254-258 | the end of Left stops recording, shows "Rest" and arms the cross before Right |
| Sequencer.FireCrossBeforeRight | wifi_plot_filter.py:260-263 | the rest timer shows the cross and arms "Right" one second later |
| Sequencer.FirePhaseRight | wifi_plot_filter.py:265-270 | "Right" is shown, the class set to Right, and the two timers armed |
| Sequencer.FireFinishRound | wifi_plot_filter.py:272-275 | the end of Right stops recording, counts the round, and arms `runRound` one second later with "Right" still shown |
| Sequencer.FireRunRound | wifi_plot_filter.py:232-240 | the gap timer runs `runRound` |
| Sequencer.OneRound | wifi_plot_filter.py:238-275 | from "Rest", nine firings show cross, "Left", "Rest", cross, "Right", and then either "Rest" again with one round fewer, or "Collection finish" with the log saved (corrected `saveCSV`) |
| Sequencer.OneRoundRecords | wifi_plot_filter.py:247-281 | within a round, recording is on only while a class is shown, labelled with that class; only the last firing saves the log, and it arms nothing and records nothing after |
| Sequencer.RemainingRounds | wifi_plot_filter.py:232-275 | with `n` rounds left, `9n` firings run them all and finish with the log saved once (corrected `saveCSV`); `Interleaving.ReplayControl` carries this to runs with serial lines |
| Sequencer.RemainingRoundsRecord | wifi_plot_filter.py:247-281 | in every state of the remaining rounds, recording is on only while a class is shown, and the log is saved at most once, after which nothing is armed or recorded |
| Sequencer.RoundsShown | wifi_plot_filter.py:232-275 | the opening "Rest" and the `n` rounds are `n` copies of the six round instructions plus "Collection finish" |
| Sequencer.AcquisitionRunsAllRounds | wifi_plot_filter.py:208-281 | a start with `n >= 1` rounds runs exactly `n` rounds in `9n` firings, shows them in order, saves the log once (empty, as no line arrives between firings; `Interleaving.AcquisitionWithLines` covers lines) and re-enables start; recording happens only under the class shown |
| Sequencer.NegativeRestStalls | wifi_plot_filter.py:213-239 | a rest of -1 ms or less arms no timer, so the session stays at its first "Rest" forever with start disabled |
| Sequencer.ShortLeftPhaseRecordsDuringRest | wifi_plot_filter.py:247-258 | a Left phase under 300 ms ends before recording starts, so recording runs while "Rest" is shown and labels those rows Left |
| Acquisition.AcquisitionWindow.constructor | wifi_plot_filter.py:175-190 | the window's state is `Sequencer.Initial()` and no file has been written |
| Acquisition.AcquisitionWindow.ShowInstruction | wifi_plot_filter.py:103-105 | `setInstruction` changes the text shown and nothing else |
| Acquisition.AcquisitionWindow.SingleShot | wifi_plot_filter.py:239 | the window moves as `Sequencer.Schedule` |
| Acquisition.AcquisitionWindow.StartAcquisition | wifi_plot_filter.py:208-231 | the window moves as `Sequencer.StartAcquisition`; every file written is the export of the log saved |
| Acquisition.AcquisitionWindow.Configure | wifi_plot_filter.py:209-230 | inputs are read with their fall-backs; the log is cleared, start disabled and the time taken |
| Acquisition.AcquisitionWindow.ReadSettings | wifi_plot_filter.py:209-224 | the round count falls back to 1 and the durations, in truncated milliseconds, to 1000, 3000 and 3000; no file changes |
| Acquisition.AcquisitionWindow.ResetLog | wifi_plot_filter.py:226-229 | the trial log is emptied, start disabled and the start time taken; no file changes |
| Acquisition.AcquisitionWindow.RunRound | wifi_plot_filter.py:232-240 | the window moves as `Sequencer.RunRound`; a finishing call writes exactly `Export.CsvOf` of the log (corrected `saveCSV`) |
| Acquisition.AcquisitionWindow.ShowCrossBeforeLeft | wifi_plot_filter.py:242-245 | the window moves as `Sequencer.ShowCrossBeforeLeft` |
| Acquisition.AcquisitionWindow.PhaseLeft | wifi_plot_filter.py:247-252 | the window moves as `Sequencer.PhaseLeft` |
| Acquisition.AcquisitionWindow.StopRecordingAndRestAfterLeft | wifi_plot_filter.py:254-258 | the window moves as `Sequencer.StopRecordingAndRestAfterLeft` |
| Acquisition.AcquisitionWindow.ShowCrossBeforeRight | wifi_plot_filter.py:260-263 | the window moves as `Sequencer.ShowCrossBeforeRight` |
| Acquisition.AcquisitionWindow.PhaseRight | wifi_plot_filter.py:265-270 | the window moves as `Sequencer.PhaseRight` |
| Acquisition.AcquisitionWindow.StopRecordingAndFinishRound | wifi_plot_filter.py:272-275 | the window moves as `Sequencer.StopRecordingAndFinishRound` |
| Acquisition.AcquisitionWindow.StartRecording | wifi_plot_filter.py:277-278 | recording is switched on and nothing else changes |
| Acquisition.AcquisitionWindow.StopRecording | wifi_plot_filter.py:280-281 | recording is switched off and nothing else changes |
| Acquisition.AcquisitionWindow.HandleSerialData | wifi_plot_filter.py:283-295 | the window moves as `Sequencer.HandleSerialData`, so every row logged is a recorded `Channel:` line |
| Acquisition.AcquisitionWindow.Run | wifi_plot_filter.py:239-275 | a fired callback moves the window as `Sequencer.Dispatch` |
| Interleaving.HandleControl | wifi_plot_filter.py:283-295 | a serial line changes nothing but the trial log |
| Interleaving.DispatchFrame | wifi_plot_filter.py:232-281 | no callback reads the log or the saved files; only the finishing `runRound` saves, and it saves the current log |
| Interleaving.FireFrame | wifi_plot_filter.py:232-281 | the timer run next and its effect do not depend on the log |
| Interleaving.FireControl | wifi_plot_filter.py:232-281 | from states alike but for the log, a firing leads to states alike but for the log, and saves in both or neither |
| Interleaving.ReplayControl | wifi_plot_filter.py:232-295 | with any serial lines between the firings, everything but the log and the saved files evolves exactly as under the firings alone |
| Interleaving.ReplayLog | wifi_plot_filter.py:283-295 | the log after the events is the old log followed by one row for each line that arrives while recording and yields a row |
| Interleaving.AllSettled | wifi_plot_filter.py:232-281 | every state the timers reach from a round's "Rest" records only under a shown class and has saved the log at most once |
| Interleaving.ReplayTracks | wifi_plot_filter.py:232-295 | along any events a run stays alike to the firings alone but for the log, saves the log at most once, and labels every logged row Left or Right |
| Interleaving.RoundsWithLines | wifi_plot_filter.py:232-295 | from the first "Rest" of `n` rounds, with lines between the `9n` firings, the rounds are shown, start is enabled, and exactly the rows logged on the way are saved once |
| Interleaving.ReplayRecordsShownClass | wifi_plot_filter.py:247-295 | after any events, recording is on only while a class is shown |
| Interleaving.AcquisitionWithLines | wifi_plot_filter.py:208-295 | a start with `n >= 1` rounds, with any serial lines between its `9n` firings, shows the `n` rounds and "Collection finish", re-enables start and saves once exactly the rows logged, each labelled with a class shown |
| Acquisition.AcquisitionWindow.FireNext | wifi_plot_filter.py:239-275 | one event-loop turn moves the window as `Sequencer.Fire`, so every `Sequencer` theorem holds of the window |
| Viewer.AppendLogLines | wifi_plot_only.py:292-299 | after a line arrives, the box holds at most ten lines: the last of the old lines, then the new one |
| Viewer.LogShowsLastLines | wifi_plot_only.py:292-299 | from an empty box, the box shows the last ten of `[""]` plus the lines received |
| Viewer.SuffixPush | wifi_plot_only.py:297-298 | keeping the last ten after each append keeps the last ten overall |
| Viewer.SwitchMode | wifi_plot_only.py:284-290 | from "Normal" it sends "3" and shows "Test"; from any other text it sends "1" and shows "Normal" |
| Viewer.SwitchModeTwice | wifi_plot_only.py:284-290 | the button only reads "Normal" or "Test"; two switches restore it, having sent one "3" and one "1" |
| Viewer.Series | wifi_plot_only.py:324-330 | an unchecked channel draws nothing; a checked one draws its low-pass filtered wave, unchanged below 19 samples |
| Viewer.SpectrumWindow | wifi_plot_only.py:348-361 | the spectrum is over the last 256 samples, or all if fewer; there is none for an unchecked channel or at most two samples |
| Viewer.HeadAmplitude | wifi_plot_only.py:368-372 | the amplitude is the magnitude of the latest sample, or 0 for an empty wave |
| Viewer.SelectChecked | wifi_plot_only.py:333-336 | `selected_data` holds the checked channels' waves, one each, in channel order |
| Viewer.CheckedWavesCount | wifi_plot_only.py:333-336 | there is one selected wave per checked channel |
| Viewer.Bounds | wifi_plot_only.py:338-339 | the minimum and maximum over the selected waves bound every value and are values themselves |
| Viewer.YRange | wifi_plot_only.py:332-342 | the y-range spans exactly the checked channels' values, or is [-4.5, 4.5] when none is checked |
| Viewer.Curves | wifi_plot_only.py:324-330 | curve `i` is `Series` of wave `i` |
| Viewer.SpectrumWindows | wifi_plot_only.py:348-361 | spectrum `i` is `SpectrumWindow` of wave `i` |
| Viewer.HeadAmplitudes | wifi_plot_only.py:366-372 | head amplitude `i` is `HeadAmplitude` of wave `i`, checked or not |
| Viewer.ColourOf | wifi_plot_only.py:153-159 | red above 0.45, orange above 0.3 up to 0.45, green at 0.3 or below, on the magnitude |
| Viewer.ColourMonotone | wifi_plot_only.py:153-159 | a larger magnitude never gets a milder colour, and the sign does not matter |
| Viewer.LatestOfRecent | wifi_plot_only.py:366-375 | the head map shows the magnitude of each channel's latest sample |
| Viewer.Plotter.constructor | wifi_plot_only.py:181-271 | all channels checked, the button reading "Normal", an empty text box and an all-zero head map |
| Viewer.Plotter.SendData | wifi_plot_only.py:280-282 | the send box's text goes to the board |
| Viewer.Plotter.ModSwitch | wifi_plot_only.py:284-290 | sends `SwitchMode`'s command and shows its new text; nothing else in the window changes |
| Viewer.Plotter.SetChecked | wifi_plot_only.py:254-259 | a checkbox click changes that one channel's flag |
| Viewer.Plotter.HandleSerialData | wifi_plot_only.py:292-299 | the box text becomes `AppendLog` of the line; for a line without a line feed its lines are the last ten |
| Viewer.Plotter.LatestShown | wifi_plot_only.py:316-321 | nothing before the first sample; otherwise channels 1 to 8, each its last 750 values |
| Viewer.Plotter.UpdatePlot | wifi_plot_only.py:315-375 | without a sample nothing changes; otherwise every plot is derived from the channels' last 750 values |
| Viewer.Plotter.Draw | wifi_plot_only.py:323-375 | curves, y-range, spectrum windows and head amplitudes are those of the given waves |

## Left out

- Socket I/O is left out: connecting, `recv`, `sendall`, `close` and their exceptions. The outcome of each `recv` is the input `RecvResult`. A failed connect is the constructor's `connects` flag.
- Byte decoding (`decode(errors='ignore')`) is left out. Chunks are already-decoded text, so a multi-byte character split across chunks is not covered.
- `QThread`, signal delivery between threads, and `wait()` on close are left out. A signal is a direct call, and the reader's `emitted` log records every line signalled.
- The Qt event loop is left out. `QTimer.singleShot` becomes an armed-timer list, and one turn of the loop is `FireNext`. The viewer's 100 ms refresh timer is a call of `UpdatePlot`.
- `time.time()` is the parameter `now`. The viewer's once-per-second `self.beg` update has no visible effect and is not modelled.
- The Butterworth design, `filtfilt` itself and `numpy.fft` are floating-point numerics from SciPy and NumPy. `filtfilt` is the parameter `filt`. The spectrum is represented by the window it is taken over.
- Floating point is left out. Values are exact reals, with no rounding, overflow or `inf`/`nan`.
- `float()` accepts more than the patterns' alphabets, such as `+`, `_`, surrounding spaces, `inf` and `nan`. The anchored sample pattern keeps those forms away from `float()` in the reader. The `Channel:` pattern matches only a prefix, so the rest of the ninth field and any further fields do reach `float()` there.
- Trials.TrialRowOf rejects a `Channel:` line whose unchecked tail uses such a form (`,+1`, `,inf`, `9 `, `9_0`). Python logs a row for it.
- Trials.TrialRowIff: "parses" means the model's `float`, so the equivalence does not cover the forms above, which Python's `float` accepts.
- Decimal.ParsedFieldInClass holds of the model's `float`, which reads only the pattern's alphabet, not of Python's.
- `\d` is taken as ASCII digits only. Python's `\d` also matches other Unicode digits.
- Decimal.ParseFloat models only the literals Python accepts inside the pattern's alphabet.
- Sequencer.HandleSerialData: a `Channel:` line that passes the pattern but whose payload has a field `float` rejects makes `handle_serial_data` raise inside the slot. The model appends nothing and changes nothing for it.
- `startAcquisition` reads its text fields with `int()` and `float()`. The model takes the results as `Option` inputs, with `None` for a `ValueError`.
- CSV writing, the file names, the header row and NumPy's string-dtype table in `saveCSV` are left out. `CsvOutput` holds the rows each file receives.
- `detect_com_port` is left out. It enumerates OS serial ports. The acquisition tool never calls it. The viewer's `__init__` calls it and raises "No available COM ports." when none qualifies (wifi_plot_only.py:186-188, 273-278).
- Viewer.Plotter.constructor assumes that a port was found. The port is not used afterwards.
- Qt widgets, layout and painting are left out: `InstructionWidget.paintEvent`, the head-map pixel geometry, legends and pens. The state they draw from is modelled.
- Sequencer.Schedule arms every non-negative delay. `QTimer.singleShot` takes its `msec` as a 32-bit C `int`, so a rest, left or right time of 2147483.648 s or more (2^31 ms) is not armed at `clock + ms`: PyQt raises `OverflowError` inside the slot or wraps the value. The model treats millisecond counts as unbounded integers.
- Sequencer.Millis is unbounded, so it does not model the 32-bit `msec` limit above.
- Acquisition.AcquisitionWindow.SingleShot arms timers as `Schedule` does, with the same missing 2^31 - 1 ms limit.
- Sequencer.AcquisitionRunsAllRounds promises rounds for any long rest and phases. The program runs them only for times below 2^31 ms, about 24.8 days.
- Sequencer.OneRound likewise holds in the program only for rest and phase times below 2^31 ms.
- Interleaving.AcquisitionWithLines likewise holds in the program only for rest and phase times below 2^31 ms.
- Sequencer.AcquisitionRunsAllRounds asks for a non-negative rest, although any rest above -0.001 s converts to a timeout of 0 ms or more.
- Sequencer.AcquisitionRunsAllRounds and Sequencer.OneRound ask for phases of at least 0.3 s. Shorter phases are covered separately by `ShortLeftPhaseRecordsDuringRest`.
- An exception that escapes a slot or timer callback ends the application under PyQt5, which calls `qFatal` for it; the tools install no `sys.excepthook`. The model represents it as `Sequencer.Outcome.Aborted` in `RunRoundAsWritten` only. The other slots are modelled without raising; the lines on `HandleSerialData` and `Schedule` name where they can raise.
- `closeEvent` of both windows only stops the reader, which is `TcpReader.Stop`.
- Filters.BandDesign accepts any cutoffs and sampling rate. SciPy's `butter` raises unless each normalised frequency is strictly between 0 and 1 and a band's low edge is below its high edge. The tools' own settings meet this (`ToolDesignsAccepted`).
- Filters.BandpassFilter promises a result for any cutoffs, which `butter` does not; see `BandDesign`.
- Filters.BandpassFilterSafe promises a result for any cutoffs, which `butter` does not; see `BandDesign`.
- Filters.BandpassFilterSafe is one correction of the guard: it leaves signals of 15 to 33 samples unfiltered. Filtering them with a pad length below the signal's length is another, and is not modelled, because `filt` stands for `filtfilt` with its default pad length.
- Filters.LowpassFilter promises a result for any cutoff, which `butter` does not; see `BandDesign`.
- Export.SaveCsv models the corrected filter guard. As written, a log of 15 to 33 rows makes `saveCSV` raise after the raw file, and no filtered file is written (`CsvAsWrittenRaises`).
- Export.CsvShape is about the corrected `saveCSV`. As written, a log of 15 to 33 rows gets no filtered file.
- Export.FilteredColumn uses the corrected guard. The as-written column is `FilteredColumnAsWritten`.
- Export.ShortLogUnfiltered is about the corrected guard for 15 to 33 rows. As written, those logs raise.
- Sequencer.RunRoundFinishes uses the corrected `saveCSV`. As written, a finishing round with 15 to 33 logged rows ends the application after the raw file (`RunRoundAsWrittenAborts`).
- Sequencer.OneRound: its final round re-enables start through the corrected `saveCSV`. As written, a log of 15 to 33 rows ends the application there instead (`RunRoundAsWrittenAborts`).
- Sequencer.RemainingRounds covers timer firings only, so the saved log is empty. Runs with data lines are `Interleaving.AcquisitionWithLines`. Both re-enable start through the corrected `saveCSV`.
- Sequencer.AcquisitionRunsAllRounds uses the corrected `saveCSV` and timer firings only, like `RemainingRounds`.
- Interleaving.RoundsWithLines re-enables start through the corrected `saveCSV`. As written, a saved log of 15 to 33 rows ends the application there instead (`RunRoundAsWrittenAborts`).
- Interleaving.AcquisitionWithLines uses the corrected `saveCSV`, like `RoundsWithLines`.
- Acquisition.AcquisitionWindow.RunRound calls the corrected `SaveCsv`, so it always re-enables start. As written, a log of 15 to 33 rows ends the application after the raw file (`Sequencer.RunRoundAsWrittenAborts`).

## Findings

| source | as written | input that shows it | evidently intended | confidence | as-written member | corrected member |
|---|---|---|---|---|---|---|
| wifi_plot_filter.py:19-30 | `apply_bandpass_filter` returns the signal unchanged only below `3 * order` = 15 samples. A band-pass of order 5 has 11 coefficients, so `filtfilt`'s default pad length is 33 and it raises for 15 to 33 samples. `saveCSV` (line 320) then raises, and the filtered file is not written. | a trial log of 15 rows with `lowcut` 0.5 | `apply_bandpass_filter` never raises. The correction modelled here widens the no-op guard to the pad length, `len(sig) <= 3 * (2 * order + 1)` for a band-pass, so logs of 15 to 33 rows are written unfiltered. Passing `filtfilt` a pad length below the signal's length would filter them instead; that correction is not modelled | high, not executed | Filters.BandpassGuardTooShort | Filters.BandpassFilterSafe |
| wifi_plot_filter.py:232-237 | `runRound` calls `saveCSV` without handling its exceptions, from a `singleShot` callback (line 275). An exception from `saveCSV` escapes the callback before `start_button.setEnabled(True)`, and PyQt5 ends the application on it, with only the raw file written. | a session whose last round logged 20 rows | the acquisition finishes, both files are written, and start is enabled again | high, not executed | Sequencer.RunRoundAsWrittenAborts | Sequencer.RunRoundFinishes |
