# Sensor logging tools, modelled in Dafny

This project models the logging core of a set of distance-sensor tools.
An Arduino prints lines such as `D2 (mm): 431` over a serial port. Three
desktop front ends parse these lines:

- `qt.py`, a Qt window with a space-bar toggle and a queue of check-box steps;
- `gui.py`, a customtkinter window with a Start/Stop button and a door/zone route;
- `live.py`, a webcam overlay with an `a` key toggle.

Each front end keeps a sliding window of the last ten readings per sensor,
plus, in qt.py and gui.py, a running minimum. Each writes one CSV file
per logged step.

`gather.py` is a command-line logger that writes every reading for a fixed
number of minutes. `plot.py` post-processes the CSV files. `arduino/Logger.h`
is the firmware's level-gated logger.

The reader loops and the UI handlers run in two threads. They share
globals without a lock. The model serialises them into atomic events: a
toggle or button press, and one reader `Tick` (the logging-edge check,
then one line).

Modules:

- `Text`: ASCII character classes, `str.strip`, Python's `int(str)` (sign,
  digit groups with `_`, surrounding white space), `str(n)`,
  `str.replace(c, '')`, `split(c)[-1]`.
- `Window`: `deque(maxlen=10)` pre-filled with a value, and `min`.
- `LineParser`: two scanners. One models `re.findall` on
  `D(\d)\s*\(mm\):\s*(\d+)`, used by qt, gui and gather. The other models
  `pattern.match` on `(?:(\d+)\s*)?D(\d)\s*\(mm\):\s+(\d+)`, used by live.
  Both are built on one matcher that is proved complete.
- `Csv`: the files a reader loop has opened, each with its rows, and the
  open/close discipline of the loops.
- `ChannelStore`: the class holding `sensor_data` and `mindist`, and the
  `for hit in matches` loop.
- `QtApp`, `GuiApp`, `LiveApp`, `Gather`: the four programs.
- `Plot`, `ArduinoLogger`: plot.py's helpers and the firmware logger.

Two behaviours of the code worth knowing:

- live.py refills its windows with `0`, not the `-1` sentinel, on
  `Online sensors: n`.
- The value box shows `sensor_data[i][0]`. That is the oldest entry of the
  window, not the latest reading.

## Model

| member | source | states |
|---|---|---|
| Text.NatToString | qt.py:99 | `str(n)` of a non-negative int is a non-empty run of digits with no superfluous leading zero |
| Text.DigitsValueOfNatToString | qt.py:99 | the value of the printed numeral is n |
| Text.NatToStringOfDigitsValue | live.py:133 | a digit run without a leading zero is exactly what `str` prints for its value |
| Text.NatToStringInjective | qt.py:99 | different numbers print differently |
| Text.DigitsValueLowerBound | qt.py:95 | a numeral with a non-zero first digit is at least 1 |
| Text.StripLeft | qt.py:89 | `lstrip` removes exactly the leading white space: the result is a suffix, everything dropped is white space, and the result does not start with white space |
| Text.StripRight | qt.py:89 | `rstrip`, likewise at the end |
| Text.Strip | qt.py:89 | `str.strip()`: `lstrip` then `rstrip`, so a definition without a contract of its own; StripTrimmed and StripIdempotent state what it does |
| Text.StripTrimmed | qt.py:89 | a string with no surrounding white space is unchanged by `strip` |
| Text.StripIdempotent | qt.py:89 | `strip` is idempotent |
| Text.RemoveAll | plot.py:70 | `replace(c, '')` leaves no `c`, and keeps every other character and only those |
| Text.RemoveAllAbsent | plot.py:70 | replacing a character that does not occur changes nothing |
| Text.RemoveAllAppend | plot.py:70 | replacing distributes over concatenation |
| Text.TakeUntil | live.py:135 | `split(c)[0]`: the longest prefix without `c`, ending at the first `c` or at the end |
| Text.AfterLast | plot.py:171 | `split(c)[-1]`: the longest suffix without `c`, starting after the last `c` or at the start |
| Text.AfterLastAppend | plot.py:171 | `split(c)[-1]` of `a + c + b` is b when b has no `c` |
| Text.GroupedValueOfDigits | qt.py:95 | digit groups with no underscore have their decimal value |
| Text.ParsePyIntOfDigits | qt.py:94-95 | `int(ds)` of a digit run is its decimal value |
| Text.ParsePyInt | qt.py:94-95 | Python `int()` on a `str`: strip, an optional sign, then digits grouped by single underscores, with None for ValueError; a definition without a contract of its own, whose behaviour the ParsePyInt lemmas state |
| Text.ParsePyIntOfDigit | live.py:126 | `int` of one digit is its value |
| Text.ParsePyIntOfStrip | live.py:135 | `int(s.strip()) == int(s)`, because `int` strips its argument itself |
| Text.ParsePyIntOfNegativeDigits | live.py:135 | `int('-' + ds)` is minus the value of ds |
| Text.ParsePyIntOfNatToString | qt.py:99 | `int(str(n)) == n` and `int('-' + str(n)) == -n` |
| Text.ParsePyIntNeedsDigit | gather.py:78-80 | `int` raises ValueError on a string without a digit, the empty string included |
| Window.Fill | qt.py:25 | `[v] * WINDOW_SIZE` has ten entries, all v |
| Window.Push | qt.py:49 | `deque.append` on a deque of ten: the value goes last, the oldest entry is dropped when full, the rest keep their order |
| Window.Recent | qt.py:25 | a window holds the last ten values of its history |
| Window.PushRecent | qt.py:49 | appending to a window is taking the last ten of the extended history |
| Window.RecentAfterWindowSize | qt.py:25 | after ten appends no pre-filled entry is left |
| Window.RecentOfFill | qt.py:254 | a pre-filled window holds the remaining fill values followed by the whole history, or the last ten values once there are ten |
| Window.MinOf | qt.py:26 | `min(init, *s)` is a lower bound of init and of every value, and equals one of them |
| Window.MinOfAppend | qt.py:50 | the update `mindist = min(mindist, value)` keeps the minimum of everything seen |
| Window.Least | live.py:81 | `min(window)` is a lower bound attained in the window |
| LineParser.SpacesEnd | qt.py:27 | `\s*` consumes the maximal run of white space |
| LineParser.DigitsEnd | qt.py:27 | `\d+` consumes the maximal run of digits |
| LineParser.MatchAt | qt.py:27 | a match at a position lies inside the text after it: `(mm):` at least two characters on, then the digits, then the end, and the channel is a single digit |
| LineParser.MatchAtSound | qt.py:27 | a match found at a position is a match of the pattern there |
| LineParser.MatchAtComplete | qt.py:27 | every match of the pattern at a position is found, and it is the only one |
| LineParser.FindAll | qt.py:90 | `re.findall` gives readings whose id is a single digit, at most one per character |
| LineParser.FindAllTokens | qt.py:90 | for any line, every reading `findall` returns is the reading of a match of the pattern; the matches go left to right without overlapping; each is the first match that starts after the previous one ends, and no match starts after the last one |
| LineParser.Encode | qt.py:27 | the text `D<id>(mm): <value>` of one reading; a definition without a contract of its own, read back by EncodedToken, EncodedMatch and FindAllEncoded |
| LineParser.FindAllSkipsNoise | qt.py:90 | text without a `D` contributes no match |
| LineParser.FindAllEncoded | qt.py:90 | a printed reading is found, followed by the matches of the rest of the line, in order |
| LineParser.EncodedMatch | qt.py:27 | a printed reading embedded in a line is matched where it starts, as itself, and the match ends right after it |
| LineParser.EncodedToken | qt.py:27 | a printed reading matches the pattern at its position, with either `\s*` or `\s+` after the colon |
| LineParser.FindAllRender | qt.py:90-95 | a line made of printed readings joined by separators yields exactly those readings, in order |
| LineParser.LiveStart | live.py:25 | the optional leading timestamp and its spaces are skipped only when the line starts with a digit |
| LineParser.LiveMatch | live.py:124-127 | a match has a one-digit id text and a non-empty digit value text |
| LineParser.LiveMatchSound | live.py:124-127 | a match is a match of the pattern after the optional timestamp, and its groups are the token's numbers |
| LineParser.LiveMatchComplete | live.py:124-127 | every match of the pattern after the optional timestamp is found |
| LineParser.LiveMatchNeedsD | live.py:124 | a line starting with neither a digit nor `D` never matches |
| LineParser.LiveMatchNeedsSpace | live.py:25 | with no white space after the colon the line does not match (`\s+`) |
| LineParser.LiveMatchAfterTimestamp | live.py:25 | a timestamp, a space and a printed reading match, and the reading is read back |
| Csv.Open | qt.py:71-73 | opening appends one open file whose only row is the header, and keeps the others |
| Csv.Close | qt.py:78-79 | closing leaves no file open, the closed file keeps its name and rows, and the other files are unchanged |
| Csv.Write | qt.py:98-99 | writing appends the rows to the open file only |
| Csv.Edge | qt.py:67-80 | the head of a reader loop opens a file, header first, on the rising edge of its condition, closes it on the falling edge, and otherwise does nothing; afterwards a file is open exactly when the condition holds |
| Csv.AtMostOneOpen | qt.py:67-80 | under that discipline at most one file is open, and one is open exactly when the last file is |
| Csv.NoneOpen | qt.py:78-79 | closed files count as none open |
| ChannelStore.ValuesFor | qt.py:93-97 | a channel's values number at most the readings |
| ChannelStore.Accepted | qt.py:96 | the guard keeps at most all readings |
| ChannelStore.AcceptedMembers | qt.py:96 | a reading is kept exactly when it is on the line and its channel exists |
| ChannelStore.AcceptedKeepsChannels | qt.py:96-97 | an existing channel receives all of its readings on the line, whatever else the line holds |
| ChannelStore.AcceptedDropsMissing | qt.py:96 | a channel that does not exist receives nothing |
| ChannelStore.RowOf | qt.py:99 | a row has three cells |
| ChannelStore.RowOfRoundTrip | qt.py:99 | reading a row back with `int` gives its timestamp, channel and value |
| ChannelStore.RowsOf | qt.py:98-99 | one row per reading |
| ChannelStore.Extended | qt.py:97 | the histories after a batch, one per channel |
| ChannelStore.Store.constructor | qt.py:25-26 | every window is ten sentinels, every minimum 999999, nothing captured |
| ChannelStore.Store.Capture | qt.py:48-50 | `capture_data` pushes onto one window, lowers its minimum, and records the value; the invariant window = last ten of sentinels + history and minimum = `min(999999, *history)` is kept |
| ChannelStore.Store.Displayed | qt.py:254 | the box shows the sentinel until ten values have been captured, then the tenth most recent value |
| ChannelStore.Store.CaptureMatches | qt.py:93-99 | every reading of an existing channel is captured, in order, and its row returned, and every other reading is dropped |
| QtApp.FileNameEndsWithStep | qt.py:261-267 | the part of a file name after its last `_` is the step and `.csv` |
| QtApp.FileName | qt.py:261-267 | the name starts with the time stamp and `_`, and ends with `.csv` |
| QtApp.CheckboxOptionsHaveNoUnderscore | qt.py:203 | no step label contains `_` |
| QtApp.IsBuildingCode | qt.py:284 | a building code has four characters and no `_`, so it cannot hide the step in a file name |
| QtApp.Selected | qt.py:304-306 | the checked labels are at most all labels |
| QtApp.SelectedMembers | qt.py:304-306 | a label is in the sequence exactly when one of its boxes is checked |
| QtApp.SelectedAll | qt.py:304-306 | with every box checked the sequence is every label, in box order |
| QtApp.Truthy | qt.py:109 | Python truth of `current_step`: set and not empty; a definition without a contract of its own, used by ToggleStep |
| QtApp.ToggleStep | qt.py:105-129 | the space bar: nothing changes without a sequence or a step; it stops and clears the step while logging; otherwise it pops the front step when there is none and starts logging when the step is truthy; it starts exactly when logging was off and is now on, and the queue loses at most its front |
| QtApp.ToggleRun | qt.py:105-129 | n space-bar presses in a row; a definition without a contract of its own, whose behaviour ToggleRunSuffix and StartThenStop state |
| QtApp.ToggleRunSuffix | qt.py:115-117 | after any number of presses the queue is a suffix of the original: a popped step never returns |
| QtApp.StartThenStop | qt.py:109-120 | two presses from idle log the first step and stop, leaving the rest of the queue |
| QtApp.QtSession.constructor | qt.py:22-29 | initial globals: not logging, an empty queue, no step, no building code, no files, every window ten sentinels |
| QtApp.QtSession.ValidateBuildingCode | qt.py:280-289 | a full match of three ASCII letters and a digit is kept as the building code, and anything else clears it |
| QtApp.QtSession.SetSequence | qt.py:291-306 | with an invalid code the queue is untouched; otherwise it becomes the checked labels in box order and the step index is reset |
| QtApp.QtSession.Toggle | qt.py:105-129 | the new state is ToggleStep of the old state |
| QtApp.QtSession.Tick | qt.py:60-101 | one loop pass: the file edge on `LOGGING and current_step`, including the after-last-file reset, then, for a decoded line, every in-range match captured and written only while a file is open; an undecodable line changes nothing |
| QtApp.QtSession.CheckEdge | qt.py:66-86 | the edge check alone, with the reset of `current_step` and `LOGGING` when the queue is empty |
| QtApp.QtSession.ReadReadings | qt.py:93-99 | the matches of one line: every in-range reading captured, and its row written only while a file is open |
| QtApp.QtSession.WriteRows | qt.py:98-99 | rows are appended to the open file while logging runs and dropped otherwise; nothing else changes |
| GuiApp.DoorNameInjective | gui.py:152 | door names are distinct |
| GuiApp.DoorName | gui.py:152 | `Door ` followed by a numeral that reads back as the door number |
| GuiApp.Ascending | gui.py:151-152 | the doors from 1 up |
| GuiApp.Descending | gui.py:170-171 | the doors from n down |
| GuiApp.Inward | gui.py:155-159 | one or two zone steps by site kind, ending with `DH-<zone>`, with `MDF-<zone>` first for MDF-DH |
| GuiApp.Outward | gui.py:162-167 | in zones A and D the inward steps again in reverse order, each with `-exit` appended; elsewhere none |
| GuiApp.Route | gui.py:141-171 | the route's length is twice the doors plus the zone steps, doubled for zones A and D |
| GuiApp.RouteMirrored | gui.py:150-171 | the k-th step from either end of the route is door k+1 |
| GuiApp.RouteEnds | gui.py:150-171 | with a door, the route starts and ends at `Door 1` |
| GuiApp.RouteMiddle | gui.py:154-167 | between the two door runs come the zone steps, and the exit steps only for zones A and D |
| GuiApp.Entry | gui.py:235-239 | a highlighted step is wrapped in `**`, and every step ends its own line |
| GuiApp.Entries | gui.py:234-239 | one line per queued step, in order: bold exactly when logging and the step is the comment, and plain otherwise |
| GuiApp.Display | gui.py:233-239 | the label text: empty for an empty queue, and one step's line for a single step |
| GuiApp.DisplayAppend | gui.py:233-239 | the label text of a queue is the concatenation of its parts' texts |
| GuiApp.DisplayStep | gui.py:233-239 | queueing one more step adds exactly its line at the end of the label |
| GuiApp.DisplayPlain | gui.py:235 | nothing is highlighted unless logging is on and the comment is still queued |
| GuiApp.StartHighlightsReturn | gui.py:181-186 | after Start takes the first `Door 1`, the highlighted step is the route's last step, the other `Door 1`, and every step before it is plain |
| GuiApp.InnerStepsAreNotDoorOne | gui.py:148-171 | between its two ends the route never passes `Door 1` |
| GuiApp.FileNameEndsWithStep | gui.py:249-253 | the part of a file name after its last `_` is the step and `.csv` |
| GuiApp.FileName | gui.py:249-253 | the name starts with the time stamp and ends with `.csv` |
| GuiApp.Prefix | gui.py:185 | FILE_PREFIX starts with the stripped site, and the part after its last `_` is the step when the step has none |
| GuiApp.BuildRoute | gui.py:148-171 | the append loops build exactly the route |
| GuiApp.AppendDoorsUp | gui.py:151-152 | the ascending loop appends the ascending doors |
| GuiApp.AppendZoneIn | gui.py:155-159 | the zone's steps are appended on the way in, MDF before DH for an MDF-DH site |
| GuiApp.AppendZoneOut | gui.py:162-167 | in zones A and D the zone's exit steps are appended, DH before MDF; elsewhere nothing |
| GuiApp.AppendDoorsDown | gui.py:170-171 | the descending loop appends the descending doors |
| GuiApp.GuiSession.constructor | gui.py:18-25 | initial globals: not logging, empty queue, comment and prefix, the label text `Sequence` (set at gui.py:217), no files, every window ten sentinels |
| GuiApp.GuiSession.UpdateSequenceDisplay | gui.py:228-242 | the label becomes the display text of the queue and changes nothing else |
| GuiApp.GuiSession.SetSequence | gui.py:141-176 | when the number of doors parses, the queue becomes the route and the label is redrawn; when `int` raises, nothing changes |
| GuiApp.GuiSession.StartStop | gui.py:178-195 | Start with a queue pops its front into the comment, sets the prefix `site.strip() + "_" + step`, and starts logging; Start without a queue changes nothing; Stop only stops; the label is redrawn |
| GuiApp.GuiSession.Tick | gui.py:255-288 | one loop pass: the file edge on `LOGGING`, then the line's captures and rows |
| GuiApp.GuiSession.CheckEdge | gui.py:261-274 | the edge check alone, naming the file with the current prefix |
| GuiApp.GuiSession.ReadReadings | gui.py:280-286 | the matches of one line: every in-range reading captured, and its row written only while a file is open |
| GuiApp.GuiSession.WriteRows | gui.py:285-286 | rows are appended to the open file while logging runs and dropped otherwise; nothing else changes |
| LiveApp.OnlineCount | live.py:137-138 | `min(n, 6)` windows, none for a negative count |
| LiveApp.AnnouncedCount | live.py:135 | `int` of the text between the first and the second colon; a definition without a contract of its own, stated by AnnouncedCountStripped and ClassifyOnline |
| LiveApp.Classify | live.py:124-135 | the pattern is tried first and `Online sensors:` only when it fails; a definition without a contract of its own, stated by ClassifyOnlinePrefix, ClassifyOnline and the Absorb lemmas |
| LiveApp.AnnouncedCountStripped | live.py:135 | dropping the `.strip()` before `int` changes nothing |
| LiveApp.ClassifyOnlinePrefix | live.py:134-135 | an `Online sensors:` line announces `int` of the text up to the next colon |
| LiveApp.ClassifyOnline | live.py:134-135 | `Online sensors: <n>` announces n |
| LiveApp.CountText | live.py:135 | the field after a space is the digits |
| LiveApp.ClassifyOnlineNoDigits | live.py:135 | an announcement without a digit makes `int` raise |
| LiveApp.LiveRow | live.py:133 | a row holds the matched group texts as they were |
| LiveApp.LiveRowRoundTrip | live.py:133 | reading a row back with `int` gives its timestamp, channel and value |
| LiveApp.LowestOf | live.py:78-83 | infinity exactly for an empty window, and otherwise its least entry |
| LiveApp.AddTuple | live.py:71-72 | the element-wise sum, as long as the shorter tuple |
| LiveApp.AddTupleCommutes | live.py:71-72 | the sum is commutative |
| LiveApp.AddTupleTruncates | live.py:71-72 | entries beyond the shorter tuple are ignored |
| LiveApp.Absorb | live.py:122-138 | windows keep ten entries, and their count either stays or is at most six |
| LiveApp.AbsorbReading | live.py:124-133 | a matching line is captured and written, as text, when its channel exists, and does not stop the reader |
| LiveApp.AbsorbOnline | live.py:134-138 | an announcement replaces the windows with `min(n, 6)` windows of zeros, or stops the reader when `int` raises |
| LiveApp.AbsorbOnlineCount | live.py:134-138 | `Online sensors: <n>` makes `min(n, 6)` windows of zeros |
| LiveApp.AbsorbOther | live.py:122-140 | any other line changes nothing |
| LiveApp.LiveReader.constructor | live.py:19-21 | six windows of ten sentinels, no files, not logging |
| LiveApp.LiveReader.ToggleKey | live.py:200-201 | the `a` key flips `LOGGING` and nothing else |
| LiveApp.LiveReader.Capture | live.py:74-76 | `capture_data` pushes onto one window |
| LiveApp.LiveReader.LowestReadings | live.py:78-83 | one lowest reading per window, in order |
| LiveApp.LiveReader.Tick | live.py:97-140 | one loop pass of a live reader: the edge check, then for a decoded line the windows, halting and rows of Absorb on the stripped line, written into the file the edge check left; an undecodable line changes only the file edge, and the reader keeps running; a stopped reader does nothing more |
| LiveApp.LiveReader.CheckEdge | live.py:104-121 | the edge check alone, naming the file after the time |
| LiveApp.LiveReader.ReadLine | live.py:122-138 | the new windows, files and halting are those of Absorb |
| LiveApp.LiveReader.ReadReading | live.py:125-133 | a match is captured and written when its channel exists |
| LiveApp.LiveReader.Announce | live.py:134-138 | new windows of zeros for a count, halting when `int` raised |
| Gather.Matches | gather.py:48-53 | one batch of matches per line |
| Gather.Written | gather.py:56-62 | one row per kept reading |
| Gather.Kept | gather.py:56-62 | the in-range readings of all lines, line by line; a definition without a contract of its own, stated by KeptBelow and KeptStep |
| Gather.WrittenRows | gather.py:56-62 | row j is the row of kept reading j with the time of some line, and its channel exists |
| Gather.KeptBelow | gather.py:60 | every kept reading is of an existing channel |
| Gather.ValuesForAppend | gather.py:61 | a channel's values from two batches are those of the whole |
| Gather.ExtendedAppend | gather.py:61 | capturing two batches in turn is capturing their concatenation |
| Gather.LogSensorReadings | gather.py:35-67 | one closed file, header first, then a row for every in-range match of every line, in order; every captured reading is written; the returned dict is empty |
| Gather.Duration | gather.py:75-80 | one minute without an argument or when `int` raises, and `int(argv[1])` otherwise |
| Gather.DurationOfNumeral | gather.py:75-78 | a numeral argument is the duration |
| Gather.DurationOfNonNumeric | gather.py:79-80 | an argument without a digit keeps one minute, not the five the message announces |
| Plot.ApplyCalibration | plot.py:40-43 | a named sensor gets its offset added, and any other is left as measured |
| Plot.ShippedCalibration | plot.py:13-18 | the shipped map shifts sensors 0 to 3 by -1 and leaves the others |
| Plot.CalibrationUndone | plot.py:40-43 | calibrating with the negated map undoes a calibration |
| Plot.DesiredIntervals | plot.py:55 | the interval count lies in [5, 20], and is a fifth of the duration rounded down when that lies in the range |
| Plot.IntervalSeconds | plot.py:57 | the intervals together make up the whole duration |
| Plot.Code | plot.py:62-66 | a code ends with its unit letter |
| Plot.GroupingFrequency | plot.py:50-66 | the code is a count followed by one of the unit letters S, T and H; GroupingFrequencyUnits states the count |
| Plot.GroupingFrequencyUnits | plot.py:50-66 | the frequency is at least one whole second, minute or hour, under 60 seconds or minutes, and no longer than the interval |
| Plot.FrequencyInWords | plot.py:68-76 | 'S' is tested first, then 'T', then 'H'; the first found is removed everywhere and its word appended; otherwise the code is returned unchanged |
| Plot.UnitWord | plot.py:70-75 | S is read as seconds, T as minutes and H as hours, and each word names one letter only |
| Plot.CodeInWords | plot.py:68-76 | a code reads as its count and its unit word |
| Plot.GroupingFrequencyInWords | plot.py:97-98 | the plot title always names a whole number of seconds, minutes or hours |
| Plot.ShortFilename | plot.py:171 | the short name contains no `_`, and is the whole path when the path has none |
| Plot.ShortFilenameOfQtFile | plot.py:171 | a qt.py recording is reported under its step, in any directory |
| ArduinoLogger.Line | arduino/Logger.h:11-15 | a line is `[`, the level name, `] `, the message and `\r\n` |
| ArduinoLogger.LineNamesLevel | arduino/Logger.h:11-15 | the level name can be read back from a line |
| Text.JoinAppend | arduino/Logger.h:50-54 | printing runs of arguments in turn prints their concatenation |
| ArduinoLogger.PrintedInOrder | arduino/Logger.h:45-54 | every argument is printed whole, in order, with no separator |
| ArduinoLogger.Gated | arduino/Logger.h:22-37 | a gated call prints the whole line exactly when the level reaches the threshold, and nothing otherwise |
| ArduinoLogger.ErrorAlwaysPrints | arduino/Logger.h:22-24 | `error` prints at every level |
| ArduinoLogger.MainPrintsFromMain | arduino/Logger.h:26-28 | `mainOutput` prints exactly at MAIN and above |
| ArduinoLogger.DebugPrintsOnlyAtDebug | arduino/Logger.h:31-37 | `debug` prints exactly at DEBUG and the level above it |
| ArduinoLogger.Logger.constructor | arduino/Logger.h:8-9 | a logger starts at DEBUG with nothing printed |
| ArduinoLogger.Logger.SetLogLevel | arduino/Logger.h:18-20 | only the level changes, and nothing is printed |
| ArduinoLogger.Logger.PrintPrefix | arduino/Logger.h:11-15 | prints `[name] ` |
| ArduinoLogger.Logger.Print | arduino/Logger.h:12-14 | `Serial.print` appends the text to the output and keeps the level |
| ArduinoLogger.Logger.Println | arduino/Logger.h:42 | `Serial.println` appends the text and `\r\n`, and keeps the level |
| ArduinoLogger.Logger.Log | arduino/Logger.h:40-43 | prints one whole line |
| ArduinoLogger.Logger.Error | arduino/Logger.h:22-24 | prints the gated ERROR line |
| ArduinoLogger.Logger.MainOutput | arduino/Logger.h:26-28 | prints the gated MAIN line |
| ArduinoLogger.Logger.PrintArgs | arduino/Logger.h:45-54 | prints every argument in order |
| ArduinoLogger.Logger.Debug | arduino/Logger.h:31-37 | prints the gated DEBUG line of all arguments |

## Left out

- Serial I/O, port discovery, `serial.Serial`, and the threads. Lines are
  inputs. The UI thread and the reader thread are serialised into atomic
  events, so data races are not modelled.
- UTF-8 decoding. A reader line is an `Option<string>`, with None for a
  `UnicodeDecodeError`. gather.py's `errors='ignore'` decoding is taken as
  already done: its lines are the decoded text.
- Clocks, time zones and `strftime`. Timestamps in milliseconds and the
  formatted stamps of file names are parameters.
- gather.py's duration-bounded loop and its `in_waiting` poll. The lines
  that arrive in time are the input sequence. Its `except Exception`
  branch is not modelled, because nothing in the modelled loop body can
  raise.
- Character classes are ASCII only. Python's `\d`, `\s`, `str.strip()` and
  `int()` also accept other Unicode digits and spaces, which are not
  modelled.
- Floating point: `mm_to_inches`, `fix_numbers`, `calculate_avg_readings`.
  plot.py's frequency arithmetic is modelled over exact reals, not over
  binary floats.
- plot.py's pandas/matplotlib pipeline, the cv2 webcam overlay and drawing
  of live.py, the Qt and customtkinter widgets, the message boxes and the
  text written to the text areas and the console.
- The inch/millimetre display toggle of qt.py and gui.py, because it only
  changes a display format built from floats.
- clean.py and arduino/Sensors.h, which are not part of this model.
- ArduinoLogger.Logger.SetLogLevel: requires a level from 0 to 3, because
  `static_cast` to the enumeration is undefined for values outside its
  two-bit range.
- ArduinoLogger.Logger.Debug: the arguments are given as their printed
  text, because `Serial.print`'s formatting of each argument type is not
  modelled.
- LiveApp.Absorb: its own contract states only the window sizes. The
  effect of each kind of line is stated by AbsorbReading, AbsorbOnline and
  AbsorbOther.
- LiveApp.LiveReader.Tick: the reader thread dying on an uncaught
  ValueError is modelled as a `halted` flag after which nothing happens.
- GuiApp.GuiSession.SetSequence: the doors text comes from an option menu
  of 1 to 3, but any text is accepted. A text that `int` rejects makes the
  handler raise before anything changes.
