# JumpCutter edit planner in Dafny

JumpCutter shortens a video by cutting out its silent stretches ("remove"
mode) or by playing them faster ("speed" mode). The media engine (ffmpeg)
does the decoding, silence detection and encoding. The `JumpCutter` class
(`src/JumpCutter.js`) decides what to ask it for, in four steps:

1. It reads the engine's `silencedetect` log into a list of silence
   intervals (`_parseSilenceInfo`).
2. It turns those intervals and the clip's duration into an edit plan: the
   spans to keep, or the spans to play at normal speed and at the speed
   factor (the loops of `_createRemoveFilter` and `_createSpeedFilter`).
3. It writes the plan out as a filter graph. Each segment gets a video
   chain and an audio chain. A concat step per stream then joins them in
   order.
4. It runs that graph, or copies the input unchanged when the builder
   returns null: when no silence was detected, or, in remove mode, when the
   silences leave nothing to keep (an all-silent clip is copied whole). Before any of this, `process` rejects bad arguments, and the
   constructor fills in default settings.

The model is written in six modules, one per file:

- `Strings` (`strings.dfy`): JavaScript's `split` and `join` with a
  one-character separator, decimal text of array indices, and digit values.
- `Numbers` (`numbers.dfy`):
  - A JavaScript number as the planner sees it: a finite value, or NaN.
  - Comparisons, which are false whenever NaN is involved.
  - `parseFloat` on the text the log regex captures.
- `SilenceLog` (`silence_log.dfy`):
  - The log parser, as a loop (`ParseSilenceInfo`) proved equal to a fold
    over classified lines.
  - The laws of its start/end pairing.
- `SegmentPlanner` (`segment_planner.dfy`):
  - The two planning loops, each proved equal to a recursive function.
  - Their bounds, the tiling of `[0, duration]` in remove mode, and the
    contiguity of the speed plan.
  - How the speed plan relates to the remove plan.
- `FilterGraph` (`filter_graph.dfy`):
  - The filter text of both modes.
  - Its split into `2k + 2` parts, the labels, and the retiming suffixes.
- `Cutter` (`cutter.dfy`):
  - The class `JumpCutter` with its constructor defaults and its two filter
    builders.
  - `Process` (validation, parsing, planning and the choice between filter
    and copy) and the properties of that choice.

Three modelling choices apply throughout:

- **Timestamps.** A timestamp is `Num = Finite(v) | NaN`. The regex
  `[\d.]+` also accepts text such as `"."`, and `parseFloat(".")` is NaN.
  Finite values are exact reals.
- **Number text.** The text JavaScript writes for a number inside a
  template string is the parameter `fmt`. The separator lemmas assume only
  that this text never contains `;` or `,` (`PlainNumbers`). Integers
  (label indices and `n=`) use the exact decimal text `NatStr`.
- **Absent arguments.** An option or argument that is absent is `None`.

## Model

| member | source | states |
|---|---|---|
| Strings.Split | src/JumpCutter.js:71 | `data.split("\n")` gives one piece more than the number of separators, and no piece contains the separator |
| Strings.JoinSplit | src/JumpCutter.js:71 | joining the pieces of a split with the separator gives back the original log text |
| Strings.SplitJoin | src/JumpCutter.js:136-141 | when no part contains the separator, splitting the joined text gives back exactly the parts |
| Strings.NatStrInjective | src/JumpCutter.js:124 | two indices have the same decimal text only if they are equal |
| Numbers.ParseDecimal | src/JumpCutter.js:80-82 | `parseFloat` of a captured `[\d.]+` run is finite exactly when the run starts with a digit, or with a point followed by a digit; a finite result is never negative |
| Numbers.ParseDecimalPointed | src/JumpCutter.js:80-82 | digits, a point and more digits are read as that decimal, and anything from a second point on is ignored |
| Numbers.ParseDecimalNat | src/JumpCutter.js:80-82 | reading back the decimal text of a whole number gives that number |
| Numbers.ParseDecimalExamples | src/JumpCutter.js:80-82 | "1.5", "2.5", "4.0" and "5.0" read as their values; "." and "..5" read as NaN |
| Numbers.ParseDecimalSecondPoint | src/JumpCutter.js:80 | "1.2.3" reads as 1.2: reading stops at the second point |
| SilenceLog.NumberRun | src/JumpCutter.js:76-77 | the capture group `([\d.]+)` is the longest prefix made of digits and points |
| SilenceLog.Capture | src/JumpCutter.js:76-77 | defines `line.match(/<label>([\d.]+)/)`: the first position where the label is followed by a `[\d.]` character, and the greedy run after it (characterised by `CaptureIsLeftmostMatch`) |
| SilenceLog.Classify | src/JumpCutter.js:76-81 | defines what a line contributes: a start at the parsed start capture, otherwise an end at the parsed end capture, otherwise nothing (characterised by `ClassifyMatches`) |
| SilenceLog.Step | src/JumpCutter.js:79-85 | defines one line of the reader: a start sets the pending start, an end with a pending start emits the pair and clears it, anything else changes nothing |
| SilenceLog.Parse | src/JumpCutter.js:69-89 | defines `_parseSilenceInfo(data)`: split at newlines, classify each line, and fold the steps from no silences and nothing pending |
| SilenceLog.CaptureIsLeftmostMatch | src/JumpCutter.js:76-77 | `line.match` finds nothing exactly when the label followed by a `[\d.]` character occurs nowhere; otherwise it captures the run after the leftmost such occurrence |
| SilenceLog.ClassifyMatches | src/JumpCutter.js:76-86 | a line is a start exactly when it matches the start pattern, and an end exactly when it matches the end pattern but not the start pattern |
| SilenceLog.ParseSilenceInfo | src/JumpCutter.js:69-89 | the loop over the lines, with its pending start, returns exactly the fold `Parse` of the log |
| SilenceLog.FoldAppend | src/JumpCutter.js:75-86 | processing two stretches of lines one after the other is processing their concatenation |
| SilenceLog.OtherIgnored | src/JumpCutter.js:78-86 | a line that matches neither pattern changes nothing |
| SilenceLog.UnmatchedEndIgnored | src/JumpCutter.js:81 | an end line with no pending start changes nothing |
| SilenceLog.StartOverwrites | src/JumpCutter.js:80 | a second start before an end replaces the first |
| SilenceLog.PairEmitted | src/JumpCutter.js:80-85 | a start followed by an end appends exactly that interval and clears the pending start |
| SilenceLog.NoEndKeepsSilences | src/JumpCutter.js:78-86 | lines without an end add no interval |
| SilenceLog.TrailingStartDropped | src/JumpCutter.js:78-88 | a start never followed by an end yields no interval |
| SilenceLog.IntervalCountBounds | src/JumpCutter.js:78-86 | there are at most as many intervals as end lines, and the intervals plus a pending start are at most as many as the start lines |
| SilenceLog.IntervalsComeFromLog | src/JumpCutter.js:78-86 | every interval's start comes from an earlier start event and its end from a later end event; a pending start comes from a start event |
| SilenceLog.NegativeStartSkipped | src/JumpCutter.js:76 | a line with a negative timestamp is not recognised as a start |
| SilenceLog.PaddedStartLine | src/JumpCutter.js:76-79 | an indented start line is classified as a start at the parsed value |
| SilenceLog.PaddedEndLine | src/JumpCutter.js:77-82 | an indented end line is classified as an end at the parsed value |
| SilenceLog.BlankLineIgnored | src/JumpCutter.js:76-86 | a line of spaces, and the empty line, is neither a start nor an end |
| SilenceLog.IndentedPairsEvents | src/JumpCutter.js:76-86 | a blank line, indented start, end, start and end lines with any non-empty `[\d.]` values, and a line of spaces classify as nothing, start, end, start, end, nothing at the parsed values |
| SilenceLog.TestLogLines | tests/JumpCutter.test.js:49-54 | the test suite's log splits into six lines: blank, four labelled lines, blank |
| SilenceLog.TestLogEvents | tests/JumpCutter.test.js:49-54 | those lines classify as start 1.5, end 2.5, start 4.0 and end 5.0, with a line that matches neither pattern at each end |
| SilenceLog.TwoPairsFolded | src/JumpCutter.js:78-86 | two start/end pairs between ignored lines give the two intervals in order |
| SilenceLog.TestLogParsed | tests/JumpCutter.test.js:48-61 | the test suite's log parses to `[{1.5, 2.5}, {4.0, 5.0}]` |
| SegmentPlanner.RemoveStep | src/JumpCutter.js:100-108 | defines one silence of the remove loop: keep the gap `{lastEnd, start}` when the silence starts after the cursor, then move the cursor to the silence's end |
| SegmentPlanner.RemoveSegments | src/JumpCutter.js:96-116 | defines the kept spans: the gaps of the walk over all silences, then the tail `{lastEnd, duration}` when the cursor is before the duration |
| SegmentPlanner.SpeedStep | src/JumpCutter.js:249-269 | defines one silence of the speed loop: a normal-speed gap when the silence starts after the cursor, then the silence at the factor, then the cursor moves to its end |
| SegmentPlanner.SpeedSegments | src/JumpCutter.js:245-276 | defines the speed plan: the segments of the walk over all silences, then a normal-speed tail when the cursor is before the duration |
| SegmentPlanner.BuildRemoveSegments | src/JumpCutter.js:96-116 | the gap loop and tail push of remove mode return exactly `RemoveSegments` |
| SegmentPlanner.BuildSpeedSegments | src/JumpCutter.js:245-276 | the loop and tail push of speed mode return exactly `SpeedSegments` |
| SegmentPlanner.RemoveSegmentsPositive | src/JumpCutter.js:99-116 | for every input, every kept span has start < end, and there are at most one span per silence plus the tail |
| SegmentPlanner.SpeedScanFollowsRemove | src/JumpCutter.js:245-268 | the speed loop moves its cursor exactly as the remove loop does and emits one more segment per silence |
| SegmentPlanner.SpeedInterleavesRemove | src/JumpCutter.js:245-276 | for a speed factor other than 1, the normal-speed segments are exactly remove mode's kept spans and the other segments are exactly the silences at the factor, each in input order |
| SegmentPlanner.SpeedSegmentsRespeed | src/JumpCutter.js:245-276 | at every factor, 1 included, the plan is the factor-2 plan with each sped-up segment played at that factor: the cursor and the normal-speed spans do not depend on the factor, and each silence is one segment, in input order |
| SegmentPlanner.SpeedSegmentCount | src/JumpCutter.js:245-276 | for n silences speed mode emits n segments plus remove mode's spans, so between n and 2n + 1 |
| SegmentPlanner.CursorBeforeNext | src/JumpCutter.js:99-106 | for sorted, non-overlapping silences of positive length within `[0, duration]`, each silence starts at or after the cursor left by the earlier ones |
| SegmentPlanner.RemoveScanCovers | src/JumpCutter.js:99-107 | for sorted, non-overlapping silences of positive length within `[0, duration]`: during the loop, the kept spans are exactly the instants before the cursor that no silence covers |
| SegmentPlanner.RemoveScanAscends | src/JumpCutter.js:99-107 | for sorted, non-overlapping silences of positive length within `[0, duration]`: during the loop, the kept spans ascend and end before the cursor |
| SegmentPlanner.RemoveScanLength | src/JumpCutter.js:99-107 | for sorted, non-overlapping silences of positive length within `[0, duration]`: during the loop, the kept length is the cursor minus the silences' lengths |
| SegmentPlanner.RemoveTiling | src/JumpCutter.js:96-116 | for sorted, non-overlapping silences within `[0, duration]`: an instant of `[0, duration)` is kept exactly when no silence covers it; nothing outside it is kept; spans ascend with a gap between each two; kept length is duration minus the silences' lengths |
| SegmentPlanner.SpeedContiguity | src/JumpCutter.js:249-276 | for sorted, non-overlapping silences of positive length within `[0, duration]`, the empty list included: every segment is finite and of positive length, each ends where the next begins, the first starts at 0, the last ends at the duration, and their lengths add up to the duration |
| SegmentPlanner.RemoveExample | src/JumpCutter.js:96-116 | silences {1,2} and {4,5} in a 10-second clip keep {0,1}, {2,4} and {5,10} |
| SegmentPlanner.AllSilentExample | src/JumpCutter.js:96-116 | one silence covering the whole clip keeps nothing |
| SegmentPlanner.NestedSilencesRewind | src/JumpCutter.js:100-116 | silences {1,5} and {3,4} in a 10-second clip keep {0,1} and {4,10}: the cursor moves back to 4, so the tail keeps part of the first silence |
| SegmentPlanner.SpeedExample | src/JumpCutter.js:245-276 | silence {1,2} in a 5-second clip at factor 2 gives {0,1,1}, {1,2,2}, {2,5,1} |
| SegmentPlanner.SpeedExamplePlayedLength | src/JumpCutter.js:245-276 | those segments play for 4.5 seconds: the silent second takes half a second |
| FilterGraph.Label | src/JumpCutter.js:124 | defines the pad of chain i: `[vi]` for video, `[ai]` for audio |
| FilterGraph.Trim | src/JumpCutter.js:124-129 | defines the cut of `[start, end]` from the input stream with its timestamps reset: `[0:v]trim=s:e,setpts=PTS-STARTPTS` or `[0:a]atrim=s:e,asetpts=PTS-STARTPTS` |
| FilterGraph.SpeedSuffix | src/JumpCutter.js:284-289 | defines the retiming: empty at speed 1, otherwise `,setpts=PTS/s` for video and `,atempo=s` for audio |
| FilterGraph.ConcatLine | src/JumpCutter.js:133-140 | defines a stream's concat step: its k labels in order, `concat=n=k`, and the stream's output pad |
| FilterGraph.RemoveGraph | src/JumpCutter.js:122-141 | defines the remove filter: the video chains, the audio chains and the two concat steps, joined with `;` |
| FilterGraph.SpeedGraph | src/JumpCutter.js:282-302 | defines the speed filter: the same layout, each chain with its retiming suffix |
| FilterGraph.RemoveGraphIsUnitSpeed | src/JumpCutter.js:122-141 | the remove-mode filter of some spans is the speed-mode filter of the same spans at speed 1 |
| FilterGraph.SpeedGraphParts | src/JumpCutter.js:282-302 | for k segments the speed filter splits at `;` into exactly 2k + 2 parts: chain i of video, then chain i of audio, then the video concat, then the audio concat |
| FilterGraph.RemoveGraphParts | src/JumpCutter.js:122-141 | the remove filter splits at `;` back into its 2k + 2 parts, with 2k + 1 separators |
| FilterGraph.TrimHasOneComma | src/JumpCutter.js:283-291 | the cut-and-reset part of every chain holds exactly one `,` |
| FilterGraph.SuffixCommas | src/JumpCutter.js:284-289 | the retiming suffix holds one `,` when the speed is not 1 and is empty otherwise |
| FilterGraph.SpeedSuffixIffRetimed | src/JumpCutter.js:283-291 | a speed-mode chain holds a second `,` (the `setpts=PTS/s` or `atempo=s` suffix) exactly when its segment's speed is not 1 |
| FilterGraph.RemoveChainNotRetimed | src/JumpCutter.js:122-130 | a remove-mode chain never holds a retiming suffix |
| FilterGraph.LabelsDistinct | src/JumpCutter.js:122-130 | `[vi]` and `[aj]` labels are equal exactly when stream and index agree |
| FilterGraph.ConcatListsEachLabelOnce | src/JumpCutter.js:293-294 | the concat step of a stream lists the label of chain i at position i and nowhere else, and no label of the other stream |
| FilterGraph.ChainsFeedConcat | src/JumpCutter.js:282-294 | chain i of each stream ends with the pad its concat step reads at position i |
| FilterGraph.OneSpanParts | src/JumpCutter.js:122-141 | any one kept span gives the video chain `[v0]`, the audio chain `[a0]` and the concats `[v0]concat=n=1:v=1:a=0[outv]` and `[a0]concat=n=1:v=0:a=1[outa]` |
| Cutter.OrDefault | src/JumpCutter.js:12-14 | an option or its default: keeps a non-zero number and otherwise falls back, so with a non-zero default it is never 0 |
| Cutter.JumpCutter.constructor | src/JumpCutter.js:11-15 | each setting is its option or the default -30, 0.5 or 2, and none of them is 0 |
| Cutter.SettingsExamples | tests/JumpCutter.test.js:16-32 | absent options give -30, 0.5 and 2; -40, 1 and 3 are kept; 0 and NaN fall back |
| Cutter.Validate | src/JumpCutter.js:17-24 | a missing or empty path gives "Input and output paths are required", whatever the mode; with both paths, a mode other than `remove` or `speed` gives `Mode must be either "remove" or "speed"`; an absent mode is `remove` |
| Cutter.ValidationExamples | tests/JumpCutter.test.js:34-46 | `process({})` and the mode `invalid` are rejected with the exact messages |
| Cutter.RejectedBeforeDetection | src/JumpCutter.js:17-27 | a rejected request gives its validation message whatever the log and the duration |
| Cutter.RemoveFilter | src/JumpCutter.js:91-120 | defines `_createRemoveFilter`'s result: null for no silences or no kept span, and otherwise the remove graph of the kept spans |
| Cutter.SpeedFilter | src/JumpCutter.js:240-280 | defines `_createSpeedFilter`'s result: null for no silences or no segment, and otherwise the speed graph of the plan |
| Cutter.ActionFor | src/JumpCutter.js:154-189 | defines the choice after a filter is built: run it when there is one, copy the input otherwise |
| Cutter.Plan | src/JumpCutter.js:17-34 | defines the outcome of `process`: the validation error, or the action for the chosen mode's filter of the parsed log |
| Cutter.JumpCutter.CreateRemoveFilter | src/JumpCutter.js:91-145 | returns exactly `RemoveFilter`: null for no silences or no kept span, and otherwise the graph of the kept spans |
| Cutter.JumpCutter.CreateSpeedFilter | src/JumpCutter.js:240-306 | returns exactly `SpeedFilter` at the object's speed factor |
| Cutter.JumpCutter.Process | src/JumpCutter.js:17-34 | validates, parses the log, builds the chosen mode's filter, and runs it, or copies when there is none; the result is exactly `Plan` |
| Cutter.RemoveCopiesIff | src/JumpCutter.js:91-120 | for sorted, non-overlapping silences within the clip, remove mode copies exactly when there is no silence or the silences fill the whole duration |
| Cutter.SpeedCopiesIff | src/JumpCutter.js:240-280 | speed mode copies exactly when there is no silence |
| Cutter.TestLogRemovePlan | tests/JumpCutter.test.js:48-61 | the test suite's log on a 10-second clip in remove mode runs the graph of {0,1.5}, {2.5,4} and {5,10} |

## Left out

- The ffmpeg and ffprobe plumbing in `_detectSilence`, `_getDuration`,
  `_removeSilence` and `_speedupSilence`: process execution, events and
  promises. The log text and the probed duration are inputs. Only the
  choice between filter and copy is modelled, as `Action`.
- The second duration probe in `_speedupSilence` (src/JumpCutter.js:194):
  the model uses one duration for both modes.
- `processToBuffer`: temporary files and file reads. It also checks the
  mode only after detection, and wraps errors in a prefix. That behaviour
  is not modelled.
- The ffmpeg binary path rewiring at module load, `renderer.js`, `main.js`
  and `usage.js`. These are UI, IPC, configuration and an example script.
- The line filter in `_detectSilence`, which keeps only lines that contain
  a label. A line it drops is one the parser ignores anyway.
- Floating point: timestamps are exact reals. `parseFloat` is exact decimal
  reading, with no IEEE-754 rounding.
- Numbers.ParseDecimal: reads the timestamps and does not claim to match
  `parseFloat` on text outside `[\d.]+`, which the regex never captures.
- FilterGraph.PlainNumbers: JavaScript's number-to-text conversion is a
  parameter. The graph lemmas assume only that this text holds no `;` or
  `,`.
- Option and argument values that are not numbers or strings (objects,
  booleans, `null` for a mode) are not modelled. An absent value is
  `None`.
- SegmentPlanner.RemoveTiling, SegmentPlanner.SpeedContiguity,
  SegmentPlanner.RemoveScanCovers, SegmentPlanner.RemoveScanAscends,
  SegmentPlanner.RemoveScanLength, SegmentPlanner.CursorBeforeNext and
  Cutter.RemoveCopiesIff: hold only for silences that are sorted, do not
  overlap, lie within `[0, duration]` and have positive length
  (start < end), as a detector reports them. The planner itself checks
  none of this. With nested silences the cursor moves back, and the tail
  keeps instants a silence covers (`NestedSilencesRewind`). A zero-length
  silence still tiles, but the spans around it would then ascend only
  weakly. The detector never reports one, since its minimum duration is
  positive.
