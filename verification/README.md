# MonitorPZiSi core in Dafny

MonitorPZiSi is a small Flask application that helps people who work at
a computer. It tracks working time and suggests breaks, runs a Pomodoro
timer, offers a catalogue of short exercises, and judges sitting posture
from an uploaded photo of the workstation. This project models the
deterministic logic behind those features and proves properties about it:

- `common.dfy` (`Common`): an optional value, counting and filtering over
  sequences, and the order-preserving subsequence relation.
- `text.dfy` (`Text`): the text pieces the Python code relies on:
  - zero-padded `:02d` numerals and the `HH:MM:SS` and `MM:SS` displays,
    with readers that parse them back;
  - `rsplit`/`split('-')[-1]` (the text after the last separator);
  - `str.lower` on ASCII;
  - `str.split()[0]` with Python's whitespace set;
  - `int()` on a whitespace-free token.
- `geometry.dfy` (`Geometry`): normalising a segment's angle into
  [-90, 90] and sorting it into horizontal, vertical or diagonal, with
  forward lean flagged inside the diagonal class.
- `features.dfy` (`Features`): the feature record computed from what the
  image-processing stages report:
  - counts and ratios of the segment classes;
  - near-right and near-flat angles and the mean absolute angle;
  - the three horizontal bands of the edge mask and their densities;
  - the middle-band diagonal ratio;
  - curved contours and the C-shape test.
- `classifier.dfy` (`Classifier`): the conservative verdict. Too few
  segments or any of five disqualifiers means "incorrect"; otherwise
  seven criteria award points and at least 8 are needed.
- `suggestions.dfy` (`Suggestions`): the ordered suggestion list and the
  fixed ergonomic guide.
- `analyzer.dfy` (`Analyzer`): `analyze_posture`, the error and success
  results around extraction, verdict and suggestions.
- `exercises.dfy` (`Exercises`): the eight-entry catalogue (`get_exercises`
  returns it unchanged) and the queries by id, by category and for quick
  exercises, including the duration parser behind the quick list.
- `work_monitor.dfy` (`WorkMonitor`): the work-session accumulator with its
  break rule, the Pomodoro timer state machine and the two float time
  formatters. Every reading of the clock is an explicit `now` parameter.
- `app.dfy` (`App`): the upload extension whitelist,
  the integer `HH:MM:SS` formatter and the order of checks in the upload
  endpoint.

Python floats are modelled as `real`, Python integers as `int`. Python's
floor `//` and `%` coincide with Dafny's `/` and `%` for the positive
divisors used here. `int()` on a float is truncation toward zero
(`WorkMonitor.Trunc`).

Notes on the code's comparisons:

- A contour is considered only with more than ten points
  (`len(contour) > 10`, posture_analyzer.py:144); one of exactly ten
  points is skipped.
- A C-shape needs an area strictly above 1% of the image
  (`area > height * width * 0.01`, posture_analyzer.py:154), although the
  comment on that line reads "at least 1% of the image"; an area of
  exactly 1% does not qualify.
- A normalised angle lies in [-90, 90]. So the `> 160` and `110..160`
  branches of the classification can never fire; `Geometry.Classify`
  keeps them and its contract shows they are dead.
- `straight_shapes` is never incremented, so the shape bonus of the
  classifier can never be awarded (`Classifier.ShapeBonusNeverFires`).

## Model

| member | source | states |
|---|---|---|
| Geometry.Normalize | posture_analyzer.py:111-117 | The angle moves by at most half a turn. Any `atan2` angle in [-180, 180] ends in [-90, 90], and an angle already there is unchanged. |
| Geometry.Classify | posture_analyzer.py:120-130 | For a normalised angle: horizontal iff abs < 20, vertical iff abs > 70, diagonal iff 20 <= abs <= 70, and forward lean iff strictly between 20 and 70. So the `> 160` and `110..160` branches never decide. |
| Geometry.IsDiagonalAngle | posture_analyzer.py:201 | The separate middle-band test agrees exactly with the diagonal class. |
| Geometry.NearRight | posture_analyzer.py:164-165 | An angle counted near 90 degrees is always a vertical segment. |
| Geometry.NearFlat | posture_analyzer.py:166 | An angle counted near 0 degrees is exactly a horizontal segment. |
| Features.Ratio | posture_analyzer.py:173-176 | The guarded share is 0 without a total. Otherwise share times total gives back the count, and a count within the total gives a share in [0, 1]. |
| Features.RatioSum | posture_analyzer.py:173-175 | The shares of a three-way partition of a positive total add up to 1. |
| Features.SharesOfWhole | posture_analyzer.py:173-175 | Three shares that each times a positive whole give back their parts, with the parts adding up to the whole, sum to 1. |
| Features.RatioMonotone | posture_analyzer.py:175-176 | A smaller count never gets a larger share, so the forward ratio never exceeds the diagonal ratio. |
| Features.Angles | posture_analyzer.py:108-117 | Exactly one normalised angle per segment, in detection order. |
| Features.ClassesPartition | posture_analyzer.py:120-126 | Every segment lands in exactly one class: the three class counts add up to the number of segments. |
| Features.ClassCountFacts | posture_analyzer.py:120-130 | The forward-lean count is within the diagonal count, the near-90 count within the vertical count, and the near-0 count equals the horizontal count. |
| Features.SumAbs | posture_analyzer.py:169 | The sum of absolute angles is non-negative and at most 90 per angle when the angles are normalised. |
| Features.RepeatIsProduct | posture_analyzer.py:169 | Adding a value to itself k times gives the value times k. |
| Features.MeanRepeat | posture_analyzer.py:169 | A total divided by k > 0 and added to itself k times gives back the total. |
| Features.RepeatCancel | posture_analyzer.py:169 | For k > 0, bounds on k-fold sums carry over to the summands. |
| Features.AverageAbs | posture_analyzer.py:169 | The mean absolute angle is 0 without segments. Otherwise adding the mean to itself once per segment gives back the sum of absolute angles, which is the mean times the count by `Features.RepeatIsProduct`. It lies in [0, 90]. |
| Features.SumAbsBetween | posture_analyzer.py:169 | If every absolute angle lies in [lo, hi], the sum lies between lo added once per angle and hi added once per angle, that is between count times lo and count times hi. |
| Features.AverageWithin | posture_analyzer.py:169 | The mean of a non-empty list lies within any bounds that hold for every absolute angle, so between the smallest and the largest absolute angle. |
| Features.LineStatsOf | posture_analyzer.py:107-130 | The class counts partition the segments; forward lean is within diagonal; near-90 is within vertical; near-0 is the horizontal count; the mean angle is in [0, 90]. |
| Features.LineStatsCounts | posture_analyzer.py:107-169 | The loop's vertical, horizontal, diagonal and forward counts are the numbers of normalised angles in each class. The near-90 and near-0 counts are the numbers of angles passing those tests, and the mean is the mean absolute angle of the normalised angles. |
| Features.SharesOf | posture_analyzer.py:173-176 | The four shares lie in [0, 1] and the forward share is within the diagonal one. With segments the three orientation shares sum to 1; without any, all four are 0. |
| Features.EdgeCountBound | posture_analyzer.py:183-185 | A band of a rectangular mask holds no more edge pixels than pixels. |
| Features.EdgeCountConcat | posture_analyzer.py:179-181 | The edge pixels of consecutive bands add up. |
| Features.BandCuts | posture_analyzer.py:179-181 | The cuts `h // 3` and `2 * h // 3` are ordered and within the height. |
| Features.BandsPartitionRows | posture_analyzer.py:179-181 | Every row of the image lies in exactly one of the three bands. |
| Features.BandsPartitionEdges | posture_analyzer.py:179-185 | The edge pixels of the three bands add up to those of the whole mask. |
| Features.EdgeCountSplit | posture_analyzer.py:179-181 | Cutting the mask at any two ordered rows splits its edge pixels over the three pieces. |
| Features.BandDensity | posture_analyzer.py:183-185 | A band's density is its edge pixels over its pixels (rows times width), 0 for an empty band, and lies in [0, 1]. |
| Features.Bands | posture_analyzer.py:179-185 | The top, middle and bottom densities are those of the rows before `h // 3`, from `h // 3` to `2 * h // 3`, and from `2 * h // 3` on; each lies in [0, 1]. |
| Features.MiddleDiagonalRatio | posture_analyzer.py:187-204 | The ratio is the number of diagonal segments whose midpoint lies strictly inside the middle band over the number of segments whose midpoint does, 0 when none does, and lies in [0, 1]. |
| Features.MiddleDiagonalCount | posture_analyzer.py:187-202 | The middle-band diagonal segments never outnumber the middle-band segments. |
| Features.Extract | posture_analyzer.py:75-233 | Every extracted record is consistent: ratios and densities in [0, 1], the classes partition the segments, shares sum to 1 (or all are 0 without segments), right angles equal angles near 90 within the vertical count, and a C-shape implies a curved contour. It also copies size and brightness, has `straight_shapes` 0, and detects a C-shape iff some contour is curved, larger than 1% of the image and has solidity below 0.7. |
| Features.ExtractCounts | posture_analyzer.py:107-169 | The record's class counts, near-90 and near-0 counts and mean angle are those of the segments' normalised angles. |
| Features.ExtractRatios | posture_analyzer.py:173-210 | Each class ratio of the record is its class count over the segment count (0 without segments), and the edge density is edge pixels over image pixels. |
| Features.ExtractBands | posture_analyzer.py:179-204 | The record's band densities are those of the three horizontal bands of the edge mask, and its middle-diagonal ratio is that of the segments for the image's height. |
| Classifier.Score | posture_analyzer.py:276-318 | The score lies in [-2, 16] and is negative only when the tilt penalty applies. |
| Classifier.EvaluateCharacterised | posture_analyzer.py:235-324 | The verdict is "correct" iff there are at least 5 segments, no disqualifier holds and the score is at least 8. Fewer than 5 segments or any disqualifier gives "incorrect". |
| Classifier.CorrectNeedsThreeSignals | posture_analyzer.py:276-322 | A "correct" verdict always has at least three criteria awarding points. |
| Classifier.ShapePointsNeedStraight | posture_analyzer.py:302-306 | The shape bonus is only awarded when straight shapes were counted. |
| Classifier.ShapeBonusNeverFires | posture_analyzer.py:302-306 | On any extracted record the shape bonus is 0, because `straight_shapes` is never incremented. |
| Classifier.ScoreMonotoneInVertical | posture_analyzer.py:279-282 | Raising the vertical ratio, all else equal, never lowers the score. |
| Classifier.VerdictMonotoneInVertical | posture_analyzer.py:268-282 | Raising the vertical ratio never turns "correct" into "incorrect". |
| Classifier.VerdictAntitoneInLean | posture_analyzer.py:259-310 | Lowering the diagonal, forward or middle-diagonal ratios never turns "correct" into "incorrect". |
| Classifier.UprightScenario | posture_analyzer.py:276-322 | A record with strong signals on every criterion scores the full 16 and is judged correct. |
| Suggestions.Check | posture_analyzer.py:365-433 | Issue check k adds an entry that cites measurement k and sits at position k of the fixed check order. |
| Suggestions.IssuesFrom | posture_analyzer.py:365-433 | The issue entries from check k on are at most 7 - k, all cite a measurement, and appear in strictly increasing check order. Each one is the entry of an issue check that fires on the record. |
| Suggestions.IssueListedIffFires | posture_analyzer.py:365-433 | The entry of an issue check is listed iff its condition holds. |
| Suggestions.Generate | posture_analyzer.py:326-479 | "Correct": exactly the 3 entries congratulations, the breaks reminder and the stretching reminder, in that order, none citing a measurement. "Incorrect": the firing issue entries, then the five generic tips, then the lighting entry iff brightness < 80, for a length between 5 and 13. |
| Suggestions.CShapeLeads | posture_analyzer.py:366-373 | A detected C-shape puts the C-shape warning first. |
| Suggestions.BackLeaningListed | posture_analyzer.py:376-383 | A vertical ratio below 0.15 lists the "back leaning" entry. |
| Suggestions.DetailsOnlyOnFindings | posture_analyzer.py:337-479 | Only the issue entries and the lighting advisory cite a measurement, and the lighting one only below brightness 80. Conversely, on an "incorrect" verdict every firing issue entry and, below brightness 80, the lighting advisory are listed with a measurement. |
| Suggestions.IssuesListed | posture_analyzer.py:365-433 | On an "incorrect" verdict every firing issue entry is in the list and cites its measurement. |
| Suggestions.DarkLightingListed | posture_analyzer.py:470-477 | On an "incorrect" verdict an image darker than 80 lists the lighting advisory. |
| Suggestions.ErgonomicSuggestions | posture_analyzer.py:481-539 | The general guide has four sections, one per area of the workstation, with no category repeated. |
| Suggestions.LightingLast | posture_analyzer.py:435-477 | An "incorrect" list has at least five entries and ends with the lighting advisory iff brightness is below 80. |
| Analyzer.Analyze | posture_analyzer.py:32-73 | It fails iff the image is not decoded: unreadable gives the "cannot read" message and an exception gives the prefixed reason. On success, the record is consistent and covers every segment, and the message is the "correct" text iff the verdict is correct (otherwise the "problems" text). |
| Analyzer.FewLinesIncorrect | posture_analyzer.py:247-248 | An image with fewer than five segments is analysed successfully and judged incorrect. |
| Analyzer.CShapeReported | posture_analyzer.py:256-257 | A C-shaped contour gives "incorrect" with the high-priority C-shape warning first. |
| Analyzer.LowVerticalReported | posture_analyzer.py:268-269 | Vertical share below 0.15 gives "incorrect" and lists the high-priority "back leaning" entry. |
| Analyzer.CorrectVerdictSuggestions | posture_analyzer.py:340-361 | A correct verdict comes with exactly three entries: congratulations, the breaks reminder and the stretching reminder, in that order, none citing a measurement. |
| Analyzer.IncorrectVerdictSuggestions | posture_analyzer.py:435-477 | An incorrect verdict has 5 to 13 entries and ends with the lighting advisory iff the image is darker than 80. |
| Exercises.FirstWithId | exercises.py:234-237 | The position returned holds the id, and no earlier entry has it; the length is returned when no entry does. |
| Exercises.GetExercise | exercises.py:224-237 | None iff no entry has the id; otherwise the entry is the first one with that id. |
| Exercises.CatalogueIds | exercises.py:33-213 | The catalogue's ids are exactly 1..8 in order, so no two entries share one. |
| Exercises.LookupUnique | exercises.py:234-237 | With unique ids, looking up an entry's id returns that entry. |
| Exercises.CatalogueLookup | exercises.py:224-237 | Ids 1..8 find their catalogue entry; every other id finds nothing. |
| Exercises.ByCategory | exercises.py:239-249 | The result is an order-preserving subsequence holding exactly the entries of the category, each as often as it occurs in the catalogue. |
| Exercises.UnknownCategory | exercises.py:249 | A category no entry has gives an empty list. |
| Exercises.ParseDuration | exercises.py:266 | A value is produced only when a word follows the last '-'. |
| Exercises.ParseRange | exercises.py:263-266 | A range "lo-hi unit" parses to its upper end `hi`. |
| Exercises.ParseSingle | exercises.py:266 | A single figure "n unit" parses to n. |
| Exercises.DurationAfterDash | exercises.py:266 | Only the text after the last '-' affects the parse. |
| Exercises.NumeralThenUnit | exercises.py:266 | The first word of "n unit" is the numeral, and `int()` reads it back as n. |
| Exercises.TrailingDashUnparsed | exercises.py:266 | A duration ending in '-' has no word to read and does not parse. |
| Exercises.CatalogueDuration | exercises.py:37-192 | Each catalogue duration parses to its listed upper bound: 3, 4, 3, 2, 5, 2, 3, 5. |
| Exercises.QuickExercises | exercises.py:251-273 | The quick list is an order-preserving subsequence. An entry is in it iff its duration does not parse or its parsed bound is within the limit. Its length is the number of qualifying entries, and each qualifying entry occurs as often as in the input, any other not at all. |
| Exercises.UnparsedIsKept | exercises.py:269-271 | An entry whose duration does not parse is kept whatever the limit. |
| Exercises.QuickMonotone | exercises.py:261-273 | Raising the limit never drops an entry: the lower limit's list is a subsequence of the higher one's. |
| Exercises.CatalogueQuick | exercises.py:264-271 | A catalogue entry qualifies iff its listed bound is within the limit. |
| Exercises.QuickCatalogueMember | exercises.py:261-273 | A catalogue entry is in the quick list iff its listed bound is within the limit. |
| Exercises.CatalogueQuickAll | exercises.py:261-273 | With a limit of 5 or more every entry qualifies; below 2 none does. |
| Exercises.DefaultLimitKeepsAll | exercises.py:251-273 | With the default limit of 5, or any larger one, the quick list is the whole catalogue. |
| Exercises.TooShortLimit | exercises.py:251-273 | With a limit below 2 the quick list is empty. |
| Exercises.AllQuick | exercises.py:261-273 | When every entry qualifies, the quick list is the whole list. |
| Exercises.NoneQuick | exercises.py:261-273 | When no entry qualifies, the quick list is empty. |
| WorkMonitor.Trunc | work_monitor.py:88 | `int()` of a float is truncation toward zero: the largest integer not above a non-negative value and the smallest not below a non-positive one. |
| WorkMonitor.TruncMonotone | work_monitor.py:265 | Truncation is monotone. |
| WorkMonitor.NewSession | work_monitor.py:25-36 | A new monitor holds the interval in seconds (minutes times 60), is not working, and has no start and no break; today's total is what was loaded. |
| WorkMonitor.DefaultInterval | work_monitor.py:25-32 | The default interval of 50 minutes is 3000 seconds. |
| WorkMonitor.StartSession | work_monitor.py:53-60 | Starting works from `now`, forgets the last break and keeps today's total and the interval. |
| WorkMonitor.StopSession | work_monitor.py:63-75 | Stopping ends the session. A running session with a set start adds `now - start` to today's total; otherwise the total is unchanged. |
| WorkMonitor.CurrentWorkTime | work_monitor.py:77-88 | It is 0 outside an active session. In one it is the truncated sum of the session's length and today's total, i.e. within one second below it. |
| WorkMonitor.StoppedReadsZero | work_monitor.py:74-88 | After stopping, the current work time reads 0 at any later time. |
| WorkMonitor.StopKeepsWorkTime | work_monitor.py:68-88 | After stopping at `stop`, today's total truncates to what the running session showed at `stop`. |
| WorkMonitor.RecordBreak | work_monitor.py:109-114 | Recording a break sets the break time to `now` and changes nothing else. |
| WorkMonitor.BreakRule | work_monitor.py:90-107 | No break is suggested unless a session is active (working, with a set start). In a session, a break is due iff the interval has passed since the last break (if one is set) or else since the start. |
| WorkMonitor.NoBreakRightAfterRecording | work_monitor.py:103-114 | With a positive interval, no break is due before it has passed since a recorded break. |
| WorkMonitor.FirstBreakAfterInterval | work_monitor.py:53-107 | A freshly started session is due for a break iff a whole interval has passed since the start. |
| WorkMonitor.StartTimer | work_monitor.py:197-219 | Starting gives a running, unpaused timer of the chosen kind. It starts at `now` with nothing elapsed, lasts 1500 s for a Pomodoro and 300 s for a break, and has the timer's shape. |
| WorkMonitor.StartPomodoro | work_monitor.py:197-207 | A Pomodoro lasts 1500 seconds and has kind Pomodoro. |
| WorkMonitor.StartBreak | work_monitor.py:209-219 | A break lasts 300 seconds and has kind Break. |
| WorkMonitor.Pause | work_monitor.py:221-228 | Pausing does nothing unless the timer is running and not paused. Otherwise it marks the pause at `now`, banks the time since the start, and leaves every other field unchanged. |
| WorkMonitor.Resume | work_monitor.py:230-236 | Resuming does nothing unless paused. Otherwise it restarts the clock at `now`, clears the pause and leaves every other field unchanged. |
| WorkMonitor.Stop | work_monitor.py:238-247 | Stopping returns to the idle timer, except that the last duration is kept. |
| WorkMonitor.Remaining | work_monitor.py:249-265 | The remaining time is never negative and is 0 when not running. Otherwise it is the truncated rest of the duration, or 0 once that rest is no longer positive. |
| WorkMonitor.InvariantPreserved | work_monitor.py:221-247 | Pause, resume and stop keep the timer's shape: a running timer has a start and a kind, and a paused timer is running. |
| WorkMonitor.RemainingAtMostDuration | work_monitor.py:256-265 | With nothing negative elapsed and the clock not before the start, the remaining time never exceeds the duration. |
| WorkMonitor.PausedIsFrozen | work_monitor.py:259-260 | While paused, the remaining time does not depend on the clock. |
| WorkMonitor.PauseResumeKeepsRemaining | work_monitor.py:225-263 | Pausing at p and resuming at q leaves at q exactly what was left at p, and so does the paused timer. |
| WorkMonitor.RemainingNonIncreasing | work_monitor.py:261-265 | The remaining time never grows as the clock advances. |
| WorkMonitor.PomodoroRunsOut | work_monitor.py:201-265 | A Pomodoro reads 0 remaining iff more than 1499 seconds have passed since its start. |
| WorkMonitor.FloorDiv | work_monitor.py:144-145 | Floor division of a float by a positive integer equals floor division of its floor. |
| WorkMonitor.FloorMod | work_monitor.py:146 | `int(x % d)` for a positive integer d equals the floor of x modulo d. |
| WorkMonitor.HoursField | work_monitor.py:144 | The hours field is the floor of the time divided by 3600. |
| WorkMonitor.MinutesField | work_monitor.py:145 | The minutes field is the floor's remainder modulo 3600, divided by 60. |
| WorkMonitor.SecondsField | work_monitor.py:146 | The seconds field is the floor modulo 60. |
| WorkMonitor.TotalMinutesField | work_monitor.py:277 | The timer display's minutes are the whole minutes of the floor, not wrapped at an hour. |
| WorkMonitor.FormatTimeFields | work_monitor.py:134-147 | The float formatter shows the hour, minute and second fields of the whole seconds. |
| WorkMonitor.FormatTimeReadsBack | work_monitor.py:134-147 | For a non-negative time the display reads back as minutes and seconds below 60 that, with the hours, add up to the whole seconds. |
| WorkMonitor.FormatTimerTimeFields | work_monitor.py:267-279 | The timer display shows whole minutes and seconds modulo 60 of the whole seconds. |
| WorkMonitor.FormatTimerTimeReadsBack | work_monitor.py:267-279 | For a non-negative time the timer display reads back as seconds below 60 and unbounded minutes adding up to the whole seconds. |
| App.AllowedFileCharacterised | app.py:268-279 | A name is allowed iff it has a last '.' whose lower-cased suffix is png, jpg, jpeg or gif. |
| App.AllowedFileExamples | app.py:279 | "a.JPG" and ".png" are accepted; "a.jpg.exe" and "noext" are refused. |
| App.FormatTimeReadsBack | app.py:282-295 | For a non-negative integer the display reads back as minutes and seconds below 60 that, with the hours, add up to it. |
| App.FormattersAgree | app.py:292-295 | The monitor's float formatter shows exactly what this integer formatter shows for the whole seconds. |
| App.HandleUpload | app.py:140-163 | The checks run in order: a missing part, then an empty name, then a refused extension, each a 400 with its own message. The upload is accepted iff a part is present and its name passes the whitelist. |
| App.AcceptedUpload | app.py:148-161 | An accepted upload is stored under the generated name and carries the analysis of the saved file. It is a success even when the analysis failed. |
| App.StoredNameAllowed | app.py:150 | The stored name `posture_<stamp>.jpg` has extension `jpg` and itself passes the whitelist, whatever was uploaded. |
| Text.Format02 | work_monitor.py:147 | `:02d` of a non-negative number is at least two digits that denote it, exactly two below 100. A negative number gets a '-' and its magnitude. |
| Text.Clock3RoundTrip | work_monitor.py:147 | An `HH:MM:SS` display with fields below 100 reads back to its fields. |
| Text.Clock2RoundTrip | work_monitor.py:279 | An `MM:SS` display with seconds below 100 reads back to its fields. |
| Text.HmsFields | app.py:292-294 | For a non-negative count, minutes and seconds are below 60 and the three fields add up to the count. |
| Text.AfterLast | app.py:279 | The result holds no separator and is a suffix of the input. When shorter, it is preceded by the separator. |
| Text.AfterLastAt | app.py:279 | After the last occurrence of the separator, the result is the rest of the text. |
| Text.AfterLastAppended | exercises.py:266 | A separator followed by separator-free text leaves exactly that text. |
| Text.FirstWord | exercises.py:266 | None iff the text is all whitespace. Otherwise a non-empty whitespace-free word preceded only by whitespace and followed by whitespace or the end. |
| Text.FirstWordOf | exercises.py:266 | A word followed by whitespace or nothing is the first word. |
| Text.ParsePyIntDecimal | exercises.py:266 | `int()` of a decimal numeral gives back the number. |
| Text.DecimalRoundTrip | exercises.py:266 | The digits of a number denote that number. |
| Common.Count | posture_analyzer.py:164-166 | The count is at most the length. It is 0 iff no element qualifies and the length iff every element does. |
| Common.Filter | exercises.py:249 | The filtered list has as many elements as qualify and holds exactly the qualifying elements. |
| Common.FilterSubsequence | exercises.py:249 | Filtering keeps order: the result is a subsequence of the input. |
| Common.FilterMultiset | exercises.py:249 | Filtering keeps every qualifying element as often as it occurs, and nothing else. |
| Common.FilterMonotone | exercises.py:261-273 | Filtering with a weaker predicate keeps everything the stronger one kept, in order. |

## Left out

- The OpenCV and NumPy stages are not modelled: decoding, grey
  conversion, blur, Canny, the Hough transform, contour tracing, polygon
  approximation, convex hull, areas and pixel means. Their outputs are the
  inputs of `Features.Image`. `Features.WellFormed` states what they
  guarantee: a rectangular mask of the image's size, brightness in
  [0, 255], `atan2` angles in [-180, 180] and non-negative areas.
- `math.atan2`/`math.degrees` and float rounding are not modelled. Each
  segment carries its angle as a `real`, and float arithmetic is exact
  real arithmetic.
- The `detected_issue` texts and their `:.1f` rounding are not modelled. A
  suggestion cites the value it would print instead. The descriptions of
  suggestions, guide bullet points, and exercise descriptions,
  instructions, benefits and picture names are display text, not modelled.
- `aspect_ratio` is `width / height`; the `height > 0` guard is always
  true for a decoded image.
- Persistence is not modelled: `save_stats` and `load_stats` (JSON file
  and date rollover). The constructor takes the loaded total as a
  parameter.
- `is_computer_active` (the CPU heuristic from `psutil`) is not modelled.
- `get_daily_stats` is not modelled: it only combines the modelled work
  time, formatter and break rule with the current date.
- `print` calls and `datetime` are not modelled. The `%Y%m%d_%H%M%S`
  stamp of the stored file name is a parameter.
- Flask routing, `jsonify`, templates, `file.save`, the 16 MB size limit
  and the module-level singletons are not modelled. The routes that just
  forward to a modelled operation add nothing beyond it.
- Exercises.ParseDuration: its own contract only says a value needs a word after the last '-'. Its results on the shapes the catalogue uses are stated by `Exercises.ParseRange`, `Exercises.ParseSingle` and `Exercises.TrailingDashUnparsed`, because a closed-form contract over every string would restate the parser.
- Text.ParsePyInt: it accepts only ASCII digits (with an optional '+' and
  single underscores between digits). Python's `int()` also accepts other
  Unicode decimal digits, which the catalogue never uses.
- Text.Lower: it lower-cases ASCII letters only. No non-ASCII capital
  lower-cases to a letter of the four whitelisted extensions, so the
  whitelist verdict is the same.
- WorkMonitor.IsSet: a timestamp of exactly 0.0 is false in Python. The
  model keeps that truthiness, so a session started at the epoch is not
  active, as in the source.
