# Race telemetry replay — a verified model

This project models, in Dafny, the logic of a race-telemetry replay tool.
The tool has two halves, and the model covers both.

The offline processing pipeline:
- turns long-format raw telemetry into one clean trajectory per car;
- resamples each trajectory onto a 10 ms grid;
- aligns every car to its race start;
- derives a fleet racing line and per-car racing lines;
- builds the section-compare tables (clean laps, ideal speed and time, sector partition, median lines, fastest laps);
- writes delta-speed trails for each car's fastest lap.

The interactive replay:
- the world model answers per-frame queries: car state, lap number, sector, lateral deviation, race order, lap and sector times;
- the renderer turns those answers into colours, timer fields and HUD order;
- the user-interface state machines are the application state, playback clock, dataset registry, colour table and colour picker, message overlay, screen transitions, the training demo with its cursor and camera, and the loading-screen symbol animation.

Each source file of the core is one Dafny module in a file of the same name:
- code that computes values becomes datatypes, functions and lemmas;
- code that updates state in place becomes classes whose methods say what the new state is;
- loops become methods with invariants, proved against a specification function.

`common.dfy` holds the shared vocabulary:
- `Option` and `Result`;
- Python's `int(x)` truncation;
- clamping, sums, minima and maxima;
- lexicographic string order;
- `str.split` and `rsplit`;
- decimal text;
- nearest-point search.

Floating-point numbers are modelled as exact reals. The following are parameters of the model rather than computations inside it:
- wall-clock readings;
- random draws;
- library numerics: square roots, geodesy, smoothing filters, medians and interpolators.

A best time that was never set (Python's `float('inf')`) is `None`.

## Model

| member | source | states |
|---|---|---|
| AppState.StateManager.constructor | src/app/app_state.py:18-27 | starts waiting for a file, with no paths, no error, an empty progress message at 0 and no callback |
| AppState.StateManager.SetStateChangeCallback | src/app/app_state.py:29-31 | a callback is registered exactly when the one given is truthy (a `None` callback is never called by `transition_to`), and nothing else changes |
| AppState.StateManager.TransitionTo | src/app/app_state.py:33-39 | sets the new state and notifies the callback once with (old, new) when one is registered, even if the state is unchanged |
| AppState.StateManager.SetInputFile | src/app/app_state.py:41-45 | records the file, clears the error and moves to Processing, leaving the state consistent |
| AppState.StateManager.SetProcessedDir | src/app/app_state.py:47-52 | an already processed directory goes straight to Ready with no input file and no error |
| AppState.StateManager.SetProcessingProgress | src/app/app_state.py:54-57 | records message and percent and never changes the state or notifies |
| AppState.StateManager.SetReady | src/app/app_state.py:59-62 | records the output directory and moves to Ready |
| AppState.StateManager.SetError | src/app/app_state.py:64-67 | records the message and moves to Error, keeping both paths |
| AppState.StateManager.Reset | src/app/app_state.py:69-76 | clears every field and goes back to waiting for a file, notifying the callback |
| Controls.AdvanceSpec | src/app/controls.py:34-51 | a playing step never passes the end of the race, never moves back for a forward step, and playback continues only strictly before the end |
| Controls.ScrubberMax | src/app/controls.py:16-32 | the scrubber's upper end is the whole number of seconds in the race (floor of total / 1000) |
| Controls.ScrubInRange | src/app/controls.py:72-74 | every scrubber position maps to a time inside the race |
| Controls.PlaybackControls.constructor | src/app/controls.py:10-14 | starts paused at speed 1 with the frame clock at now |
| Controls.PlaybackControls.UpdateSimulation | src/app/controls.py:34-51 | paused changes nothing; playing advances the replay time by elapsed wall time times 1000 times the speed, clamps at the end and stops there, and moves the scrubber to the whole second |
| Controls.PlaybackControls.Play | src/app/controls.py:53-56 | starts playback and restarts the frame clock |
| Controls.PlaybackControls.Pause | src/app/controls.py:58-60 | stops playback and changes nothing else |
| Controls.PlaybackControls.Restart | src/app/controls.py:62-66 | back to time 0, stopped, scrubber at 0 |
| Controls.PlaybackControls.SetSpeed | src/app/controls.py:68-70 | sets the speed factor only |
| Controls.PlaybackControls.ScrubTime | src/app/controls.py:72-74 | the scrubber's seconds become the replay time in milliseconds |
| Controls.Advance | src/app/controls.py:34-51 | the new replay time is the advanced time, or the end when it would reach it; playback goes on exactly when it does not |
| ColorConfig.DefaultsComplete | src/app/color_config.py:36-187 | the built-in table holds every category with at least the keys the lookups read |
| ColorConfig.Merge | src/app/color_config.py:202-210 | merging a saved table adds no category and no key |
| ColorConfig.MergeSpec | src/app/color_config.py:202-210 | each entry either keeps its value or takes the converted saved value of the same category and key, present only when the saved category is an object; a complete table stays complete |
| ColorConfig.CarColorsList | src/app/color_config.py:251-254 | eighteen colours, entry i being the colour of car i |
| ColorConfig.BrakeColorSpec | src/app/color_config.py:256-269 | any brake type other than "rear" reads the front colours; below 0.3 is light, from 0.3 below 0.7 medium, from 0.7 heavy |
| ColorConfig.LookupFallbacks | src/app/color_config.py:295-338 | an unknown theme reads the dark theme; a size is the stored one for its key when present, else the built-in fallback for that key, else 8 |
| ColorConfig.ColorFallbacks | src/app/color_config.py:247-319 | a car index or sector with an entry reads it; one without an entry reads white |
| ColorConfig.CategoryFallbacks | src/app/color_config.py:271-314 | a stored category reads as stored and an unknown one as empty, as `get_category_colors` (lines 407-409) does; every built-in category is present, so the per-category getters read it as stored |
| ColorConfig.ColorTable.constructor | src/app/color_config.py:26-34 | the table is the defaults, merged with the saved table when one was loaded |
| ColorConfig.ColorTable.ResetToDefaults | src/app/color_config.py:233-236 | the table becomes the defaults |
| ColorConfig.ColorTable.ResetCategory | src/app/color_config.py:238-245 | restores a built-in category to its defaults and leaves an unknown one alone |
| ColorConfig.ColorTable.SetColor | src/app/color_config.py:411-421 | succeeds exactly when the category and key exist, and then changes that one entry; otherwise nothing changes |
| ColorConfig.ColorTable.SetCarColor | src/app/color_config.py:340-343 | writes the colour under the decimal index, so that looking the car up gives it back |
| ColorConfig.ColorTable.SetSize | src/app/color_config.py:394-401 | writes the size, creating the sizes category when missing, so that looking it up gives it back |
| ColorPicker.FormatReadsBack | src/app/color_picker.py:245-247 | a component in [0, 255] formats as two hex digits that read back as that component |
| ColorPicker.ColorToHexFormat | src/app/color_picker.py:245-247 | components in [0, 255] give '#' followed by six lowercase hex digits |
| ColorPicker.LStripHash | src/app/color_picker.py:251 | removes leading '#' characters only: the result is a suffix that does not start with '#' |
| ColorPicker.HexToColor | src/app/color_picker.py:249-270 | a parsed colour has three components, each in [0, 255] |
| ColorPicker.HexRoundTrip | src/app/color_picker.py:245-270 | formatting a colour and parsing the text gives the colour back |
| ColorPicker.ShortForm | src/app/color_picker.py:256-262 | a three-digit body doubles each digit ("abc" reads as aa, bb, cc) |
| ColorPicker.HexToColorAccepts | src/app/color_picker.py:249-270 | text is accepted exactly when, after its leading '#', it is 6 or 3 characters that are all hex digits |
| ColorPicker.HexToColorAsWrittenAcceptsNegative | src/app/color_picker.py:249-270 | as written, "#-1-1-1" parses to (-1, -1, -1) |
| ColorPicker.ParsersAgreeOnDigits | src/app/color_picker.py:258-268 | on hex digits the as-written pair parser and the corrected one agree |
| ColorPicker.Picker.constructor | src/app/color_picker.py:45-66 | closed, white original and current colour, no entry |
| ColorPicker.Picker.Open | src/app/color_picker.py:68-87 | opens on the entry, taking the first three components as both the original and the current colour |
| ColorPicker.Picker.OnSliderChange | src/app/color_picker.py:198-205 | the three slider values become the current colour and nothing else changes |
| ColorPicker.Picker.OnHexChange | src/app/color_picker.py:207-214 | readable stripped text replaces the current colour; unreadable text leaves it. It parses with the corrected `HexToColor` (see "## Findings"), so, unlike the source, "#-1-1-1" leaves the colour unchanged |
| ColorPicker.Picker.OnReset | src/app/color_picker.py:284-287 | the current colour goes back to the original |
| ColorPicker.Picker.OnApply | src/app/color_picker.py:272-276 | hands over (category, key, current colour) and closes |
| ColorPicker.Picker.Close | src/app/color_picker.py:278-297 | closes without changing the colours |
| ColorPicker.ParsePair | src/app/color_picker.py:249-270 | a parsed pair lies in [0, 255] |
| DatasetManager.DisplayName | src/app/dataset_manager.py:21-24 | a name that already mentions "Session" is kept; any other is prefixed with "Session - " |
| DatasetManager.DisplayNameSpec | src/app/dataset_manager.py:21-24 | every display name mentions "Session", and naming a display name again changes nothing |
| DatasetManager.MakeInfo | src/app/dataset_manager.py:11-24 | each metadata field or its default (no cars, 0 ms, the directory name as session, "Unknown Track"), and the display name |
| DatasetManager.Basename | src/app/dataset_manager.py:65 | the directory name is a suffix of the path with no '/' in it |
| DatasetManager.DurationPartsSpec | src/app/dataset_manager.py:26-31 | the seconds are 0 to 59 and with 60 times the minutes give the whole seconds of the duration; a duration of at least 0 has minutes of at least 0 |
| DatasetManager.Pad2 | src/app/dataset_manager.py:31 | two decimal digits that read back as the number |
| DatasetManager.DurationString | src/app/dataset_manager.py:26-31 | at least four characters, with ':' third from the end |
| DatasetManager.DurationStringSpec | src/app/dataset_manager.py:26-31 | the text before ':' is the minutes in decimal and the two digits after it are the seconds, so parsing the text gives back the minutes and seconds of the duration |
| DatasetManager.Summary | src/app/dataset_manager.py:33-35 | the display name, then the car count in decimal followed by " cars", then the duration text, joined by vertical-bar separators |
| DatasetManager.IdRoundTrip | src/app/dataset_manager.py:61-62 | an id "dataset_N" reads back as N |
| DatasetManager.IdsDistinct | src/app/dataset_manager.py:61-62 | distinct counter values give distinct ids |
| DatasetManager.Registry.constructor | src/app/dataset_manager.py:41-44 | empty, nothing active, counter at 1 |
| DatasetManager.Registry.AddDataset | src/app/dataset_manager.py:46-77 | issues a fresh id from the counter, appends the entry, advances the counter and makes the first entry active, keeping the registry valid |
| DatasetManager.Registry.SetActive | src/app/dataset_manager.py:79-93 | succeeds exactly for a known id, which becomes active; nothing else changes |
| DatasetManager.Registry.Remove | src/app/dataset_manager.py:106-129 | refuses an unknown id and the last remaining active entry; removing the active entry activates the first remaining one in insertion order; a non-empty registry stays non-empty |
| DatasetManager.Registry.ActiveDataset | src/app/dataset_manager.py:95-99 | present exactly when a dataset is loaded, and then the active one |
| DatasetManager.Registry.ActiveDataDir | src/app/dataset_manager.py:101-104 | present exactly when a dataset is loaded, and then the active one's directory |
| DatasetManager.Registry.DatasetList | src/app/dataset_manager.py:131-133 | one (id, info) pair per dataset, no id twice |
| DatasetManager.Registry.HasMultiple | src/app/dataset_manager.py:135-137 | true exactly when more than one dataset is loaded |
| DatasetManager.Registry.ComparisonData | src/app/dataset_manager.py:139-165 | nothing exactly when empty; otherwise one row per dataset in insertion order, marked active exactly for the active id |
| DatasetManager.OneActiveRow | src/app/dataset_manager.py:139-165 | exactly one comparison row is marked active |
| DatasetManager.Without | src/app/dataset_manager.py:106-129 | the order without the removed id and with every other id |
| DatasetManager.WithoutDistinct | src/app/dataset_manager.py:106-129 | removing an id keeps the order free of repeats |
| DemoCursor.EaseInOutCubicFixes | src/app/demo_cursor.py:110-122 | the easing fixes 0, one half and 1, where its two halves meet |
| DemoCursor.EaseInOutCubicInUnit | src/app/demo_cursor.py:110-122 | the easing maps [0, 1] into [0, 1] |
| DemoCursor.GlideSpec | src/app/demo_cursor.py:62-76 | while gliding the cursor lies between start and target, on the start at progress 0 and on the target at 1 |
| DemoCursor.ClickScaleBounds | src/app/demo_cursor.py:94-101 | the click scale stays within [1, 1.3] and, while clicking, peaks at 1.3 exactly at half progress |
| DemoCursor.Cursor.constructor | src/app/demo_cursor.py:10-32 | visible at the origin, no glide under way, no click |
| DemoCursor.Cursor.MoveTo | src/app/demo_cursor.py:34-46 | a new glide from the current position to the target over the duration; the cursor does not jump |
| DemoCursor.Cursor.TriggerClick | src/app/demo_cursor.py:48-51 | starts a click at progress 0 without moving the cursor |
| DemoCursor.Cursor.Show | src/app/demo_cursor.py:53-55 | makes the cursor visible and changes nothing else |
| DemoCursor.Cursor.Hide | src/app/demo_cursor.py:57-60 | hides the cursor and changes nothing else |
| DemoCursor.Cursor.Update | src/app/demo_cursor.py:62-83 | an unfinished glide advances by dt / duration capped at 1 and puts the cursor on the eased point (`NextPosition` of the old state), so it reaches the target when the glide ends; a click advances by dt / 0.3 and resets once it reaches 1 |
| DeviationBars.BandFillIsClamp | src/app/deviation_bars.py:62-72 | a bar is full from its threshold, empty below its band and the clamped position within the band in between |
| DeviationBars.BarFills | src/app/deviation_bars.py:42-86 | ten fills, each in [0, 1] |
| DeviationBars.BarFillsSides | src/app/deviation_bars.py:42-86 | a negative clamped score fills only the left five bars and any other only the right five; score 0 fills nothing; the active side reads bar i as the band position of the magnitude |
| DeviationBars.SideShape | src/app/deviation_bars.py:62-72 | full bars, then at most one partial bar, then empty bars |
| DeviationBars.BarFillsSum | src/app/deviation_bars.py:42-86 | the fills add up to 5 times the magnitude of the clamped score |
| DeviationBars.SmoothSpec | src/app/deviation_bars.py:28-39 | with dt >= 0 a smoothing step never overshoots its target, and with dt >= 150 ms it lands on it |
| DeviationBars.SmoothKeepsUnit | src/app/deviation_bars.py:28-39 | fills in [0, 1] stay in [0, 1] under smoothing |
| DeviationBars.DeviationBarState.constructor | src/app/deviation_bars.py:22-26 | ten zero fills and ten zero targets |
| DeviationBars.DeviationBarState.Update | src/app/deviation_bars.py:28-39 | each fill moves the fraction min(1, dt / 150) of its gap toward its target, in place; targets stay |
| DeviationBars.DeviationBarState.ShowDeviation | src/app/gpu_renderer.py:670-685 | the deviation divided by 2 m and clamped to [-1, 1] sets the targets, then one 16 ms smoothing step |
| GenerateAllTrajectories.Fraction | src/processing/generate_all_trajectories.py:35-37 | a job fraction within 0..total lies in [0, 1], is 1 on the last job and 0 when there are no jobs |
| GenerateAllTrajectories.ProgressMessage | src/processing/generate_all_trajectories.py:38 | the message, then the job numbers in parentheses |
| GenerateAllTrajectories.KeptTrajectory | src/processing/generate_all_trajectories.py:73-138 | a vehicle is kept exactly when no step raised, it has at least 100 rows after extraction and after alignment, and it has a trajectory |
| GenerateAllTrajectories.AddBounds | src/processing/generate_all_trajectories.py:123-127 | widening by a non-empty trajectory always gives finite bounds |
| GenerateAllTrajectories.ProcessVehicle | src/processing/generate_all_trajectories.py:73-138 | reports 1 to 5 consecutive job numbers from 2 + 5i + 1, all five exactly when a non-empty trajectory is stored; stores the car exactly when it is kept |
| GenerateAllTrajectories.ColorCycle | src/processing/generate_all_trajectories.py:177-200 | 18 distinct palette colours, and cars 18 apart share one |
| GenerateAllTrajectories.ProcessVehicles | src/processing/generate_all_trajectories.py:70-138 | the loop keeps exactly the kept cars, folds their bounds and duration, and reports only job numbers in 1..total |
| GenerateAllTrajectories.BuildLines | src/processing/generate_all_trajectories.py:158-175 | one report per car numbered from the first per-car job, and the metadata entries of the lines that were built |
| GenerateAllTrajectories.GenerateAll | src/processing/generate_all_trajectories.py:27-279 | the run's result is the specified one (no vehicles, the global line's error, or the kept cars' metadata); every reported fraction lies in [0, 1]; a failed global line ends the reports at the racing-line job, and with section compare 0.85 follows the final job |
| GenerateAllTrajectories.RunResultSpec | src/processing/generate_all_trajectories.py:140-224 | no metadata exactly when no car is kept; the global line's error exactly when a car is kept and the line fails, carrying its message; metadata exactly otherwise, listing in order only kept vehicles, one colour each, and line entries only for listed cars |
| GenerateAllTrajectories.WriteMetadata | src/processing/generate_all_trajectories.py:158-224 | the metadata of the cars (bounds, duration, ids, palette colours, built line entries), fractions in [0, 1], and with section compare the last job then 0.85 |
| GenerateAllTrajectories.KeptSpec | src/processing/generate_all_trajectories.py:73-138 | the kept cars are, in order, exactly the vehicles that passed every skip rule, each with its own trajectory |
| GenerateAllTrajectories.BoundsUnbounded | src/processing/generate_all_trajectories.py:70-127 | the bounds stay at the initial infinities exactly when no kept trajectory has a point |
| GenerateAllTrajectories.BoundsOfXs | src/processing/generate_all_trajectories.py:124-125 | the x bounds are the minimum and maximum of every kept x |
| GenerateAllTrajectories.BoundsOfYs | src/processing/generate_all_trajectories.py:126-127 | the y bounds are the minimum and maximum of every kept y |
| GenerateAllTrajectories.DurationOfSpec | src/processing/generate_all_trajectories.py:130-131 | the duration is 10 ms per sample of the longest kept trajectory, or 0 |
| GenerateAllTrajectories.LineEntriesSpec | src/processing/generate_all_trajectories.py:161-173 | a failing per-car line omits exactly that car's entry: every entry belongs to a built line, and every built line has its entry |
| GenerateAllTrajectories.JobNumbersBounded | src/processing/generate_all_trajectories.py:59-65 | every job number the driver uses lies in 1..3 + 6N |
| GenerateAllTrajectories.ColorOf | src/processing/generate_all_trajectories.py:177-200 | every car colour comes from the palette |
| GenerateAllTrajectories.Kept | src/processing/generate_all_trajectories.py:73-138 | no more cars kept than vehicles |
| GeneratePerCarRacingLines.ResetsSpec | src/processing/generate_per_car_racing_lines.py:18-19 | the reset indices are strictly increasing, in 1..n-1, and are exactly the rows where lap distance falls by more than 100 m |
| GeneratePerCarRacingLines.BoundariesSpec | src/processing/generate_per_car_racing_lines.py:22 | the boundaries start at 0, end at n and never decrease |
| GeneratePerCarRacingLines.LongSegmentsSound | src/processing/generate_per_car_racing_lines.py:24-32 | every returned lap is a consecutive boundary pair more than 100 rows apart |
| GeneratePerCarRacingLines.LongSegmentsComplete | src/processing/generate_per_car_racing_lines.py:24-32 | every consecutive boundary pair more than 100 rows apart is returned |
| GeneratePerCarRacingLines.LongSegmentsOrdered | src/processing/generate_per_car_racing_lines.py:24-32 | for non-decreasing boundaries the laps are ordered, disjoint and within the first and last boundary |
| GeneratePerCarRacingLines.SegmentLaps | src/processing/generate_per_car_racing_lines.py:7-32 | the boundary loop returns the long consecutive boundary pairs |
| GeneratePerCarRacingLines.LapsWithinTrajectory | src/processing/generate_per_car_racing_lines.py:7-32 | laps lie inside the trajectory, span more than 100 rows, and are ordered and disjoint |
| GeneratePerCarRacingLines.InterpolateLapToGrid | src/processing/generate_per_car_racing_lines.py:35-60 | no result exactly when the lap covers less than 100 m; otherwise n points, x and y interpolated at n evenly spaced distances from the lap's minimum to its maximum |
| GeneratePerCarRacingLines.AcceptLap | src/processing/generate_per_car_racing_lines.py:94-106 | a lap contributes at most one resampled lap, at least 100 m long with n points |
| GeneratePerCarRacingLines.Accepted | src/processing/generate_per_car_racing_lines.py:94-106 | the accepted laps are at most the laps, each at least 100 m long with n points |
| GeneratePerCarRacingLines.MedianLine | src/processing/generate_per_car_racing_lines.py:112-113 | the median line has n points |
| GeneratePerCarRacingLines.ComputePerCarRacingLine | src/processing/generate_per_car_racing_lines.py:63-124 | too few laps is an error; too few clean laps is an error exactly when fewer than the minimum are accepted, and so is stacking no lap at all (a minimum of 0 or less with no accepted lap, where `np.stack` raises); otherwise the n-point median line and the median accepted lap length |
| GeneratePerCarRacingLines.SegmentsInside | src/processing/generate_per_car_racing_lines.py:85-96 | every lap the segmentation returns lies inside the trajectory |
| GeneratePerCarRacingLines.MedianLapLengthAtLeast | src/processing/generate_per_car_racing_lines.py:106-116 | any median of the accepted lap lengths is at least 100 m |
| GenerateRacingLine.BinIndex | src/processing/generate_racing_line.py:47-49 | the clipped bin index always lies in 0..n-1 |
| GenerateRacingLine.BinIndexSpec | src/processing/generate_racing_line.py:47-49 | a value in [k/n, (k+1)/n) lands in bin k |
| GenerateRacingLine.BinIndexEnds | src/processing/generate_racing_line.py:47-49 | values below 0 land in the first bin and values of at least 1 in the last |
| GenerateRacingLine.DeviationFilter | src/processing/generate_racing_line.py:44-83 | the per-bin loop clearing the keep mask keeps exactly the points that are not far from their coarse bin's median |
| GenerateRacingLine.SparseBinsUntouched | src/processing/generate_racing_line.py:54-57 | a coarse bin with fewer than three points loses none of them |
| GenerateRacingLine.PitWindows | src/processing/generate_racing_line.py:99-125 | the pit windows, ascending, are exactly the windows of at least ten points with mean speed below 15 and spread above 30 |
| GenerateRacingLine.RemovePitWindows | src/processing/generate_racing_line.py:127-133 | the pit mask loop removes exactly the points in pit windows |
| GenerateRacingLine.FilterMainTrackPoints | src/processing/generate_racing_line.py:9-146 | the three rules in order, with the early returns on an empty stage |
| GenerateRacingLine.MainTrackSpec | src/processing/generate_racing_line.py:9-146 | the filtered points are an order-preserving subsequence of the input, all at least 8 m/s, none in a pit window of the points reaching the third rule; empty input gives empty output |
| GenerateRacingLine.CarPointsInUnit | src/processing/generate_racing_line.py:168-187 | normalised lap distances lie in [0, 1] |
| GenerateRacingLine.CollectedInUnit | src/processing/generate_racing_line.py:166-187 | every collected point lies in [0, 1] on the normalised axis |
| GenerateRacingLine.CollectPoints | src/processing/generate_racing_line.py:166-187 | the collection loop returns every car's normalised points, or the error a car with no rows raises |
| GenerateRacingLine.BinLine | src/processing/generate_racing_line.py:213-223 | one entry per bin |
| GenerateRacingLine.NextPrevAreMod | src/processing/generate_racing_line.py:233-246 | the circular neighbours are Python's (i + 1) % n and (i - 1) % n, and undo each other |
| GenerateRacingLine.JumpDistances | src/processing/generate_racing_line.py:228-238 | one distance per bin |
| GenerateRacingLine.AfterJumpsSpec | src/processing/generate_racing_line.py:240-250 | jump removal only removes points, and removes exactly the present points with a neighbour more than 15 m away on either side, measured before any removal |
| GenerateRacingLine.ValidIndices | src/processing/generate_racing_line.py:253-262 | the ascending indices of exactly the present points |
| GenerateRacingLine.InterpAtSpec | src/processing/generate_racing_line.py:264-265 | the interpolant passes through every knot and holds the end values outside them |
| GenerateRacingLine.GapFillSpec | src/processing/generate_racing_line.py:259-265 | present points are kept, and the line is held at the first and last present point beyond them, without wrapping round |
| GenerateRacingLine.RacingLineLength | src/processing/generate_racing_line.py:149-285 | a successful racing line has one point per bin |
| GenerateRacingLine.FillBins | src/processing/generate_racing_line.py:213-223 | the bin-filling loop writes each bin's median point, or leaves it missing |
| GenerateRacingLine.JumpDistanceArray | src/processing/generate_racing_line.py:228-238 | the distance loop fills each entry with the distance to the next present point, or 0 |
| GenerateRacingLine.RemoveJumps | src/processing/generate_racing_line.py:240-250 | the marking loop removes points in place as the jump rule says |
| GenerateRacingLine.ComputeRacingLine | src/processing/generate_racing_line.py:149-285 | collection, filtering, binning, jump removal and gap filling give the specified racing line or its error |
| GenerateRacingLine.AfterJumps | src/processing/generate_racing_line.py:240-250 | one entry per bin |
| GenerateRacingLine.AfterJumpsAt | src/processing/generate_racing_line.py:240-250 | a present point is removed exactly when the jump to or from a neighbour exceeds the limit; other entries stay |
| GenerateRacingLine.GapFill | src/processing/generate_racing_line.py:259-265 | one point per bin |
| GpuRenderer.ChannelSpec | src/app/gpu_renderer.py:529-531 | a truncated channel ramp starts at its first end, ends at its second, and stays between them for t in [0, 1] |
| GpuRenderer.LerpSpec | src/app/gpu_renderer.py:529-533 | a colour ramp gives the first colour at 0, the second at 1 and lies channel by channel between them in between |
| GpuRenderer.DeviationColorSpec | src/app/gpu_renderer.py:509-533 | alpha 80 always; white at zero; toward red on the right and blue on the left; full red or blue from 2 m on |
| GpuRenderer.AccelColorSpec | src/app/gpu_renderer.py:765-788 | low at 0, medium at one half, high at 1, between low and medium on [0, 1/2] and between medium and high above, with the given alpha |
| GpuRenderer.DeltaSpeedColorSpec | src/app/gpu_renderer.py:790-820 | the slower colour from -30 km/h down, the baseline at 0, the faster colour from 30 km/h up, ramping between them on each side |
| GpuRenderer.Mod60 | src/app/gpu_renderer.py:1133 | Python's float remainder by 60 lies in [0, 60) |
| GpuRenderer.Mod1000 | src/app/gpu_renderer.py:1134 | Python's float remainder by 1000 lies in [0, 1000) |
| GpuRenderer.TimerFieldsSpec | src/app/gpu_renderer.py:1129-1134 | the timer's seconds lie in 0..59 and milliseconds in 0..999 for every time; the minutes are the whole minutes elapsed |
| GpuRenderer.AppendMissing | src/app/gpu_renderer.py:1244-1246 | the result extends the given list |
| GpuRenderer.AppendMissingSpec | src/app/gpu_renderer.py:1244-1246 | the result holds exactly the ids of the list and of the candidates, and adds no duplicate |
| GpuRenderer.DisplayOrderSpec | src/app/gpu_renderer.py:1236-1249 | the HUD shows exactly the selected cars, each once when the saved order and the selection have no repeats |
| GpuRenderer.PositionOf | src/app/gpu_renderer.py:1711 | the index of the first occurrence |
| GpuRenderer.ReorderSpec | src/app/gpu_renderer.py:1707-1713 | reordering is a permutation that puts the dragged car at the drop index and keeps the other cars in their relative order |
| GpuRenderer.JoinSplit | src/app/gpu_renderer.py:1650-1652 | joining what was split on a separator restores the text |
| GpuRenderer.ToggleKeyRoundTrip | src/app/gpu_renderer.py:1650-1652 | a toggle name without '_' and any car id, underscores included, are recovered from their key |
| GpuRenderer.Renderer.constructor | src/app/gpu_renderer.py:15-60 | zoom 1, no pan, nothing drawn, no drag, empty HUD state and selection |
| GpuRenderer.Renderer.ResetView | src/app/gpu_renderer.py:1540-1545 | zoom 1, no pan and the track marked for redrawing |
| GpuRenderer.Renderer.OnMouseWheel | src/app/gpu_renderer.py:1547-1579 | outside the canvas nothing changes; inside, zoom by 1.1 on wheel up and 0.9 otherwise, clamped to [0.5, 10], and redraw |
| GpuRenderer.Renderer.DisplayCars | src/app/gpu_renderer.py:1236-1249 | the panels to draw in display order, saving the selection as the order when none is saved |
| GpuRenderer.Renderer.ToggleCollapse | src/app/gpu_renderer.py:1624-1631 | flips that panel's collapse flag, expanded by default |
| GpuRenderer.Renderer.StartDrag | src/app/gpu_renderer.py:1633-1642 | starts dragging that panel from the click's height |
| GpuRenderer.Renderer.ToggleHudItem | src/app/gpu_renderer.py:1644-1660 | parses the key back into item and car and flips the item's visibility (shown by default) for a car with a visibility table; otherwise nothing changes |
| GpuRenderer.Renderer.EndDrag | src/app/gpu_renderer.py:1695-1717 | a dragged car still in the order moves to the drop index, and the drag ends either way |
| GpuRenderer.Renderer.ClickCar | src/app/gpu_renderer.py:1662-1673 | a click on a car removes its first occurrence from the selection, or appends it |
| GpuRenderer.Renderer.AddBoxSelection | src/app/gpu_renderer.py:1736-1741 | every boxed car not yet selected is appended, in box order |
| InterpolateTrajectories.SortedDistinct | src/processing/interpolate_trajectories.py:16-17 | the timestamps without duplicates, strictly ascending, holding exactly the input's values |
| InterpolateTrajectories.GridLength | src/processing/interpolate_trajectories.py:25 | the grid has the fewest multiples of dt that reach the last time |
| InterpolateTrajectories.Grid | src/processing/interpolate_trajectories.py:25 | point k of the grid is k times dt |
| InterpolateTrajectories.GridCoversRange | src/processing/interpolate_trajectories.py:24-25 | every grid point lies in [0, last time), consecutive points are dt apart, and no multiple of dt below the last time is left out |
| InterpolateTrajectories.ResetIndicesSpec | src/processing/interpolate_trajectories.py:44-49 | the reset list holds exactly the samples that drop by more than 100 m to below 500 m, ascending, each in 1..n-1 |
| InterpolateTrajectories.BoundariesIncreasing | src/processing/interpolate_trajectories.py:52 | the lap boundaries are strictly increasing, from 0 to n |
| InterpolateTrajectories.DetectResets | src/processing/interpolate_trajectories.py:44-49 | the detection loop returns exactly the resets, ascending |
| InterpolateTrajectories.RepairedMonotoneBounded | src/processing/interpolate_trajectories.py:57-71 | inside each lap segment the repaired lap distance never decreases and rises by at most 120 m/s times dt per sample |
| InterpolateTrajectories.RepairedKeepsStarts | src/processing/interpolate_trajectories.py:57-62 | the first sample of each segment is never modified |
| InterpolateTrajectories.RepairedFixesWithin | src/processing/interpolate_trajectories.py:57-71 | lap distance already within the bounds is left unchanged |
| InterpolateTrajectories.RepairIdempotent | src/processing/interpolate_trajectories.py:57-71 | repairing twice with the same boundaries changes nothing more |
| InterpolateTrajectories.RepairSegment | src/processing/interpolate_trajectories.py:62-71 | the inner loop repairs one segment in place and leaves the rest of the array alone |
| InterpolateTrajectories.RepairLapDist | src/processing/interpolate_trajectories.py:40-71 | resets are detected on the unrepaired values, then every segment is repaired in place to the specified repaired lap distance |
| InterpolateTrajectories.NormaliseLapsSpec | src/processing/interpolate_trajectories.py:105-108 | laps starting above 1 are shifted to start at 1, keeping every difference between laps; laps starting at or below 1 are untouched |
| InterpolateTrajectories.AccelNorm | src/processing/interpolate_trajectories.py:130-133 | the normalised acceleration lies in [0, 1], is 1 exactly from 12 m/s^2 and 0 exactly for a magnitude of 0 |
| InterpolateTrajectories.InterpolateTrajectory | src/processing/interpolate_trajectories.py:8-140 | no result exactly when fewer than two distinct timestamps or grid points exist; otherwise the grid, the repaired lap distance, the renumbered laps (all 1 with no lap column) and the normalised acceleration at every grid point |
| InterpolateTrajectories.ResetsBelowSpec | src/processing/interpolate_trajectories.py:44-49 | the resets are exactly the samples where lap distance drops by more than 100 m to below 500 m, ascending |
| InterpolateTrajectories.NormaliseLaps | src/processing/interpolate_trajectories.py:105-108 | one lap number per sample |
| InterpolateTrajectories.RepairedAt | src/processing/interpolate_trajectories.py:57-71 | a segment start keeps its value; every other sample is the repair step from the previous repaired value |
| LoadRawData.VehicleIds | src/processing/load_raw_data.py:31-33 | the distinct vehicle ids of the table, each once, ascending |
| LoadRawData.OfVehicle | src/processing/load_raw_data.py:39 | exactly the events of that vehicle |
| LoadRawData.Named | src/processing/load_raw_data.py:45-59 | exactly the events of that channel |
| LoadRawData.FirstWithEventsSpec | src/processing/load_raw_data.py:67-126 | the chosen alias is the first in list order that has events, and none is chosen when no alias has any |
| LoadRawData.FindChannel | src/processing/load_raw_data.py:93-100 | the alias loop with its early break chooses the first alias that has events |
| LoadRawData.ResolveBrakes | src/processing/load_raw_data.py:62-91 | front and rear each take their own first alias; only when neither is found does the generic brake channel serve both |
| LoadRawData.Bucketed | src/processing/load_raw_data.py:128-163 | one bucketed sample per event |
| LoadRawData.Lookup | src/processing/load_raw_data.py:168 | a value exactly for the times present |
| LoadRawData.DropDuplicateTimes | src/processing/load_raw_data.py:161-168 | deduplication keeps one sample per timestamp, the first one, and loses no timestamp |
| LoadRawData.GroupMedianSpec | src/processing/load_raw_data.py:131-144 | the grouped series has strictly increasing timestamps, exactly the buckets of its input, each with the median of its bucket |
| LoadRawData.Join | src/processing/load_raw_data.py:170-221 | the inner join keeps exactly the timestamps present in every required channel, ascending, each row carrying the joined values, with absent optional values 0 |
| LoadRawData.NormaliseColumn | src/processing/load_raw_data.py:236-243 | brake normalisation keeps the column's length |
| LoadRawData.NormaliseColumnPeak | src/processing/load_raw_data.py:236-243 | a brake column with a positive maximum ends with maximum exactly 1 |
| LoadRawData.NormalisedAt | src/processing/load_raw_data.py:236-243 | each value is divided by the column's maximum |
| LoadRawData.NormaliseColumnMonotone | src/processing/load_raw_data.py:236-243 | normalising keeps the order of the values |
| LoadRawData.NormaliseColumnIdle | src/processing/load_raw_data.py:236-243 | a column with no positive value is left as it is |
| LoadRawData.SelectChannels | src/processing/load_raw_data.py:44-126 | the channel lookups, alias loops included, select the specified channels |
| LoadRawData.WithNormalisedBrakes | src/processing/load_raw_data.py:236-243 | only the brake columns change, each to its normalised version |
| LoadRawData.ExtractSignals | src/processing/load_raw_data.py:36-245 | no rows for a vehicle without events; otherwise one row per bucket present in every required channel, ascending, with the joined values and each brake column normalised by its own maximum |
| SectionCompareProcessing.ValidPositions | src/processing/section_compare_processing.py:305-309 | the ascending positions of exactly the valid laps of the car |
| SectionCompareProcessing.ValidCarSpec | src/processing/section_compare_processing.py:305-319 | a car is valid exactly when three different rows hold valid laps of it (not lap 1, at least 50 GPS fixes, over 40 s) |
| SectionCompareProcessing.InsertDedup | src/processing/section_compare_processing.py:343-344 | inserting keeps the times strictly increasing, adds the row's time, and brings in no row but the inserted one |
| SectionCompareProcessing.SortDedup | src/processing/section_compare_processing.py:343-344 | sorted with strictly increasing times, the same set of timestamps, and only input rows |
| SectionCompareProcessing.SortDedupKeepsFirst | src/processing/section_compare_processing.py:343-344 | in the model, the first row in input order with a given timestamp survives the deduplication (pandas may keep any of the tied rows; see Left out) |
| SectionCompareProcessing.CleanLap | src/processing/section_compare_processing.py:335-346 | a clean lap holds only clean rows of that vehicle and lap, with strictly increasing times |
| SectionCompareProcessing.RefEntry | src/processing/section_compare_processing.py:363-374 | no reference exactly for an empty table; otherwise one of the laps |
| SectionCompareProcessing.RefEntrySpec | src/processing/section_compare_processing.py:363-374 | the configured lap when exactly one lap matches it, otherwise the first lap; a one-lap table uses its lap |
| SectionCompareProcessing.RunningSumSpec | src/processing/section_compare_processing.py:161 | entry k of the running sum is the sum of the first k + 1 values |
| SectionCompareProcessing.RunningSumMonotone | src/processing/section_compare_processing.py:158-161 | running sums of non-negative steps whose first step is 0 start at 0, never decrease and end at the total |
| SectionCompareProcessing.StepLengthsNonNegative | src/processing/section_compare_processing.py:158-160 | with a square root that is 0 at 0 and never negative, the first step is 0 and no step is negative |
| SectionCompareProcessing.DistAlongLapSpec | src/processing/section_compare_processing.py:152-167 | distance along the lap starts at 0, never decreases and ends at the lap's length |
| SectionCompareProcessing.EnuStep | src/processing/section_compare_processing.py:381-386 | a lap contributes nothing when its projection fails or leaves fewer than two rows, and otherwise itself with its distance column |
| SectionCompareProcessing.EnuLaps | src/processing/section_compare_processing.py:379-390 | every projected lap has at least two rows and a distance per row |
| SectionCompareProcessing.ApplyEnuConversion | src/processing/section_compare_processing.py:353-390 | an error exactly for an empty table (no first lap); otherwise every lap projected about the reference lap's origin, as specified |
| SectionCompareProcessing.ProjectAll | src/processing/section_compare_processing.py:379-388 | the projection loop returns the specified projected laps |
| SectionCompareProcessing.EnuLapsKeys | src/processing/section_compare_processing.py:379-390 | every projected lap comes from an input lap |
| SectionCompareProcessing.DistinctGuardRedundant | src/processing/section_compare_processing.py:409-417 | for a distance column that starts at 0 and ends positive the distinct-distances guard never skips a lap |
| SectionCompareProcessing.RepairedDtSpec | src/processing/section_compare_processing.py:190-194 | with a positive median every repaired time step is positive; steps of at least 5 ms are kept and the others become the median |
| SectionCompareProcessing.MedianOfPositiveSteps | src/processing/section_compare_processing.py:185-190 | the median of the positive steps is positive |
| SectionCompareProcessing.RepairDt | src/processing/section_compare_processing.py:193-194 | the in-place patch gives the repaired steps |
| SectionCompareProcessing.Clip | src/processing/section_compare_processing.py:200 | clipped values lie in the range, and values already inside are kept |
| SectionCompareProcessing.SpeedProfileSpec | src/processing/section_compare_processing.py:169-203 | every speed lies in [0, 90] m/s; fewer than three samples, constant time or no forward step give all zeros |
| SectionCompareProcessing.MaxCurv | src/processing/section_compare_processing.py:631 | the curvature scale is positive and, when some curvature is positive, bounds every curvature |
| SectionCompareProcessing.IdealSpeed | src/processing/section_compare_processing.py:631-636 | every ideal speed is at least 15 m/s |
| SectionCompareProcessing.RawIdealRange | src/processing/section_compare_processing.py:632-635 | the scaled speed lies between 45 % and 100 % of the reference, is the reference on a straight and 45 % of it at the tightest point |
| SectionCompareProcessing.IdealSpeedSpec | src/processing/section_compare_processing.py:631-636 | each ideal speed lies between the floored 45 % and the floored full reference speed, with both ends reached |
| SectionCompareProcessing.IdealTimeSpec | src/processing/section_compare_processing.py:640-647 | the ideal time starts at 0, never decreases, and the ideal lap time is the sum of distance step over ideal speed |
| SectionCompareProcessing.SectorIndices | src/processing/section_compare_processing.py:659-662 | the ascending indices of exactly the samples in the sector, the last sector closed at its end |
| SectionCompareProcessing.SectorTimeNonNegative | src/processing/section_compare_processing.py:664-669 | with non-decreasing ideal times no sector time is negative |
| SectionCompareProcessing.ComputeSectors | src/processing/section_compare_processing.py:650-676 | the sector loop returns n sectors, sector i as specified |
| SectionCompareProcessing.SectorsPartition | src/processing/section_compare_processing.py:650-676 | sectors are numbered 1..n, consecutive sectors share an edge, the first starts at 0 and the last ends at the track length, and no sector time is negative |
| SectionCompareProcessing.CarMedianLinesSpec | src/processing/section_compare_processing.py:441-464 | a car gets a median line exactly when it has three resampled laps; each line is the median of that car's laps, in ascending id order |
| SectionCompareProcessing.FilterOutlierCars | src/processing/section_compare_processing.py:467-504 | keeps exactly the lines of cars whose median lap time is within 2.5 deviations of the mean |
| SectionCompareProcessing.FilterOutlierCarsSpec | src/processing/section_compare_processing.py:467-504 | the kept lines are an ordered subset, and a missing or zero deviation keeps nothing |
| SectionCompareProcessing.FastestLap | src/processing/section_compare_processing.py:860-862 | the fastest lap is a valid lap of the car |
| SectionCompareProcessing.FastestLapSpec | src/processing/section_compare_processing.py:860-862 | no fastest lap exactly when the car has no valid lap; otherwise it is no slower than any valid lap and strictly faster than every earlier one |
| SectionCompareProcessing.StepLengths | src/processing/section_compare_processing.py:158-160 | one step length per sample |
| SectionCompareProcessing.RunningSum | src/processing/section_compare_processing.py:161 | one running sum per value |
| SectionCompareProcessing.DistAlongLap | src/processing/section_compare_processing.py:152-167 | one distance per sample |
| SectionCompareProcessing.MedianLinesFor | src/processing/section_compare_processing.py:441-464 | every median line belongs to one of the given cars |
| SectionCompareProcessing.MedianLinesForSorted | src/processing/section_compare_processing.py:441-464 | ascending car ids give median lines in ascending id order |
| SectionCompareProcessing.MedianLinesForSound | src/processing/section_compare_processing.py:441-464 | every median line is the median of its own car's laps, of which there are at least three |
| SectionCompareProcessing.MedianLinesForComplete | src/processing/section_compare_processing.py:441-464 | every given car with at least three laps gets a median line |
| MessageOverlay.FadeAlpha | src/app/message_overlay.py:78-87 | the alpha lies in [0, 255]; it is 255 exactly when at least half a second remains, and otherwise the truncation of 255 times the remaining fraction of the fade |
| MessageOverlay.FadeAlphaMonotone | src/app/message_overlay.py:78-87 | less time remaining never gives a more opaque message |
| MessageOverlay.Overlay.constructor | src/app/message_overlay.py:7-11 | an empty queue, nothing active and no canvas |
| MessageOverlay.Overlay.Init | src/app/message_overlay.py:14-21 | records the canvas and changes nothing else |
| MessageOverlay.Overlay.ShowMessage | src/app/message_overlay.py:24-34 | the message joins the back of the queue; the messages activated so far followed by the queue stay the posted messages in order |
| MessageOverlay.Overlay.ActivateNext | src/app/message_overlay.py:37-44 | the front of the queue becomes active until now plus its duration; an empty queue changes nothing |
| MessageOverlay.Overlay.RenderOverlay | src/app/message_overlay.py:47-88 | no canvas changes nothing; an unexpired message is drawn with the fade alpha and nothing changes; an expired message is dropped and the next one activated, with nothing drawn; an idle overlay first activates the next message |
| MessageOverlay.Overlay.ClearAll | src/app/message_overlay.py:156-165 | nothing queued and nothing active afterwards |
| LapDeltaRenderer.Intensity | src/rendering/lap_delta_renderer.py:94-100 | the colour intensity lies in [0, 1] |
| LapDeltaRenderer.DeltaToColorSpec | src/rendering/lap_delta_renderer.py:78-106 | faster by more than 0.05 s is green, slower by more than 0.05 s red, each channel in [100, 255] and full exactly from half a second on; in between is gray (150, 150, 150, 200) |
| LapDeltaRenderer.DeltaToColorSymmetric | src/rendering/lap_delta_renderer.py:92-102 | gaining and losing the same time give the same shade of green and of red |
| LapDeltaRenderer.DeltaToColorMonotone | src/rendering/lap_delta_renderer.py:98-102 | a larger loss is never a paler red |
| LapDeltaRenderer.FadeAlphaSpec | src/rendering/lap_delta_renderer.py:60-63 | the oldest segment has alpha 100, alphas never decrease along the trail, and no segment reaches 255 |
| LapDeltaRenderer.WorldToScreenSpec | src/rendering/lap_delta_renderer.py:108-129 | without camera parameters the world origin maps to the centre of an 800 by 600 viewport, and a non-zero zoom can be undone |
| LapDeltaRenderer.Segments | src/rendering/lap_delta_renderer.py:44-49 | no segments for fewer than two points, otherwise one fewer than the points |
| LapDeltaRenderer.SegmentsSpec | src/rendering/lap_delta_renderer.py:49-67 | the drawn segments form one connected path from the first to the last trail point, and with fading on their alphas rise from 100 and stay below 255 |
| Transitions.Progress | src/app/transitions.py:98-99 | progress never exceeds 1, is not negative once the transition has started, and is 1 exactly when the elapsed milliseconds reach the duration |
| Transitions.FadeAlpha | src/app/transitions.py:101-111 | for progress in [0, 1] the overlay alpha lies in [0, 255] |
| Transitions.FadeAlphaSpec | src/app/transitions.py:101-111 | the two fades mirror each other: their alphas add up to 254 or 255; a fade-out goes from clear to opaque and a fade-in from opaque to clear |
| Transitions.Kept | src/app/transitions.py:113-126 | the transitions left after a sweep are no more than before, all still running |
| Transitions.SpawnedAll | src/app/transitions.py:84-91 | every transition queued during a sweep is the fade-in half of a crossfade, started now |
| Transitions.SweepSplits | src/app/transitions.py:97-126 | a transition that has not completed stays queued and fires nothing; one that completed leaves the queue, firing its callbacks exactly once |
| Transitions.KeptAreRunning | src/app/transitions.py:113-126 | the transitions left are exactly the queued ones that have not completed |
| Transitions.Sweep | src/app/transitions.py:95-117 | the loop over the queue returns the grown queue, the transitions kept, the callbacks fired and the last alpha set, each as specified |
| Transitions.TransitionManager.constructor | src/app/transitions.py:10-13 | nothing queued, no overlay, nothing fired |
| Transitions.TransitionManager.CreateFadeOverlay | src/app/transitions.py:15-33 | the overlay is created once, with a clear rectangle; a second call changes nothing |
| Transitions.TransitionManager.StartFadeOut | src/app/transitions.py:35-53 | the fade-out joins the back of the queue and nothing else changes |
| Transitions.TransitionManager.StartFadeIn | src/app/transitions.py:55-73 | the fade-in joins the back of the queue and an existing overlay becomes opaque |
| Transitions.TransitionManager.Crossfade | src/app/transitions.py:75-91 | queues a fade-out of half the duration whose completion calls the midpoint callback and queues a fade-in of the other half with the completion callback |
| Transitions.StartFadeIns | src/app/transitions.py:97-111 | the same loop reaching the fade-ins appended during the sweep: each starts at progress 0, so the overlay alpha becomes 255 when there is one, and all of them stay queued |
| Transitions.TransitionManager.Update | src/app/transitions.py:93-126 | completed transitions fire their callbacks once, in queue order, and leave the queue; running ones stay, followed by the fade-ins completed crossfades queued; the overlay alpha is the last one set |
| Transitions.TransitionManager.IsTransitioning | src/app/transitions.py:128-130 | true exactly when a transition is queued |
| Transitions.FadeStep | src/app/transitions.py:155-161 | one frame moves toward the target by the fade speed without passing it: the distance left is the old distance less the speed, or 0 |
| Transitions.FadeReachesTarget | src/app/transitions.py:155-180 | with a positive speed the element reaches its target after enough frames, however far it started |
| Transitions.FadingElement.constructor | src/app/transitions.py:136-140 | starts at its initial alpha, with that as target and speed 5 |
| Transitions.FadingElement.FadeTo | src/app/transitions.py:142-145 | the target clamped into [0, 255] and the new speed; the current alpha is kept |
| Transitions.FadingElement.Show | src/app/transitions.py:147-149 | fades toward opaque at the given speed |
| Transitions.FadingElement.Hide | src/app/transitions.py:151-153 | fades toward clear at the given speed |
| Transitions.FadingElement.Update | src/app/transitions.py:155-180 | one fade step, reporting exactly whether the target is reached |
| Transitions.ProgressAsWrittenStuck | src/app/transitions.py:198-207 | as written, a gap of exactly the tolerance never moves and never reports done |
| Transitions.ProgressStep | src/app/transitions.py:198-207 | corrected: reports done exactly when the gap after the frame is within the tolerance, and moves only when the gap exceeded it |
| Transitions.ProgressStepSpec | src/app/transitions.py:198-207 | every corrected frame either reports done or closes 5 % of the gap without overshooting |
| Transitions.AnimatedProgress.constructor | src/app/transitions.py:186-190 | current and target progress start at 0 |
| Transitions.AnimatedProgress.SetProgress | src/app/transitions.py:192-196 | the target clamped into [0, 1]; an instant set jumps to it |
| Transitions.AnimatedProgress.Update | src/app/transitions.py:198-207 | one corrected progress step |
| TimeAlignment.ResetsBelowSpec | src/processing/time_alignment.py:17-20 | the collected resets are exactly the rows whose lap distance dropped by more than 1000 against the previous row, in increasing row order |
| TimeAlignment.ResetsAreRowIndices | src/processing/time_alignment.py:17-20 | every reset indexes a row of the table |
| TimeAlignment.DetectRaceStart | src/processing/time_alignment.py:7-62 | the detection loops return the specified race start |
| TimeAlignment.CollectResets | src/processing/time_alignment.py:17-20 | the pass over consecutive rows collects exactly the specified resets |
| TimeAlignment.CollectWindowStarts | src/processing/time_alignment.py:30-45 | the pass over all rows collects exactly the timestamps of the qualifying window starts, in row order |
| TimeAlignment.OpensWindow | src/processing/time_alignment.py:37-44 | a row opens a qualifying window exactly when its 3 s window is non-empty and every row in it is moving |
| TimeAlignment.ScanAfterWindow | src/processing/time_alignment.py:48-54 | the nested early-exit scan returns the first reset at or after some window start, and nothing when there is none |
| TimeAlignment.AtOrAfterSome | src/processing/time_alignment.py:52-54 | the inner scan succeeds exactly when the reset time is at or after some window start |
| TimeAlignment.ScanMoving | src/processing/time_alignment.py:57-59 | the fallback scan returns the first moving reset, and nothing when there is none |
| TimeAlignment.WindowNeverEmpty | src/processing/time_alignment.py:36-44 | every row lies in the window it opens, so the non-empty-window test never fails |
| TimeAlignment.FirstAfterWindowSpec | src/processing/time_alignment.py:47-54 | the result is the time of the first reset, in order, at or after some qualifying window start, and none when no reset is |
| TimeAlignment.FirstMovingResetSpec | src/processing/time_alignment.py:56-59 | the result is the time of the first reset at which the car is moving faster than 20, and none when there is no such reset |
| TimeAlignment.RaceStartIsInputTimestamp | src/processing/time_alignment.py:7-62 | no start only for an empty table; otherwise the start is a timestamp of the table |
| TimeAlignment.RaceStartIsReset | src/processing/time_alignment.py:47-62 | with at least one reset the start is the time of a reset |
| TimeAlignment.AlignTimeSpec | src/processing/time_alignment.py:65-86 | the kept rows are exactly the input rows at or after the start, each with a non-negative relative time equal to its offset from the start in seconds |
| TimeAlignment.AlignTimeIsFilter | src/processing/time_alignment.py:84-86 | the result is the rows at or after the start, each kept once and in order, with their relative times |
| TimeAlignment.AlignTimeKeepsOrder | src/processing/time_alignment.py:84 | rows with strictly increasing timestamps stay in strictly increasing order after the filter |
| TrailGeneration.MissingColumns | src/processing/trail_generation.py:154-155 | the missing columns are exactly the required columns absent from the file |
| TrailGeneration.InsertByTime | src/processing/trail_generation.py:176 | inserting into time-sorted rows keeps them sorted and adds exactly the inserted row |
| TrailGeneration.SortByTime | src/processing/trail_generation.py:176 | the rows sorted by time, a permutation of the input |
| TrailGeneration.ProjectRow | src/processing/trail_generation.py:179-180 | the canonical index is a nearest canonical point to the row |
| TrailGeneration.ProjectRowSpec | src/processing/trail_generation.py:182-190 | each projected row carries the canonical distance and both speed profiles at its index, and its speed deltas against them |
| TrailGeneration.ProjectLap | src/processing/trail_generation.py:122-192 | an error exactly when a required column is missing or no row has a timestamp; otherwise the projections of the timed rows, each row projected once, in time order |
| TrailGeneration.ProjectTimed | src/processing/trail_generation.py:176-190 | the projections of the timed rows, rearranged into time order |
| TrailGeneration.SortedProjections | src/processing/trail_generation.py:176-190 | sorting before projecting only rearranges the projections |
| TrailGeneration.InsertedProjections | src/processing/trail_generation.py:176 | inserting a row adds exactly its projection |
| TrailGeneration.WithRelTime | src/processing/trail_generation.py:232-233 | one relative time per row |
| TrailGeneration.WithRelTimeSpec | src/processing/trail_generation.py:232-236 | on time-sorted rows relative time is 0 at the first row, never negative, never decreasing, and greatest at the last row |
| TrailGeneration.WindowIsSuffix | src/processing/trail_generation.py:240-241 | a threshold on a non-decreasing relative time keeps a suffix of the rows |
| TrailGeneration.WindowSuffix | src/processing/trail_generation.py:236-241 | the window of the last trail seconds is a non-empty suffix |
| TrailGeneration.WindowSpan | src/processing/trail_generation.py:240-241 | no two rows of the window are more than the trail length apart |
| TrailGeneration.TrailWindowSpec | src/processing/trail_generation.py:231-246 | on a sorted lap the trail is the window itself, a non-empty suffix ending at the last row; the 50-row fallback never applies |
| TrailGeneration.BuildTrail | src/processing/trail_generation.py:231-261 | an error exactly for a non-positive lap duration or an unknown comparison; otherwise the trail rows, each coloured by 3.6 times the chosen speed delta |
| TrailGeneration.SafeId | src/processing/trail_generation.py:302 | the same length as the id, with no slash or backslash |
| TrailGeneration.TrailFileName | src/processing/trail_generation.py:303 | the trail file name starts with "trail_" and is built from the safe id, the trail length and the comparison |
| TrailGeneration.DetectedIdRoundTrip | src/processing/trail_generation.py:366-370 | the id read back from a fastest-lap file name is the id it was written for, when that id does not contain "_lap" |
| TrailGeneration.DetectVehicleIds | src/processing/trail_generation.py:359-374 | the detected ids are sorted without repeats, and are exactly the ids read from the file names |
| TrailGeneration.DetectVehicleIdsRoundTrip | src/processing/trail_generation.py:359-374 | file names written for ids without "_lap" give back exactly those ids |
| TrailGeneration.PickFastestLapPath | src/processing/trail_generation.py:105-119 | an error exactly when nothing matches; otherwise the smallest match |
| TrailGeneration.Records | src/processing/trail_generation.py:378-395 | no more records than vehicles |
| TrailGeneration.GenerateAllTrails | src/processing/trail_generation.py:377-395 | the loop over the vehicles returns the specified records |
| TrailGeneration.RecordsSpec | src/processing/trail_generation.py:377-395 | one record per vehicle whose trail was built, in vehicle order, each with that build's path and row count; every vehicle whose build succeeded has a record |
| SymbolAnimation.PhaseRangesContiguous | src/app/symbol_animation.py:88-96 | the phase ranges start at 0, each ends where the next starts, the reveal ends at 1, and COMPLETE's range is empty |
| SymbolAnimation.PhaseRangesPartition | src/app/symbol_animation.py:88-96 | every progress in [0, 1) lies in exactly one phase range, and no other progress lies in any |
| SymbolAnimation.LookupPhase | src/app/symbol_animation.py:182-187 | the loop over the table finds the phase whose range holds the progress, and finds none exactly when no range holds it |
| SymbolAnimation.SmoothStepSpec | src/app/symbol_animation.py:270-271 | the smooth step fixes 0, 1/2 and 1 and keeps [0, 1] inside [0, 1] |
| SymbolAnimation.ShadeBounds | src/app/symbol_animation.py:218-221 | a colour channel scaled by a brightness in [0, 1] stays within [0, channel] |
| SymbolAnimation.PhysicsStep | src/app/symbol_animation.py:411-453 | a settled symbol and the piles are untouched; any other symbol ends the frame between the side walls |
| SymbolAnimation.PhysicsAll | src/app/symbol_animation.py:413 | one symbol out per symbol in |
| SymbolAnimation.PhysicsAllSpec | src/app/symbol_animation.py:411-453 | after a physics frame settled symbols are untouched and every other symbol is between the walls |
| SymbolAnimation.RevealFactor | src/app/symbol_animation.py:458-464 | the eased reveal factor lies in [0, 1] |
| SymbolAnimation.RevealStepToward | src/app/symbol_animation.py:466-469 | with a step fraction in [0, 1] a revealing symbol lands between where it was and its picture position |
| SymbolAnimation.ToLogoFixesFinal | src/app/symbol_animation.py:311-327 | a symbol on its picture position stays there while the logo forms |
| SymbolAnimation.MapSymbols | src/app/symbol_animation.py:363-365 | the step applied to each symbol, in order |
| SymbolAnimation.KeepOnScreen | src/app/symbol_animation.py:247-248 | exactly the symbols still near the screen are kept, in order |
| SymbolAnimation.SymbolAnimator.constructor | src/app/symbol_animation.py:61-106 | no symbols, first fill phase, progress and clocks at 0, cap 800, no piles, no picture, forming |
| SymbolAnimation.SymbolAnimator.SetPortrait | src/app/symbol_animation.py:108-175 | the picture points are stored and cap the symbol count |
| SymbolAnimation.SymbolAnimator.SetProgress | src/app/symbol_animation.py:177-190 | progress clamped into [0, 1]; the phase is the one whose range holds it, or COMPLETE at 1; the change hook runs exactly when a range is found and its phase differs |
| SymbolAnimation.SymbolAnimator.OnPhaseChange | src/app/symbol_animation.py:192-221 | a drain unsettles every symbol in place and clears the piles; the reveal gives each symbol with a picture point that point, its character and its shade; other phases change nothing |
| SymbolAnimation.SymbolAnimator.Update | src/app/symbol_animation.py:223-248 | the clock advances; COMPLETE changes no symbol; after a drain frame every symbol is near the screen; the symbol cap holds |
| SymbolAnimation.SymbolAnimator.UpdatePhysics | src/app/symbol_animation.py:411-453 | the symbols and piles become the specified physics frame |
| SymbolAnimation.SymbolAnimator.SpawnSymbols | src/app/symbol_animation.py:369-409 | at the cap nothing spawns; otherwise the frame's count of new symbols is appended after the old ones, up to the cap, and the counter counts them |
| SymbolAnimation.SymbolAnimator.UpdateLogoCycle | src/app/symbol_animation.py:250-278 | the symbols are made from the picture on first use; with none nothing advances; otherwise the cycle clock runs and wraps to 0, switching between forming and dispersing, at the cycle duration |
| SymbolAnimation.SymbolAnimator.InitializeLogoSymbols | src/app/symbol_animation.py:280-309 | one black symbol per picture point, heading for that point, each counted |
| SymbolAnimation.SymbolAnimator.CompleteAnimation | src/app/symbol_animation.py:359-367 | in the logo cycle with symbols, every symbol snaps onto its picture point and the cycle rests at the end of a forming pass; otherwise nothing changes |
| SymbolAnimation.SymbolAnimator.Clear | src/app/symbol_animation.py:514-521 | no symbols, no piles, counter 0 |
| SymbolAnimation.SymbolAnimator.Reset | src/app/symbol_animation.py:523-528 | cleared, back at the first fill with progress and clock at 0 |
| TrainingDemo.SelectCarSpec | src/app/training_demo.py:182-196 | an index past the cars changes nothing; adding keeps the selection, includes the car and adds it only when absent; replacing leaves only the car; the selection stays free of repeats |
| TrainingDemo.PansAdd | src/app/training_demo.py:218-224 | a run of pans moves the view by their sum |
| TrainingDemo.DuePendingPartition | src/app/training_demo.py:80-91 | every scheduled action is either run or kept: the counts add up, the kept ones are exactly those not yet due, and every action run was scheduled and due |
| TrainingDemo.DelayedNotDue | src/app/training_demo.py:64-78 | an action scheduled with a positive delay is never due at the moment it is scheduled |
| TrainingDemo.ActionExecutor.constructor | src/app/training_demo.py:57-62 | nothing scheduled, nothing run, on the given view |
| TrainingDemo.ActionExecutor.ExecuteNow | src/app/training_demo.py:93-123 | the action's effect on the selection, playback and view (including the Play, Pause, Restart and Reset View buttons), recorded as run |
| TrainingDemo.ActionExecutor.Execute | src/app/training_demo.py:64-78 | a positive delay schedules the action for now plus the delay and changes nothing else; otherwise it runs at once |
| TrainingDemo.ActionExecutor.ExecuteAll | src/app/training_demo.py:426-428 | a step's actions: the undelayed ones run in order on the scene and are recorded, and the delayed ones are scheduled in order |
| TrainingDemo.ActionExecutor.Update | src/app/training_demo.py:80-91 | every due action runs on the scene and is recorded, in schedule order, and the rest stay scheduled in their order |
| TrainingDemo.EaseInOutQuadFixes | src/app/training_demo.py:297-302 | the easing fixes 0, 1/2 and 1, and its two halves meet at 1/2 |
| TrainingDemo.EaseInOutQuadInUnit | src/app/training_demo.py:297-302 | the easing maps [0, 1] into [0, 1] |
| TrainingDemo.EaseBetween | src/app/training_demo.py:289-293 | an eased camera value stays between its start and its target |
| TrainingDemo.CameraController.constructor | src/app/training_demo.py:230-240 | not animating, progress 0, duration 1, zoom 1 to 1 |
| TrainingDemo.CameraController.AnimateTo | src/app/training_demo.py:242-269 | no spec changes nothing; otherwise a move from the current view to the spec's zoom (or the current one), with the pan kept in place either way, over the spec's duration (2 s by default) |
| TrainingDemo.CameraController.Update | src/app/training_demo.py:271-295 | a running move advances by dt over the duration; at 1 the view lands exactly on the targets and the move stops; before that the view is the eased point between start and target (`NextView` of the old state) |
| TrainingDemo.DemoStateManager.constructor | src/app/training_demo.py:308-330 | stopped at step 0, no skip, no click scheduled, no messages |
| TrainingDemo.DemoStateManager.EndDemo | src/app/training_demo.py:444-450 | stopped, messages cleared, cursor hidden and completion recorded |
| TrainingDemo.StepMessage | src/app/training_demo.py:406-408 | a message is shown exactly when the step has a non-empty one, for the step's duration |
| TrainingDemo.DemoStateManager.BeginStep | src/app/training_demo.py:393-432 | past the last step the demo ends with the cursor hidden; otherwise the cursor's position and visibility are kept, the step's non-empty message is shown, the cursor glides to its target with a click 1.2 s later when asked, the actions run or are scheduled in order, and the camera move starts |
| TrainingDemo.DemoStateManager.ShowStep | src/app/training_demo.py:406-423 | the step's message is appended when it has a non-empty one; a resolved target starts a one-second glide there, with a click scheduled 1.2 s on when asked; a step with no target clears the scheduled click |
| TrainingDemo.DemoStateManager.StartDemo | src/app/training_demo.py:332-348 | at step 0 with the step clock at now and no skip; running exactly when the script has steps. A script without steps ends at once (completed, no messages, cursor hidden). Otherwise the cursor is shown at the viewport's centre, and step 0 begins: its message is shown, its actions run or are scheduled in order, the glide to its target starts from the centre with its click scheduled when asked, and its camera move starts |
| TrainingDemo.DemoStateManager.RequestSkip | src/app/training_demo.py:389-391 | a skip is pending and nothing else changes |
| TrainingDemo.DemoStateManager.AdvanceToNextStep | src/app/training_demo.py:434-442 | past the last step the demo stops, clears its messages and hides the cursor; otherwise the next step begins with its clock at now, its message appended and its actions run or scheduled |
| TrainingDemo.DemoStateManager.Tick | src/app/training_demo.py:366-377 | one frame of animation: the cursor and camera land on their next positions, every due action runs on the scene with the new view, and a due click fires and is unscheduled |
| TrainingDemo.DemoStateManager.Update | src/app/training_demo.py:350-387 | reports true exactly when running without a pending skip; a stopped demo changes nothing; a pending skip ends it; otherwise one frame runs, the step stays while its duration has not elapsed, and otherwise the next step begins with the due actions already run, or the demo ends after the last |
| WorldModelState.FirstAtLeast | src/app/world_model.py:522-527 | the first sample of the lap whose lapdist reaches the distance, or none when no sample does |
| WorldModelState.SectorPass | src/app/world_model.py:518-539 | one sector time, resolved or not, per sector |
| WorldModelState.Values | src/app/world_model.py:542-544 | the resolved times in order |
| WorldModelState.SectorPassTelescopes | src/app/world_model.py:519-544 | when every sector resolves the lap time is the time from the lap start to the end of the last sector, in 10 ms frames |
| WorldModelState.SectorPassNonNegative | src/app/world_model.py:519-539 | with non-decreasing sector end distances every resolved sector time is non-negative, the last resolved end lies within the lap, and every sample before it is short of the last sector's end distance |
| WorldModelState.Improve | src/app/world_model.py:535-537 | one best per slot |
| WorldModelState.ImproveSpec | src/app/world_model.py:535-537 | an improved best is never worse than before nor than any resolved time of the lap, and is one of the two |
| WorldModelState.CarTimesUpTo | src/app/world_model.py:501-505 | three best-sector slots |
| WorldModelState.SectorTableStep | src/app/world_model.py:514-545 | one lap adds its sector-table entry exactly when it has at least 10 samples and every sector resolves |
| WorldModelState.RecordedLaps | src/app/world_model.py:505-545 | the recorded laps are exactly the laps of at least 10 samples whose every sector resolves, each under its 1-based number with its own sector times |
| WorldModelState.LapTimesTelescope | src/app/world_model.py:542-545 | every recorded lap time is the time from some lap's start to the end of its last sector |
| WorldModelState.BestIsMinimal | src/app/world_model.py:505-537 | a car's best sector is never worse than any resolved time of that sector on any lap of at least 10 samples |
| WorldModelState.CurrentSector | src/app/world_model.py:549-564 | the current sector is between 1 and the number of sectors, and 1 without sectors |
| WorldModelState.CurrentSectorSpec | src/app/world_model.py:560-564 | a lapdist inside some sector's range is placed in the first such sector; outside every range the car is in the last sector |
| WorldModelState.MinBest | src/app/world_model.py:364-366 | one best per slot |
| WorldModelState.FleetBest | src/app/world_model.py:360-366 | three fleet-best slots |
| WorldModelState.FleetBestSpec | src/app/world_model.py:360-366 | each fleet-best sector is no worse than its starting value and any car's best, and is one of them |
| WorldModelState.CarDoneFrame | src/app/world_model.py:499-547 | whether a car's sector table, bests and lap times are recorded depends only on its own entries |
| WorldModelState.WorldState.constructor | src/app/world_model.py:51-124 | no cars, no sectors, no lap data, no times, infinite fleet bests, nothing selected |
| WorldModelState.WorldState.ComputeLapData | src/app/world_model.py:284-294 | the car's lap starts are recorded and nothing else changes |
| WorldModelState.WorldState.ComputeCarSectorTimes | src/app/world_model.py:491-547 | fewer than two lap starts change nothing; otherwise the lap loop's sector table, lap times and bests are recorded for the car only |
| WorldModelState.WorldState.ComputeOverallBest | src/app/world_model.py:360-366 | the fleet bests become the fold of every car's bests into them, and nothing else changes |
| WorldModelState.WorldState.ComputeEachCar | src/app/world_model.py:357-358 | every car with a complete lap ends with its own `car_sector_times`, bests and lap times recorded; every car outside the list, or with fewer than two lap starts, keeps all three entries |
| WorldModelState.WorldState.ComputeAllSectorTimes | src/app/world_model.py:352-366 | nothing without sector boundaries; otherwise every car with a complete lap has its sector table, lap times and bests recorded, every other car keeps its entries, and the fleet bests are the fold of every car's bests |
| WorldModelState.WorldState.ToggleCarSelection | src/app/world_model.py:1037-1042 | a selected car has its first occurrence removed; any other car is appended |
| WorldModelState.WorldState.SelectAll | src/app/world_model.py:1044-1046 | every car selected, in car order |
| WorldModelState.WorldState.SelectNone | src/app/world_model.py:1048-1050 | nothing selected |
| WorldModelState.LapStartsWellFormed | src/app/world_model.py:284-294 | lap starts index their own lapdist, in increasing order |
| WorldModelState.FoldLaps | src/app/world_model.py:505-545 | the lap loop returns the specified fold over the laps |
| WorldModelState.FirstIndex | src/app/world_model.py:1039-1040 | the position of the first occurrence, or the length when absent |
| WorldModelState.ToggleTwice | src/app/world_model.py:1037-1042 | toggling an unselected car twice restores the selection |
| WorldModel.Column | src/app/world_model.py:287 | column c of every row, one entry per row |
| WorldModel.LapStartsOf | src/app/world_model.py:284-294 | the lap starts begin with 0, strictly increase and index the samples |
| WorldModel.LapStartsSpec | src/app/world_model.py:289-292 | the lap starts are exactly 0 and the samples where lapdist drops by more than 100 m |
| WorldModel.IndexOf | src/app/world_model.py:796 | the position of the first occurrence of the value |
| WorldModel.LapNumber | src/app/world_model.py:790-797 | the loop returns the specified lap number |
| WorldModel.LapNumberLast | src/app/world_model.py:794-796 | the lap number is 1 plus the position of the last start at or before the sample, or 1 when no start is |
| WorldModel.LapNumberSpec | src/app/world_model.py:790-797 | on increasing starts from 0 the lap number n of a sample satisfies starts[n-1] <= sample < starts[n] |
| WorldModel.SearchSorted | src/app/world_model.py:673 | the first index whose distance reaches the query, or the length |
| WorldModel.IdealSpeedAt | src/app/world_model.py:658-679 | without a profile the ideal speed is 0; `IdealSpeedSpec` states the lookup on a profile |
| WorldModel.IdealSpeedSpec | src/app/world_model.py:658-679 | on an increasing profile the lookup gives the end speeds outside the profile, reproduces the profile at its knots, and between knots stays between the bracketing speeds |
| WorldModel.FractionBounds | src/app/world_model.py:678 | the interpolation fraction lies in (0, 1] |
| WorldModel.NearestOnLine | src/app/world_model.py:850-854 | the chosen racing-line point is a nearest one to the car |
| WorldModel.SignedSpec | src/app/world_model.py:864-882 | the signed deviation is 0 for a zero offset or a zero tangent, and otherwise the cross product of tangent and offset over the tangent length |
| WorldModel.DeviationFrom | src/app/world_model.py:846-888 | the ideal point is the nearest racing-line point |
| WorldModel.ComputeDeviation | src/app/world_model.py:803-888 | a missing reference line or a frame outside the trajectory gives zeros |
| WorldModel.IndividualIsRacingLine | src/app/world_model.py:825-837 | the "individual" reference is exactly the per-car racing line |
| WorldModel.FrameIndex | src/app/world_model.py:734-740 | the frame is int(time / 10) clamped into the trajectory |
| WorldModel.Positions | src/app/world_model.py:1004 | one position per sample |
| WorldModel.CarStateAt | src/app/world_model.py:732-788 | position at the clamped frame moved by the car's offset, speed and lapdist from that row; wide rows give the larger brake and the lap from column 10; without a per-car line the deviation is zero |
| WorldModel.InsertDesc | src/app/world_model.py:925-929 | inserting keeps the standings in descending order and adds exactly the inserted car |
| WorldModel.SortDesc | src/app/world_model.py:925-929 | the standings sorted in descending (lap, lapdist, id) order, a permutation of the input |
| WorldModel.GetRaceOrder | src/app/world_model.py:897-959 | one placing per car, and a leader exactly when there are cars |
| WorldModel.PlacingsSpec | src/app/world_model.py:931-951 | placing cars already in descending order keeps every car in its place, numbers positions from 1, marks the first car leader, and gives laps down relative to it, never negative, zero exactly on the lead lap |
| WorldModel.Placings | src/app/world_model.py:931-951 | one placing per car in the given order, keeping its lap, lapdist and id, with positions numbered from 1 and laps down never negative |
| WorldModel.RaceOrderSpec | src/app/world_model.py:917-959 | the placings are the input cars in descending (lap, lapdist, id) order with positions 1..n; the leader is first, no car is a negative number of laps down, and a car is on the lead lap exactly when 0 laps down |
| WorldModel.RaceOrderLeaderUnique | src/app/world_model.py:925-951 | with distinct ids exactly one car is the leader, and the order is strict |
| WorldModel.TraceRange | src/app/world_model.py:1004-1032 | the positions of the samples in a Python range, empty when it is empty |
| WorldModel.FadingTrail | src/app/world_model.py:1006-1018 | never longer than the trajectory, and empty for an empty trajectory |
| WorldModel.FadingTrailSpec | src/app/world_model.py:1006-1018 | within the recording the fading trail ends at the current sample and holds the last duration times 100 samples; before the recording it is empty |
| WorldModel.LastLapTrace | src/app/world_model.py:1020-1035 | the samples between the last two lap starts, or the full trace without a complete lap |
| WorldModel.TrailIdAsWritten | src/app/world_model.py:420-426 | as written: a name is read exactly when it starts with "trail_" and contains "_fastestlap_", and the id read follows "trail_" at the start of the name |
| WorldModel.TrailIdAsWrittenMisreads | src/app/world_model.py:420-426 | as written, the file of an id ending in "_fastestlap" is read back as a shorter id |
| WorldModel.NoMarkerAfter | src/app/world_model.py:420-426 | after the marker that ends the id, a suffix without the letter p holds no further marker |
| WorldModel.SuffixWithoutP | src/app/world_model.py:420-426 | the text after the marker has no p when the comparison name has none |
| WorldModel.TrailId | src/app/world_model.py:420-426 | corrected: a name is read exactly when it starts with "trail_" and contains "_fastestlap_", and the id read follows "trail_" at the start of the name |
| WorldModel.TrailIdRoundTrip | src/app/world_model.py:420-426 | corrected, the id read from a trail file name is the one it was written for, for comparison names without p |
| WorldModelQueries.CappedIndex | src/app/world_model.py:571-574 | for a time at or after the start the sample index is the one `get_car_state` uses, within the trajectory |
| WorldModelQueries.CurrentLapStart | src/app/world_model.py:604-610 | the loop returns the specified start of the current lap |
| WorldModelQueries.LapStartFromSpec | src/app/world_model.py:604-610 | on ascending starts the loop finds the last start at or before the sample, or keeps 0 when the first start is after it |
| WorldModelQueries.CurrentLapStartIsLapNumberStart | src/app/world_model.py:604-610 | the start found is the start of the lap `_get_lap_number` reports for the same sample |
| WorldModelQueries.CurrentLapTime | src/app/world_model.py:595-613 | the method returns the specified time into the lap, counting from sample 0 for a car without lap data |
| WorldModelQueries.CurrentLapTimeSpec | src/app/world_model.py:595-613 | the time into the lap is measured from the current lap's start, is never negative and stays below the length of that lap |
| WorldModelQueries.LastBelow | src/app/world_model.py:580-585 | the last sample at or before the current one short of the distance, with every later sample up to the current one past it; none when every sample is past it |
| WorldModelQueries.SearchEntry | src/app/world_model.py:580-587 | the backward loop returns the specified sector entry |
| WorldModelQueries.SectorTimeOf | src/app/world_model.py:566-587 | the time in the sector is never negative, and 0 without sectors |
| WorldModelQueries.CurrentSectorTime | src/app/world_model.py:566-587 | the method returns the specified time in the sector |
| WorldModelQueries.SectorTimeSpec | src/app/world_model.py:576-585 | a positive sector time of k hundredths means the car has been at or past the sector's start for exactly the last k samples |
| WorldModelQueries.BestLapTime | src/app/world_model.py:589-593 | infinite exactly when the car has no recorded lap, otherwise the smallest recorded lap time |
| WorldModelQueries.BestLapIsALap | src/app/world_model.py:589-593 | on the recorded times the best lap is the start-to-last-sector time of one of the car's laps |
| WorldModelQueries.LastLap | src/app/world_model.py:629-631 | the highest lap number in the table |
| WorldModelQueries.SectorDeltaOf | src/app/world_model.py:615-641 | zero gaps and no flags for a car without bests or recorded laps; a best flag only for a gap within a thousandth |
| WorldModelQueries.RecordedNotBelowBest | src/app/world_model.py:535-543 | every recorded sector time of a car is no better than that car's best for the sector |
| WorldModelQueries.PersonalGapNonNegative | src/app/world_model.py:624-636 | on the recorded times the gap of the last lap to the personal best is finite and never negative |
| WorldModelQueries.SumTimesSpec | src/app/world_model.py:653-654 | a sum of times is infinite exactly when one of them is, and non-negative for non-negative times |
| WorldModelQueries.Predicted | src/app/world_model.py:643-656 | the loop returns the specified prediction |
| WorldModelQueries.PredictedSpec | src/app/world_model.py:643-656 | the prediction is infinite exactly when a later sector has no best, equals the time into the lap in the last sector, and is never below it with non-negative bests |
| WorldModelQueries.ResetOffsets | src/app/world_model.py:994-997 | every listed car's offsets are zero with their length kept, and nothing else changes |
| WorldModelQueries.ResetDeviation | src/app/world_model.py:994-997 | the loop over the cars returns the specified offsets |
| WorldModelQueries.ResetRestoresRecordedPosition | src/app/world_model.py:742-743 | after a reset a listed car is drawn at its recorded position |

## Left out

- Drawing and widgets are not modelled. This covers every Dear PyGui call: canvas items, text, arcs, trails, hover labels, the colour-picker window and its `_update_*` helpers, `render` of the overlay, cursor and demo, and `draw` of the symbol animation.
- File and network I/O is not modelled:
  - CSV, JSON and `.npy` reads and writes;
  - `load_telemetry`;
  - the world model's trajectory, sector and trail loading (`load_trajectories`, `_load_sector_data`);
  - theme load and save, and colour-config `_load_config` and `save`;
  - the demo's `should_show_demo` and `mark_demo_completed` (the completed flag itself is modelled);
  - the section-compare `load_and_validate`, exports, plots and `run_section_compare_processing`;
  - trail `load_canonical_line` and file lookup.
  Only the file names these build and parse are modelled.
- Library numerics are given functions or parameters, not computations:
  - equirectangular `gps_to_xy`;
  - the WGS84 `llh_to_ecef`/`ecef_to_enu` conversions;
  - the k-d tree (replaced by "an index at minimal squared distance");
  - the canonical-line curvature (Savitzky–Golay);
  - Gaussian smoothing, medians, percentiles and `np.interp`/`interp1d` bodies;
  - the arctan2 heading;
  - square roots.
- The following world-model and renderer geometry is not modelled: the convex-hull track boundary (`_compute_track_boundary`), sector-line geometry (`get_sector_line_points`), `get_racing_line`, the renderer's `world_to_screen`, hit-testing (`get_car_at_position`, `get_cars_in_box`), and the screen-space drag and pan conversion in `on_mouse_drag` and `on_hud_drag`. They are floating-point geometry used only for drawing and picking.
- Renderer `reset` and `invalidate_track` only clear drawing caches, so they are not modelled.
- Randomness becomes inputs:
  - the symbol animation's spawn, drain and disperse velocities and its random portrait are the `Draws` record, and `load_portrait` becomes `SetPortrait` with the points given;
  - `_animate_from_logo` (random velocities and `sqrt`) is not modelled;
  - `set_driving_mode` is not modelled, because its offsets are random noise. Deviation offsets are a parameter of `WorldModel.CarStateAt`, and only `reset_deviation` is modelled.
- The following world-model queries are not modelled: `get_theme`/`toggle_theme`, `get_all_car_states`, `get_race_positions`, `get_delta_speed_trail`. They are lookups that return stored tables or call a modelled query once per car.
- The section-compare processing leaves out the following:
  - `SectionCompareStats` counters;
  - the pivot to wide format;
  - the canonical line and its curvature;
  - `compute_speed_profiles`, which writes the modelled speed and ideal-speed columns into each lap table;
  - `collect_car_laps_xy` and `car_median_df`, which are reshapes of modelled results;
  - `export_per_car`.
  The check that the ideal sector times add up to the ideal lap time is not proved: the source only logs it.
- `compute_racing_line` is a parameter of `GenerateAllTrajectories.GenerateAll`. It yields its points or the error it raises; the points themselves and their `.npy` file are not modelled.
- Trail generation leaves out `build_canonical_kdtree`, the plotting and the self-test.
- The training demo's `ui_click` drives the modelled scene only through its Play, Pause, Restart and Reset View buttons. The other widget actions (`enable_checkbox`, `set_dropdown`, `animate_slider`, `close_color_menu`, and `ui_click` on 'Visuals - Custom') change only widgets, so they have no effect on the modelled scene. `_resolve_cursor_target` becomes a target given with the step.
- TrainingDemo.DemoStateManager.BeginStep treats a step's camera entry as present or absent. Python also skips an empty camera dictionary, which the model reads as a move to the current zoom over 2 s.
- MessageOverlay.Overlay.RenderOverlay: one reading of the clock (`now`) serves the whole frame. The source reads `time.time()` in `_activate_next_message` for a new message's end time, and again for the frame's expiry test and fade, so the two readings can differ slightly.
- TrainingDemo.DemoStateManager.Update: one reading of the clock (`now`) serves the whole frame, where the source may read it more than once. A car index is a natural number.
- TrainingDemo.DemoStateManager.constructor requires every camera step of the script to have a non-zero duration (the `CamerasTimed` predicate, kept by `Valid`). With a zero duration the source divides by zero.
- TrainingDemo.CameraController.Update requires a non-zero duration while animating. The source divides by it.
- DemoCursor.Cursor.Update requires a non-zero move duration while a move is in progress. The source divides by it.
- Transitions.Progress requires a positive duration. The source divides by it, so a zero duration raises there. A negative duration is accepted by the source: its progress is negative once time has passed, so such a transition never completes. The model does not cover that case.
- WorldModelState.WorldState.ComputeCarSectorTimes keeps at most three sectors (`Valid`). The source stores best sectors in three slots and raises IndexError on a fourth sector.
- WorldModelQueries.SectorTimeOf and WorldModelQueries.CurrentSectorTime require a time at or after the start and a non-empty trajectory. For a negative time the source indexes from the end of the array.
- WorldModelQueries.SectorDeltaOf requires a sector between 1 and 3. The source's callers pass the current sector, and sector 0 would read Python's index -1.
- A recorded sector time is never `None` in the model. Only laps whose every sector resolves are recorded, so the source's `is not None` test always passes.
- GpuRenderer.Renderer.EndDrag assumes the canvas window exists and takes the mouse height relative to it as a parameter. Without that window the source ends the drag without reordering, which the model does not capture.
- GpuRenderer.Renderer.EndDrag treats any dragged car as a drag in progress. Python treats an empty car id as no drag.
- ColorPicker.ParsePairAsWritten accepts the ASCII and Latin-1 whitespace characters that Python's `int(s, 16)` strips. It does not accept the other Unicode whitespace, or the non-ASCII decimal digits, that Python also accepts.
- DatasetManager.Basename splits on '/' only, as POSIX `os.path.basename` does.
- SectionCompareProcessing.SortDedupKeepsFirst: the model keeps the earliest row in input order among rows with the same timestamp. Pandas' default sort is not stable, so the source may keep any of the tied rows.
- ColorPicker.Picker.OnHexChange: parses with the corrected `HexToColor`, not the as-written `_hex_to_color` the source calls; the source stores (-1, -1, -1) for "#-1-1-1" where the model keeps the colour (see "## Findings").
- ColorPicker.Strip removes only the ASCII and Latin-1 whitespace of `IsSpace`; `str.strip()` also removes the other Unicode whitespace (U+1680, U+2000 to U+200A, U+2028, U+2029, U+202F, U+205F, U+3000), so `OnHexChange` reads such padded text as unreadable where the source strips it.
- TrailGeneration.SortByTime inserts each row ahead of the later rows with the same timestamp, so ties keep their input order. Pandas' default sort is not stable and promises no order among equal timestamps, so the contract states only sortedness and the permutation.
- `LapDeltaRenderer.render` is not modelled: it calls world-model methods that do not exist (`show_lap_delta`, `get_lap_delta_data`), and otherwise only draws. Of `_render_car_delta`, only the drawing calls are not modelled; its segment loop is `LapDeltaRenderer.Segments`.
- `get_brake_color` in the renderer only forwards to the colour table. `ColorConfig.BrakeColorSpec` covers the table's version.
- The colour table's per-category getters are direct lookups. `ColorConfig.CategoryFallbacks` covers them and `get_category_colors`. The `.copy()` they return is not modelled, because tables are values here.
- `get_all_categories` is not modelled. It lists the table's keys in insertion order, and the model's table is a map without an order; its set of categories is the map's key set.
- The deviation-bar colour getter `get_deviation_colors` and the drawing helpers `draw_deviation_bars`/`delete_deviation_bars` are not modelled.
- `AppState` is an enumeration of the states. It becomes the datatype `AppState.Phase`.
- Concurrency is not modelled. This covers the background preprocessing thread and the video exporter's thread.

## Findings

| source | as written | input that shows it | evidently intended | confidence | as-written member | corrected member |
|---|---|---|---|---|---|---|
| src/app/world_model.py:420-426 | The vehicle id of a trail file is the text before the first "_fastestlap_". | A trail written for id "a_fastestlap" has a name starting "trail_a_fastestlap_fastestlap_…" and is read back as id "a". | The id is the text before the last "_fastestlap_", the marker the writer appended. | low (ids of that shape are unusual); not executed | WorldModel.TrailIdAsWrittenMisreads | WorldModel.TrailIdRoundTrip |
| src/app/color_picker.py:249-270 | Each pair is parsed with `int(pair, 16)`, which accepts a sign. | "#-1-1-1" parses to (-1, -1, -1), a colour outside 0..255. | Only six hex digits are accepted, so every channel is in 0..255. | medium; not executed | ColorPicker.HexToColorAsWrittenAcceptsNegative | ColorPicker.HexToColor |
| src/app/transitions.py:198-207 | `update` moves the value only when the gap is `> 0.001`, and reports done only when it is `< 0.001`. | From 0.0 toward a target of 0.001, the value never moves and `update` never reports done. | A gap within the tolerance is done, and any larger gap moves the value. | medium; not executed | Transitions.ProgressAsWrittenStuck | Transitions.ProgressStepSpec |
