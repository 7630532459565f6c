# Behavior: a verified model of the trial bookkeeping

The Behavior repository analyses rodent behaviour sessions. The main protocol is a two-choice auditory one: a tone tells the animal which of two spouts to lick. The other protocols are free licking, spout sampling, free pressing and an adaptive sensorimotor protocol with blocks. Every session is logged as a CSV file with one row per trial. Each row holds 0/1 flags such as `left_spout`, `reward`, `punishment`, `omission`, `early_lick` and the tone columns, plus timestamps.

This project models the logic of those scripts and proves properties of it. The plotting and file handling around that logic are left out.

- **Per-session analyses.** These are the adaptive sensorimotor script, the two-choice auditory `analyze` and its single-session variant `2choice.py`, free pressing and spout sampling. Each trial is classified by six overwrite passes. The scripts count flag conjunctions into outcome bars, compute Laplace-corrected hit and false-alarm rates clipped to [0.01, 0.99] and d′, and segment block runs and block instances.
- **Across-session summaries.** These are `general_*`, `overall_plots.py` and `performance_across_days.py`. They parse file and folder names, load each session's counts and skip the files that raise. They then sort the sessions by date, label the days, and pick the quiet-window and automatic-reward shading.
- **File utilities.** These are:
  - `transfer_files.py`, which routes new logs into `<animal>/Behavior/<date>`;
  - `clean_duplicates.py`, which keeps one row per trial;
  - `concat_files.py`, which merges two logs of a restarted session and renumbers the second one's trials;
  - `run_daily_analysis.py`, which picks one file per new date folder and the script to run on it.

## How the model is organised

There is one Dafny module per file. The shared vocabulary comes first:

| Module | What it holds |
|---|---|
| `Wrappers` | `Option` and `Result` |
| `Text` | splitting, stems, digits, lexicographic order |
| `Calendar` | month lengths |
| `Scan` | the regular-expression building blocks the name patterns use, each consuming a prefix of the text |
| `Names` | every file-name and folder-name pattern of the scripts |
| `Tables` | rows, `fillna`, masks, counts, mode, concatenation |
| `Sorting` | a stable insertion sort with its stability and sortedness lemmas |

The analysis modules follow the scripts. Where a script changes state step by step, the model does too:

- the six classification passes run over an `array` and are proved equal to a single priority function;
- `concat_files.py` shifts trial numbers in place in an `array`;
- the launcher keeps its `Analysis` folders in a class;
- loops that append or stop at the first match become methods with invariants, and each is proved equal to a function that states what the loop computes.

Some operations come from libraries whose code is not modelled:

- **`norm.ppf`** is a function parameter. Where d′ needs to be monotone, that is a precondition.
- **File reads** are parameters: a map from file name to parsed table, or a function returning `None` when the read fails.
- **Directory listings** are sequences.
- **The timestamp parser and the session-name matcher.** The merge gate and the daily launcher take these as parameters. Their properties are proved for any such function, and the walks use the scripts' own patterns (`Names.ExtractTimestamp`, `Names.MatchSessionName`).

The trial classification follows the scripts' passes. They are unguarded after the omission pass, so the last matching pass wins. The effective order is:

1. incorrect right
2. incorrect left
3. correct right
4. correct left
5. early lick
6. omission
7. none

As a result, an early lick on a rewarded left trial is "correct left".

## Model

| member | source | states |
|---|---|---|
| Classification.SixPassesArePriorityRule | analyze_adapt_sensorimotor.py:46-52 | the six overwrite passes give each trial the category of one priority rule: incorrect right, then incorrect left, correct right, correct left, early lick, omission, else none |
| Classification.Categorize | analyze_adapt_sensorimotor.py:46-52 | the in-place passes over the category array leave every entry equal to its row's priority-rule category |
| Classification.PunishedRightIsIncorrectRight | analyze_adapt_sensorimotor.py:52 | a punished right-spout trial is "incorrect right", whatever its other flags |
| Classification.OmissionOnlyWithoutEarlyLick | analyze_adapt_sensorimotor.py:47-48 | a trial is an omission exactly when its omission flag is set, it has no early lick and no side-outcome pass selects it |
| Classification.SideOutcomeOverridesEarlyAndOmission | analyze_adapt_sensorimotor.py:47-52 | a trial selected by a spout/outcome pass gets that pass's category even when it also has an early lick or an omission |
| Classification.UnselectedStaysUnclassified | analyze_adapt_sensorimotor.py:46-52 | a trial has no category exactly when none of the six masks selects it |
| Classification.EarlyRewardedLeftIsCorrectLeft | analyze_adapt_sensorimotor.py:47-49 | an early-lick trial that is also rewarded on the left ends as "correct left" |
| Classification.CategoryIgnoresFill | analyze_adapt_sensorimotor.py:20 | `fillna(0)` changes no trial's category |
| Classification.Classified | analyze_adapt_sensorimotor.py:54 | `df_plot` holds exactly the classified trials, in table order |
| Classification.SortedClassified | analyze_adapt_sensorimotor.py:55 | `df_sorted` is ascending in trial number and a permutation of `df_plot` |
| Classification.MinTrial | analyze_adapt_sensorimotor.py:56 | the minimum is a trial number of the rows and no row is below it; none for no rows |
| Classification.MaxTrial | analyze_adapt_sensorimotor.py:57 | the maximum is a trial number of the rows and no row is above it; none for no rows |
| Classification.SortedEndsAreMinAndMax | analyze_adapt_sensorimotor.py:55-57 | the first and last sorted rows carry the minimum and the maximum trial number |
| Outcomes.SessionBars | analyze_adapt_sensorimotor.py:142-151 | each omission bar is within its tone bar, each side/outcome bar within its spout's trials, every bar within the session |
| Outcomes.BarsCoverCategories | analyze_adapt_sensorimotor.py:143-151 | the flag-based bars count at least the trials of the matching category, and the "right incorrect" bar exactly its category |
| Outcomes.EarlyRewardedLeftCountsTwice | analyze_adapt_sensorimotor.py:147-148 | one early, rewarded left trial raises both the early-lick and the left-correct bar, yet is not an early-lick category |
| Outcomes.CountBothBounded | analyze_adapt_sensorimotor.py:145-151 | a conjunction of two `== 1` masks never selects more rows than either mask |
| Outcomes.Percent | analyze_adapt_sensorimotor.py:213-216 | `count / total * 100` lies in 0..100 when the count is part of the total |
| Outcomes.PercentMonotone | analyze_adapt_sensorimotor.py:213-216 | over one total, a smaller count gives a smaller percentage |
| Blocks.BlockColumn | analyze_adapt_sensorimotor.py:71 | the `block` column, one label per row, an empty cell as none |
| Blocks.Runs | analyze_adapt_sensorimotor.py:71-73 | the maximal runs of equal block labels: positive lengths, neighbours differ, and expanding them gives the column back |
| Blocks.PushExpand | analyze_adapt_sensorimotor.py:71 | adding a row in front lengthens the first run or opens a new one without changing what the runs expand to |
| Blocks.StartLabelsAreRunLabels | analyze_adapt_sensorimotor.py:71-72 | the labels of the rows where `block != block.shift()` are the labels of the maximal runs, in order |
| Blocks.BlockCountIsRunCount | analyze_adapt_sensorimotor.py:72-73 | `block_counts[label]` is the number of maximal runs carrying that label, and the first row always starts a block |
| Blocks.ReturningBlockCountsTwice | analyze_adapt_sensorimotor.py:71-73 | a block type left and resumed counts as two blocks |
| Blocks.BlockRows | analyze_adapt_sensorimotor.py:245-246 | `df_block` is a permutation of the block type's rows, ascending in trial number |
| Blocks.InstanceMonotone | analyze_adapt_sensorimotor.py:247 | the `block_instance` cumulative sum never decreases along the sorted rows |
| Blocks.InstancesAreSeparated | analyze_adapt_sensorimotor.py:247 | rows of different block instances are more than one trial number apart |
| Blocks.SameTrialSameInstance | analyze_adapt_sensorimotor.py:247 | rows with the same trial number belong to the same instance |
| Blocks.InstanceStarts | analyze_adapt_sensorimotor.py:247-248 | one start position per instance, ascending, each at the first row or at a gap, numbered by its instance |
| Blocks.StartIsFirstOfInstance | analyze_adapt_sensorimotor.py:248 | an instance's start row comes no later than any of its rows |
| Blocks.ChangePoints | analyze_adapt_sensorimotor.py:248 | one change point per instance, each a trial number of that instance and no larger than any of them |
| Blocks.ChangePointsAscend | analyze_adapt_sensorimotor.py:248 | the change points rise strictly and the first is the block's smallest trial number |
| Blocks.Separators | analyze_adapt_sensorimotor.py:264-265 | the dashed lines fall exactly at the trial numbers where a gap of more than one opens |
| Blocks.LaterStartIsGap | analyze_adapt_sensorimotor.py:247-248 | every change point after the first opens with a gap |
| Blocks.GapIsLaterStart | analyze_adapt_sensorimotor.py:247-248 | every gap is a change point after the first |
| Detection.Rate | analyze_adapt_sensorimotor.py:183-184 | the corrected rate `(count + 0.5) / (total + 1)` is positive, and below one when the count is part of the total |
| Detection.Clip | analyze_adapt_sensorimotor.py:185-186 | `np.clip` to 0.01..0.99: within the bounds, the identity inside them, a bound outside them |
| Detection.ClippedRate | analyze_adapt_sensorimotor.py:183-186 | the reported rate always lies in 0.01..0.99 |
| Detection.RateMonotone | analyze_adapt_sensorimotor.py:183 | more hits over the same trials never lower the rate |
| Detection.ClippedRateMonotone | analyze_adapt_sensorimotor.py:183-186 | clipping keeps the rate monotone in the count |
| Detection.RateComplement | analyze_adapt_sensorimotor.py:183-184 | the corrected rates of a count and of its complement add up to one |
| Detection.BalancedSessionHasZeroDPrime | analyze_adapt_sensorimotor.py:187 | as many false alarms as hits give d' = 0 |
| Detection.SwappedCountsNegateDPrime | analyze_adapt_sensorimotor.py:187 | swapping hits and false alarms negates d' |
| Detection.DPrimeMonotone | analyze_adapt_sensorimotor.py:187 | with a non-decreasing `ppf`, more hits or fewer false alarms never lower d' |
| Detection.RunningCount | analyze_adapt_sensorimotor.py:180-181 | the definition of `cumsum` over a mask (entry i counts the matching rows among the first i + 1); what it promises is proved in `RunningCountProperties` |
| Detection.RunningCountProperties | analyze_adapt_sensorimotor.py:180-181 | a running count never decreases, never exceeds the rows seen, and ends at the total count |
| AdaptSession.BlockCountsWithinRuns | analyze_adapt_sensorimotor.py:152-154 | the three block counts together never exceed the number of runs, and a session opening with sound has a sound block |
| AdaptSession.BlockCountsAreFilteredCounts | analyze_adapt_sensorimotor.py:245-246 | counting over a block's sorted rows equals counting that block's rows in table order, and never exceeds the session count |
| AdaptSession.BlockBarsWithinSession | analyze_adapt_sensorimotor.py:281-291 | each of the nine per-block bars (both tones, both tone omissions, early licks, and correct and incorrect on each side) is at most the same bar of the whole session |
| AdaptSession.HitRates | analyze_adapt_sensorimotor.py:180-185 | one hit rate per classified trial, each within 0.01..0.99 |
| AdaptSession.FalseAlarmRates | analyze_adapt_sensorimotor.py:181-186 | one false-alarm rate per classified trial, each within 0.01..0.99 |
| AdaptSession.DPrimes | analyze_adapt_sensorimotor.py:187 | d' at each trial is `ppf` of that trial's hit rate minus `ppf` of its false-alarm rate |
| AdaptSession.RunningRatesEndAtSessionRates | analyze_adapt_sensorimotor.py:179-186 | the running counts rise and stay within the trials seen, and the last rates are the whole-session clipped rates |
| AdaptSession.PerformanceSummary | analyze_adapt_sensorimotor.py:205-217 | none exactly for an empty `df_plot` (a case the script never reaches, see `AnalyzeSession`); otherwise percentages in 0..100, each side's correct share within the correct share |
| AdaptSession.ShadingMissing | analyze_adapt_sensorimotor.py:81-88 | the shading loop over every row fails exactly when some row asks for a stimulus column the file lacks (`catch_trial` always, `5KHz` unless a catch trial, `10KHz` unless either); it always fails on a non-empty file without `catch_trial`, never when all three are present |
| AdaptSession.FigureOf | analyze_adapt_sensorimotor.py:142-217 | the counts of the whole table, one hit rate, false-alarm rate and d' per classified trial, the rates ending at the session's clipped rates, and the percentages of the classified trials |
| AdaptSession.AnalyzeSession | analyze_adapt_sensorimotor.py:20-217 | once the tone-map lookup succeeds, the script produces a figure exactly when every column it reads is present (the eleven read before the trial sort, `catch_trial`, `5KHz`, `10KHz`) and some trial is classified; when a column read before the sort is missing, the first such in read order is reported, and every reported column is one the script reads and the file lacks; the `set_xlim` failure (line 104) happens exactly when those columns and the shading reads pass and no trial is classified; a figure holds `FigureOf` the filled rows |
| AdaptSession.PartialTableStops | analyze_adapt_sensorimotor.py:34-52 | a file with only `trial_number`, `left_spout` and `reward` and one rewarded left trial stops at a missing column read before the sort |
| GeneralSessions.FirstMissing | general_2choice_auditory.py:39-56 | none exactly when every column the loader reads is present; otherwise the column the reads fail at: missing, with every column read before it present |
| GeneralSessions.Mean | general_2choice_auditory.py:60-61 | a mean exists exactly when there are values to average |
| GeneralSessions.MeanWithin | general_2choice_auditory.py:60-61 | a mean lies between any lower and upper bound of the values it averages |
| GeneralSessions.Latencies | general_2choice_auditory.py:42-43 | one latency per selected row, `lick_time - (trial_start + 1.2)` of that row |
| GeneralSessions.ChoiceOutcomesOf | general_2choice_auditory.py:50-56 | the side counts and the per-tone omission counts are the raw `== 1` conjunction counts, omissions stay within their tone, and early licks are 0 without an `early_lick` column |
| GeneralSessions.ChoiceCountsOf | general_2choice_auditory.py:37-105 | the returned record: the outcome counts, `len(df)`, clipped rates over correct and incorrect trials, d' from them, a latency exactly when that side has trials, `QW` "NA" exactly for a missing column or no rows, and the automatic-reward majority |
| GeneralSessions.Scored | general_2choice_auditory.py:67-75 | the hit rate is the clipped rate of correct trials, the false-alarm rate that of incorrect trials, and d' their `ppf` difference |
| GeneralSessions.LoadChoiceCounts | general_2choice_auditory.py:37-61 | fails exactly when a read column is missing or `iloc[0]` meets an empty table with a `d_prime`, `hit_rate` or `false_alarm` column; otherwise returns the record |
| GeneralSessions.QwOfFilledWhenWellFormed | general_2choice_auditory.py:78-81 | after `fillna(0)`, `QW` is "NA" exactly when the column is missing or the table is empty |
| GeneralSessions.FilledCountBoth | general_2choice_auditory.py:50-56 | a conjunction of `== 1` masks counts the same rows before and after `fillna(0)` |
| GeneralSessions.FilledCountFlag | general_2choice_auditory.py:39-54 | an `== 1` mask counts the same rows before and after `fillna(0)` |
| GeneralSessions.SumOfZeroOneCounts | general_free_licking.py:29-31 | the NaN-skipping sum of a 0/1 column is the number of its ones |
| GeneralSessions.LoadLickCounts | general_free_licking.py:27-40 | fails exactly on a missing spout or lick column; the sums of 0/1 columns are their counts of ones; `QW` is "NA" exactly when no value is present, else one of the present values |
| GeneralSessions.LoadSamplingCounts | general_spout_sampling.py:26-40 | fails exactly on a missing read column; correct and incorrect licks together stay within the licks, each side error within its spout's rows, `QW` as above |
| GeneralSessions.CorrectAndIncorrectAreDisjoint | general_spout_sampling.py:30-31 | rewarded and unrewarded licks are disjoint, so together they never exceed the licks |
| GeneralSessions.SideErrorsNeedNoLick | general_spout_sampling.py:31-32 | an unrewarded left trial without a lick counts as an incorrect-left trial but not as an incorrect trial |
| GeneralSessions.Entry | general_2choice_auditory.py:115-122 | a file yields a day exactly when its name matches and its table loads; the day's date has eight digits and its data is what the loader returned |
| GeneralSessions.Entries | general_2choice_auditory.py:115-122 | one entry per file, in file order |
| GeneralSessions.KeptMembers | general_2choice_auditory.py:115-122 | a value is kept exactly when some entry holds it |
| GeneralSessions.CollectedAreTheLoadedFiles | general_2choice_auditory.py:115-122 | a day is in `summary` exactly when some file yields it, and every kept date has eight digits |
| GeneralSessions.CollectDays | general_2choice_auditory.py:113-122 | the `try` loop leaves in `summary` the days of the files that did not raise, in file order |
| GeneralSessions.ByDate | general_2choice_auditory.py:129 | `summary.sort` by date returns a permutation of `summary` |
| GeneralSessions.ByDateIsChronological | general_2choice_auditory.py:129 | with eight-digit dates, sorting the date strings sorts the days by numeric date |
| GeneralSessions.SameDateKeepsFileOrder | general_2choice_auditory.py:129 | the sort is stable: sessions of one date keep their file order |
| GeneralSessions.Summarize | general_2choice_auditory.py:113-129 | the sorted summary is a permutation of the loaded days, every date has eight digits, and the dates never decrease |
| GeneralSessions.DayLabels | general_2choice_auditory.py:143 | one label per day |
| GeneralSessions.DayLabelsNamePositions | general_2choice_auditory.py:143 | every label is "Day " and the day's position counted from one, so the labels are distinct |
| GeneralSessions.QwShade | general_2choice_auditory.py:146-164 | the default colour exactly for "NA" or a level other than 0..3, never the automatic-reward colour |
| GeneralSessions.Shade | general_2choice_auditory.py:158-165 | the automatic-reward colour exactly when the day is an automatic-reward majority, the `QW` colour otherwise |
| Tables.Filter | analyze_adapt_sensorimotor.py:54 | boolean-mask selection keeps exactly the rows the mask holds for, and no more rows than it had |
| Tables.Count | analyze_adapt_sensorimotor.py:143 | `df[mask].shape[0]` never exceeds the number of rows |
| Tables.FilterSplit | analyze_adapt_sensorimotor.py:54 | selecting from two concatenated tables is selecting from each and concatenating |
| Tables.CountPermutation | analyze_adapt_sensorimotor.py:246 | reordering the rows (as `sort_values` does) does not change how many match a mask |
| Tables.CountMonotone | analyze_adapt_sensorimotor.py:145-151 | a weaker mask never selects fewer rows |
| Tables.CountPartition | general_spout_sampling.py:30-31 | the rows of `p & q` and of `p & !q` together are the rows of `p` |
| Tables.FillRow | analyze_adapt_sensorimotor.py:20 | `fillna(0)` on a row keeps every value and puts 0 into every empty cell of the table's columns |
| Tables.FillNa | analyze_adapt_sensorimotor.py:20 | `fillna(0)` keeps the columns and the number of rows, and leaves no empty cell in a well-formed table |
| Tables.FlagIgnoresFill | analyze_adapt_sensorimotor.py:47-52 | an `== 1` test gives the same answer before and after `fillna(0)` |
| Tables.CountIgnoresFill | analyze_adapt_sensorimotor.py:143-151 | a mask that cannot tell NaN from 0 counts the same rows before and after `fillna(0)` |
| Tables.Concat | concat_files.py:66 | `pd.concat` has every column of every frame and no other |
| Tables.CellSumOfFlags | general_free_licking.py:29-31 | the sum of a 0/1 column, NaN skipped, is its number of ones |
| Tables.Values | general_2choice_auditory.py:78 | the non-NaN values of a column, non-empty when some row has a value |
| Tables.Mode | general_2choice_auditory.py:79 | `mode()[0]` is a value of the column, no value is more frequent, and among the most frequent it is the smallest |
| Tables.QwOf | general_2choice_auditory.py:78-81 | "NA" exactly when `QW` is missing or all NaN, otherwise one of the column's values |
| Tables.QwOfFilled | general_2choice_auditory.py:78-81 | after `fillna(0)` the level is "NA" exactly when the column is missing or the table is empty |
| Tables.AutomRewardIsStrictMajority | general_2choice_auditory.py:83-85 | a session is flagged exactly when strictly more than half of its trials were automatically rewarded |
| Duplicates.TrialKeys | clean_duplicates.py:56 | the `groupby` keys: strictly ascending, and exactly the trial numbers that occur |
| Duplicates.InsertKey | clean_duplicates.py:56 | inserting a key keeps the keys strictly ascending and adds exactly that key |
| Duplicates.Group | clean_duplicates.py:56 | a group holds exactly the rows with its trial number |
| Duplicates.RewardedRows | clean_duplicates.py:46 | exactly the group's rows with `reward == 1` |
| Duplicates.DropDuplicates | clean_duplicates.py:51 | keeps exactly the same distinct rows, starting with the group's first row |
| Duplicates.ResolveKeepsFirstPreferred | clean_duplicates.py:44-54 | the kept row is the first rewarded row when there is one, the first row otherwise; it is a row of the group |
| Duplicates.Cleaned | clean_duplicates.py:56 | one output row per trial number |
| Duplicates.Clean | clean_duplicates.py:41-57 | fails exactly when `trial_number` is missing, there are no rows for `pd.concat`, or `reward` is missing; otherwise keeps the columns |
| Duplicates.OnePerTrial | clean_duplicates.py:56-57 | the output's trial numbers are strictly ascending and are exactly the input's |
| Duplicates.KeptRow | clean_duplicates.py:44-56 | the row kept for a trial is an input row of that trial, rewarded whenever one of them is |
| Duplicates.NoLonger | clean_duplicates.py:56-57 | cleaning never adds rows |
| Duplicates.AscendingUnique | clean_duplicates.py:56 | two strictly ascending key sequences with the same elements are equal |
| Duplicates.Idempotent | clean_duplicates.py:41-57 | cleaning a cleaned log changes nothing |
| Duplicates.SingletonGroup | clean_duplicates.py:44-54 | in a log with one row per trial, every group is that row and it is kept |
| Transfer.Grouped | transfer_files.py:21-25 | the group names are distinct and are exactly the keys of the group map |
| Transfer.FilesWithBase | transfer_files.py:23-25 | the listed `.csv`/`.json` files with a given base name |
| Transfer.GroupedMembers | transfer_files.py:21-25 | a group exists exactly when a file with that base name is listed, and holds exactly those files in listing order |
| Transfer.GroupMoves | transfer_files.py:39-42 | one move per file of the group, all into the same folder |
| Transfer.MovesForMembers | transfer_files.py:28-45 | a move is made exactly when some matched group holds the file and names that animal and date |
| Transfer.Transferred | transfer_files.py:20-45 | exactly the listed `.csv`/`.json` files whose base name carries an animal id and a date are moved, into the folder that base name names |
| Transfer.SameBaseSameFolder | transfer_files.py:28-42 | moved files with the same base name go into the same folder |
| Transfer.RecordingMovedTogether | transfer_files.py:18-42 | the `.csv` log and `.json` settings of one recording both go to `<animal>/Behavior/<date>` |
| Transfer.GroupByBase | transfer_files.py:21-25 | the grouping loop builds the grouping of the whole listing |
| Transfer.MoveGroups | transfer_files.py:28-45 | the moving loop makes the moves of the groups in order, skipping unmatched groups |
| Transfer.TransferFiles | transfer_files.py:20-47 | the script's moves are the moves of the grouping of the listing |
| Names.MatchSessionName | general_2choice_auditory.py:17-23 | a match splits the stem into a protocol without "_", digit animal, eight-digit date, digit time, a case variant of "box" and a word box group, followed by text that does not continue the box |
| Names.MatchSessionNameComplete | general_2choice_auditory.py:17-23 | every stem built from such groups is matched, with exactly those groups |
| Names.ExtractMetadata | general_2choice_auditory.py:22-26 | fails (`ValueError`) exactly when the stem does not match; otherwise an eight-digit date and a non-empty word box |
| Names.ExtractMetadataOfSessionFile | general_2choice_auditory.py:22-26 | a session file `<groups>.csv` yields its date and box groups, whatever the case of "box" |
| Names.ParseStamp | overall_plots.py:72 | `strptime` of the 14 date and time digits succeeds only on a real calendar instant |
| Names.StampKeyIsDigitsValue | overall_plots.py:72 | the parsed instant's chronological key is the number the 14 digits spell |
| Names.StampOrderIsNameOrder | overall_plots.py:72-82 | ordering files by their parsed instants is ordering them by the digit strings in their names |
| Names.MatchRecordingName | overall_plots.py:36-39 | a match is a "2ChoiceAuditory" or "2ChoiceBlocks" prefix in any case, a digit animal, an eight-digit date, a six-digit time and a tail ending in ".csv" |
| Names.ProtocolPrefix | overall_plots.py:37 | the alternation consumes one of the two protocol names, in any case |
| Names.MatchRecordingNameComplete | overall_plots.py:36-39 | every name of that shape is matched, with exactly its groups |
| Names.CsvTailExamples | overall_plots.py:37 | `.*\.csv$` accepts ".csv", ".CSV" and one final newline, and refuses ".csv.bak" and two final newlines |
| Names.FolderBoxAt | overall_plots.py:42 | an anchored `box[\s_-]?(\d+)` match yields a non-empty digit group |
| Names.FolderBox | overall_plots.py:98 | `box_rx.search` yields the digit group of a match |
| Names.FolderBoxNone | overall_plots.py:98-99 | the search finds nothing exactly when no position starts a match |
| Names.FolderBoxFinds | overall_plots.py:41-42 | "Box 3", "box_3", "BOX-3" and "Box3" after a prefix without a "b" give the digits |
| Names.StemBoxAt | performance_across_days.py:27 | an anchored `[Bb]ox[_\-]?([A-Za-z0-9]+)` match yields a non-empty alphanumeric group |
| Names.BoxLabel | performance_across_days.py:50-53 | the label is "Box " followed by a non-empty group |
| Names.BoxLabelNone | performance_across_days.py:50-53 | no label exactly when no position of the stem starts a match |
| Names.BoxLabelFinds | performance_across_days.py:50 | the label of a stem with a box mark is "Box " and the mark's group |
| Names.MergeStampAt | concat_files.py:23 | an anchored match yields eight date digits and six time digits |
| Names.MergeStampAtOf | concat_files.py:23 | every "2ChoiceAuditory_<digits>_<date>_<time>_box" name yields its date and time |
| Names.ExtractTimestampNone | concat_files.py:22-26 | no timestamp exactly when no position of the name starts a match |
| Names.ExtractTimestampOfRecording | concat_files.py:22-26 | a recording's name yields the instant its date and time digits spell |
| Names.RouteAt | transfer_files.py:18 | an anchored `_([0-9]{6})_([0-9]{8})_` match yields a six-digit animal and an eight-digit date |
| Names.RouteOf | transfer_files.py:29-32 | the search yields a six-digit animal and an eight-digit date |
| Names.RouteOfNone | transfer_files.py:29-45 | no route exactly when no position of the base name starts a match |
| Names.RouteOfFinds | transfer_files.py:18-32 | a base name whose first "_" opens `_<6 digits>_<8 digits>_` routes to those digits |
| Names.ScanDate | performance_across_days.py:26-33 | a full match splits the folder name into four year digits, optional separators, two month and two day digits |
| Names.ScanDateComplete | performance_across_days.py:26-33 | every name of that shape is fully matched, with those pieces |
| Names.ParseDate | performance_across_days.py:31-38 | not a date exactly when the name does not fully match; a parsed date is a real calendar day; otherwise the `ValueError` of an impossible day |
| Names.ParseDateIgnoresSeparators | performance_across_days.py:26 | "20250723", "2025-07-23" and "2025_07_23" parse to the same day |
| Calendar.DaysInMonth | overall_plots.py:72 | every month has 28 to 31 days |
| Scan.Run | general_2choice_auditory.py:18 | a greedy `[..]+` consumes the maximal non-empty run of its class, and fails exactly when the first character is not of it |
| Scan.Fixed | general_2choice_auditory.py:18 | `\d{8}` consumes exactly eight characters of the class, and fails exactly when they are not there |
| Scan.WordIgnoreCase | general_2choice_auditory.py:18-19 | a literal under `re.IGNORECASE` consumes a case variant of the word, and fails exactly when there is none |
| Scan.Optional | overall_plots.py:42 | `[..]?` consumes one character of the class when there is one, and none otherwise |
| Scan.Search | transfer_files.py:29 | `re.search` reports a position where an anchored match succeeds |
| Scan.SearchIsLeftmost | transfer_files.py:29 | the match found is the leftmost one, and none means no position matches |
| Scan.SearchFinds | transfer_files.py:29 | the search finds the match at a position when no earlier position matches |
| Text.Split | 2choice.py:21 | `split("_")` gives at least one part and no part holds the separator |
| Text.JoinSplit | 2choice.py:21 | joining the parts of a split with the separator gives the name back |
| Text.SplitJoin | 2choice.py:21 | splitting separator-free parts joined by the separator gives the parts back |
| Text.ReplaceCsvExtension | 2choice.py:21 | `replace(".csv", "")` on a dot-free stem plus ".csv" leaves the stem |
| Text.Stem | general_2choice_auditory.py:23 | `Path.stem` is a prefix of the name, and the whole name when it has no dot |
| Text.StemOfCsv | general_2choice_auditory.py:23 | the stem of `x.csv` is `x` |
| Text.SplitExt | transfer_files.py:24 | `splitext` splits the name into a base and an extension that is empty or starts with "." |
| Text.SplitExtOfKnownExtension | transfer_files.py:23-24 | the base name of `x.csv` or `x.json` is `x` |
| Text.LexLessTrichotomy | general_2choice_auditory.py:129 | Python's string order is a strict total order |
| Text.LexLessIsNumericOrder | general_2choice_auditory.py:129 | on equal-length digit strings, string order is numeric order |
| Text.DigitsValueAppend | overall_plots.py:72 | the number a digit string spells is its prefix's number shifted left plus its suffix's |
| Text.NatToStringValue | general_2choice_auditory.py:143 | `str(n)` reads back as `n`, so different numbers print differently |
| Sorting.Insert | general_2choice_auditory.py:129 | inserting into a sorted list keeps it sorted and adds exactly that element |
| Sorting.SortWith | general_2choice_auditory.py:129 | the sort returns a sorted permutation of its input |
| Sorting.SortWithIsStable | general_2choice_auditory.py:129 | elements that compare equal keep their input order |
| Sorting.SortWithSorted | general_2choice_auditory.py:129 | sorting a sorted list changes nothing |
| Sorting.SortBy | analyze_adapt_sensorimotor.py:55 | sorting by an integer key returns a permutation ascending in the key |
| Sorting.SortByIsStable | analyze_adapt_sensorimotor.py:55 | rows with the same key keep their input order |
| Sorting.SortBySorted | analyze_adapt_sensorimotor.py:55 | sorting rows already ascending in the key changes nothing |
| TwoChoiceScript.FilenameFields | 2choice.py:20-25 | fails (`IndexError`) exactly when the name splits into fewer than three parts; every field is free of "_" |
| TwoChoiceScript.FilenameFieldsOfParts | 2choice.py:20-25 | a name joined from dot- and "_"-free parts yields parts 0, 1, 2 and the last one |
| TwoChoiceScript.SplitAgreesWithSessionPattern | 2choice.py:20-25 | on a well-formed session name the split gives the pattern's animal and date, and "box" plus the box group; the summary scripts' pattern gives the same date and box |
| TwoChoiceScript.RunScript | 2choice.py:16-122 | fails exactly on a short name, then a missing read column (the first in read order, as `KeyError` names it), then a session with no classified trial (the NaN range `set_xlim` refuses); otherwise the fields, one category per trial as the priority rule gives it, the sorted plot rows with their trial range, and the nine bars of the raw table |
| TwoChoiceScript.Draw | 2choice.py:60-82 | the figure's inputs: the categories, the sorted classified rows, their minimum and maximum trial, and the bars |
| TwoChoiceScript.CategoryColumn | 2choice.py:60-66 | the category column written by the passes over the filled table is the priority-rule category of each raw row |
| TwoChoiceScript.CategoriesIgnoreFill | 2choice.py:60-66 | `fillna(0)` changes no trial's category |
| TwoChoiceScript.BarsIgnoreFill | 2choice.py:74-82 | `fillna(0)` changes none of the nine bars |
| TwoChoiceAnalysis.Analyze | analyze_2choice_auditory.py:16-115 | `analyze` raises `KeyError` exactly when a column it reads is missing, naming the first missing one in read order, and `ValueError` at `set_xlim` exactly when all columns are there but no trial is classified; otherwise each trial gets its priority-rule category, the classified trials are plotted in trial-number order between their smallest and largest trial, and the nine bars count the raw flags |
| AcrossDays.DayMetricsOf | performance_across_days.py:71-80 | none exactly for a day without rows; fails exactly on a non-empty day lacking a read column; otherwise four percentages in 0..100, each side's correct share within the correct share |
| AcrossDays.DayMetricsIgnoreRowOrder | performance_across_days.py:54-80 | the order in which a day's files are concatenated does not change its metrics |
| AcrossDays.CorrectAndIncorrectComplement | performance_across_days.py:76-77 | on a day where every trial is either rewarded or punished, the correct and incorrect bars add up to 100% |
| AcrossDays.Glob | performance_across_days.py:42-43 | the glob returns exactly the listed files with the prefix and the ".csv" suffix, in listing order |
| AcrossDays.LoadDay | performance_across_days.py:40-55 | an empty table and no label when no file matches; otherwise the files concatenated and the box label of the first file's stem |
| AcrossDays.AuditoryFileNamesTheBox | performance_across_days.py:42-52 | the label comes from the first listed auditory file whenever there is one, however many block files there are |
| AcrossDays.GlobFirst | performance_across_days.py:43-50 | the first file a glob returns is the first listed file that matches |
| AcrossDays.DayEntry | performance_across_days.py:125-135 | nothing for a folder whose name is not a date; a collected row has a real date parsed from the folder name, percentages in range and a "Box " label ("Box ?" when none); an invalid date is the `datetime` error |
| AcrossDays.DatedEntry | performance_across_days.py:129-135 | a row carries the folder's date and good metrics; the only error is a missing column |
| AcrossDays.EntriesMeaning | performance_across_days.py:123-135 | every collected row is good and there is at most one per folder; an error comes from some folder |
| AcrossDays.NonDateFoldersAreIgnored | performance_across_days.py:126-128 | a folder whose name is not a date contributes nothing |
| AcrossDays.CollectEntries | performance_across_days.py:123-135 | the loop collects the rows of the folders in listing order and stops at the first folder that raises |
| AcrossDays.ErrorPersists | performance_across_days.py:125-135 | once a folder raises, the rest of the listing does not matter |
| AcrossDays.Labelled | performance_across_days.py:141-142 | the intended plot: one bar and one label per collected day |
| AcrossDays.LabelledMeaning | performance_across_days.py:141-145 | the intended plot shows the days in date order, and its labelled bars are exactly the collected rows, each with its own box |
| AcrossDays.ArgSort | performance_across_days.py:142 | `argsort` returns one valid position per key |
| AcrossDays.ArgSortOfSorted | performance_across_days.py:142 | the argsort of keys already ascending is the identity |
| AcrossDays.AsWrittenPanels | performance_across_days.py:141-142 | as written: the days sorted by date, but the labels left in folder-listing order |
| AcrossDays.AsWrittenAgreesOnDateOrderedListing | performance_across_days.py:141-142 | when the folders are listed in date order, the as-written plot is the intended one |
| AcrossDays.AsWrittenMislabelsOutOfOrderListing | performance_across_days.py:141-142 | with two days listed out of date order in different boxes, the first bar gets the other day's box label |
| AcrossDays.ProcessAnimal | performance_across_days.py:117-142 | nothing without a `Behavior` folder or a usable day; an error exactly when the loop raises; otherwise the collected days in date order under the box labels in folder-listing order, as lines 141-142 compute them, which is the correctly labelled plot when the folders were listed in date order |
| AcrossDays.FirstToneRow | performance_across_days.py:107-111 | the first row for the animal, or none when no row names it |
| AcrossDays.ToneMapping | performance_across_days.py:95-114 | none exactly when the map file is missing or has no row for the animal; otherwise the text of the first row for the animal |
| Overall.RecordingStamp | overall_plots.py:89-93 | a name `fname_rx` refuses gives no instant, and an accepted name's instant is ordered by its 14 date-and-time digits read as a number; an impossible date or time is the `strptime` error |
| Overall.NearestBoxFolder | overall_plots.py:95-101 | the position of the nearest folder above the file whose name holds a box, with no box-naming folder between it and the file; -1 when none does |
| Overall.NearestBoxFolderIsUnique | overall_plots.py:95-101 | the nearest box-naming folder is determined by those two properties alone |
| Overall.NearestBox | overall_plots.py:95-101 | the box is absent exactly when no folder on the path names one, and is otherwise a non-empty string of digits |
| Overall.MetadataOf | overall_plots.py:86-102 | `extract_metadata` fails exactly when the name's date or time does not exist, and otherwise returns the name's instant and the nearest box |
| Overall.ExtractMetadata | overall_plots.py:86-102 | the parent walk returns exactly `MetadataOf` |
| Overall.FindNearestBox | overall_plots.py:96-101 | the loop up the parents stops at the first box-naming folder and returns the nearest box |
| Overall.NearestFolderWins | overall_plots.py:97-101 | a box in the innermost folder wins over any box further up the path |
| Overall.BoxlessFoldersAreSkipped | overall_plots.py:97-101 | folders naming no box do not change the box found |
| Overall.Judge | overall_plots.py:61-77 | a listed file is skipped exactly when `fname_rx` refuses its name or its animal is not of interest, crashes exactly when it is kept and its instant does not exist, and is otherwise recorded with its own animal, instant and path |
| Overall.Verdicts | overall_plots.py:61 | one verdict per listed file, in listing order |
| Overall.GatherMeaning | overall_plots.py:61-77 | a failed gather is the crash of a listed file; a successful one saw no crash, holds only kept files and holds every kept file |
| Overall.CrashEndsGather | overall_plots.py:72 | the first crash ends the loop: later files change nothing |
| Overall.RecordOrderIsTotalPreorder | overall_plots.py:82 | ordering by animal id as text and then by instant is total and transitive |
| Overall.SortRecords | overall_plots.py:82 | the sorted records are a permutation of the gathered ones, ordered by animal and instant |
| Overall.JudgeFile | overall_plots.py:62-77 | the loop body for one file returns exactly its verdict |
| Overall.CollectRecords | overall_plots.py:60-77 | the loop returns the kept files in listing order, or the first crash |
| Overall.FindFiles | overall_plots.py:52-83 | `find_files` fails exactly when a kept name crashes or no file is kept (`FileNotFoundError`), and otherwise returns the kept records sorted by animal and instant |
| Overall.FoundFiles | overall_plots.py:60-82 | the returned list is sorted, holds only listed files of animals of interest whose names carry their animal and instant, and holds every kept file |
| Overall.SameInstantKeepsListingOrder | overall_plots.py:82 | files of one animal with the same instant keep their listing order |
| Overall.ToneOutcomesOf | overall_plots.py:123-141 | each count is the number of rows with both flags equal to 1 (NaN cells count as 0); the per-tone omissions never exceed all omissions; early licks are 0 when the column is absent |
| Overall.OmissionsOfToneWithin | overall_plots.py:139-141 | the omissions of one tone are at most all omissions |
| Overall.Performances | overall_plots.py:164-168 | the three performances are percentages in [0, 100] of correct over attempted trials, and a zero denominator is the `ZeroDivisionError` |
| Overall.FirstValue | overall_plots.py:142-144 | `iloc[0]` of a column is present exactly when the column is |
| Overall.OverallCountsOf | overall_plots.py:126-180 | the dictionary holds the counts, the table's length, the d' of the clipped rates, the file's own first `hit_rate` and `false_alarm`, a latency mean exactly when some trial has that tone, the quiet-window value "NA" exactly when the column is absent, and the automatic-reward flag exactly when more than half the trials have it |
| Overall.LoadOverallCounts | overall_plots.py:121-204 | loading fails exactly when an unguarded column is missing, a present scalar column has no first row, or a performance divides by zero; a loaded session has rows, its counts, and performances in [0, 100] |
| Overall.EmptyTableHasNoAttempts | overall_plots.py:164 | an empty table has no attempted trials, so its performance divides by zero |
| Overall.ReturnedHitRateIsTheFiles | overall_plots.py:143-158 | the returned `hit_rate` is the file's column and not the clipped rate computed beside it: a file holding 0 reports 0 while the computed rate stays above the floor |
| Overall.SessionOf | overall_plots.py:331-337 | a file gives a session exactly when its metadata, its read and its load all succeed, and the session holds the file's instant, box and counts |
| Overall.SessionsOf | overall_plots.py:328-337 | there are never more summaries than files |
| Overall.SessionsOfAreSessions | overall_plots.py:323-337 | every summary comes from a listed file of the animal and is that file's session |
| Overall.TrySession | overall_plots.py:331-337 | the `try` body returns exactly the file's session, or nothing when any step raises |
| Overall.CollectSessions | overall_plots.py:328-337 | the loop collects exactly the animal's sessions in file-list order |
| Overall.RunForAnimal | overall_plots.py:323-339 | the sessions plotted for one animal are its loaded sessions sorted by date |
| Overall.FoundSessionDate | overall_plots.py:72-91 | a found file's session date is the instant `find_files` parsed from the same name |
| Overall.DateSortKeepsFoundOrder | overall_plots.py:228 | on the list `find_files` returns, the date sort before plotting leaves the sessions in place |
| Overall.SessionsFollowRecordOrder | overall_plots.py:328-337 | the sessions gathered from a found, sorted list are already in date order |
| Overall.EarlierSessionsAreNotLater | overall_plots.py:82 | no earlier session of the animal is dated after the last one |
| Overall.Plots | overall_plots.py:320-339 | the figures, in request order, are one per requested animal with sessions to plot, at most one per request |
| Overall.PlotsMeaning | overall_plots.py:320-339 | an animal has a figure holding `s` exactly when it was requested and `s` is its non-empty list of sessions in date order |
| Overall.PlotAnimals | overall_plots.py:322-339 | the loop over the requested animals draws exactly `Plots`: one figure per requested animal that has sessions, in request order, holding that animal's sessions in date order |
| Overall.RunForAnimals | overall_plots.py:320-347 | the run fails exactly when `find_files` does, and otherwise draws exactly `Plots` of the found recordings: for each requested animal with sessions, in request order, its loaded sessions in date order |
| FreePressing.Keys | analyze_free_pressing.py:38 | the index of a cumulative series lists its trial numbers, position by position |
| FreePressing.AtMost | analyze_free_pressing.py:38 | the number of trial numbers up to a bound never exceeds the number of rows |
| FreePressing.AtMostSnoc | analyze_free_pressing.py:38 | one more row adds one to the count below every bound at or above its trial |
| FreePressing.AtMostAll | analyze_free_pressing.py:38 | when every trial is at most the bound, all rows are counted |
| FreePressing.RunningSizes | analyze_free_pressing.py:38 | the running group sizes are empty exactly for no rows, and end at the last trial with every row counted |
| FreePressing.RunningSizesKeysAscend | analyze_free_pressing.py:38 | over ascending trial numbers, `groupby` yields each trial number once, in strictly ascending order |
| FreePressing.AscendingInit | analyze_free_pressing.py:38 | dropping the last trial keeps the trials ascending |
| FreePressing.AppendKeepsKeysAscending | analyze_free_pressing.py:38 | appending a trial at least the last keeps the group keys strictly ascending |
| FreePressing.EarlierPair | analyze_free_pressing.py:38 | appending a trial leaves every earlier group and its running size unchanged |
| FreePressing.KeysBelowLast | analyze_free_pressing.py:38 | every group key is below the last one |
| FreePressing.RunningSizesStep | analyze_free_pressing.py:38 | one more row either extends the last group or opens a new one; the other groups stay |
| FreePressing.RunningSizesCount | analyze_free_pressing.py:38 | each running size is the number of rows whose trial is at most the group's trial |
| FreePressing.EarlierPairCount | analyze_free_pressing.py:38 | an earlier group's running size stays the count of rows up to its trial when a later row is appended |
| FreePressing.RunningSizesKeysAreValues | analyze_free_pressing.py:38 | the group keys are exactly the trial numbers that occur |
| FreePressing.KeysAreValues | analyze_free_pressing.py:38 | every group key is a trial number of some row |
| FreePressing.ValuesAreKeys | analyze_free_pressing.py:38 | every row's trial number is a group key |
| FreePressing.Trials | analyze_free_pressing.py:26 | the trial-number column, row by row |
| FreePressing.AtMostCounts | analyze_free_pressing.py:38 | counting trial numbers up to a bound counts the rows at or before that trial |
| FreePressing.SortedTrialsCount | analyze_free_pressing.py:38 | sorting by trial number changes no count of rows up to a trial |
| FreePressing.SortedTrials | analyze_free_pressing.py:38 | the trial numbers `groupby` visits are ascending and one per row |
| FreePressing.CumulativeCounts | analyze_free_pressing.py:38 | the cumulative series is empty exactly for no presses and ends at the number of presses |
| FreePressing.CumulativeCountsKeys | analyze_free_pressing.py:38 | one point per distinct trial number, strictly ascending, covering every row's trial |
| FreePressing.SortedTrialIsTrial | analyze_free_pressing.py:38 | every sorted trial number is a trial number of the rows |
| FreePressing.TrialIsSortedTrial | analyze_free_pressing.py:38 | every row's trial number appears among the sorted ones |
| FreePressing.CumulativeCountsCount | analyze_free_pressing.py:38 | the value at a trial is the number of rows on that trial or an earlier one, whatever the row order of the file |
| FreePressing.CumulativeCountsIncrease | analyze_free_pressing.py:38 | the cumulative counts rise strictly from one trial to the next |
| FreePressing.CountStrict | analyze_free_pressing.py:38 | a row on a later trial makes the later count strictly larger |
| FreePressing.Licks | analyze_free_pressing.py:28 | `licks_only` holds exactly the rows with `lick == 1`, as many as there are |
| FreePressing.AnalyzePresses | analyze_free_pressing.py:17-75 | the analysis stops without output exactly when a required column is missing; past that gate it raises exactly on a file without rows (`NoFirstRow`), then on one without `trial_number`, which the gate does not require but line 26 reads (`MissingTrialNumber`), then on one whose `trial_start` or `trial_end` holds no value, whose NaN session length `set_xlim` refuses at line 75 (`NoSessionSpan`), each error exactly in its case; otherwise it counts every row with `lick == 1` as a press |
| FreePressing.CutOffLogStops | analyze_free_pressing.py:31-75 | a one-row log with every column but no value written in `trial_end` fails at the session span |
| FreePressing.CountCons | analyze_free_pressing.py:28 | a mask count splits into the first row and the rest |
| FreePressing.CountFiltered | analyze_free_pressing.py:39-40 | selecting one side among the presses counts the rows that are both |
| FreePressing.CumulativeTotalEndsAtTotal | analyze_free_pressing.py:38-42 | the cumulative-total curve is empty exactly when there are no presses, ends at the total number of presses, and rises strictly |
| FreePressing.SideCurveCountsSidePresses | analyze_free_pressing.py:36-40 | each point of a side curve counts the presses at that side up to its trial |
| FreePressing.SidePressesAreSideCounts | analyze_free_pressing.py:36-44 | with 0/1 spout flags, the left and right totals count the presses at each spout and are where the side curves end |
| FreePressing.SpoutSumCountsPresses | analyze_free_pressing.py:43-44 | the sum of a 0/1 spout column over the presses is the number of presses at that spout |
| FreePressing.CountSameMask | analyze_free_pressing.py:36-37 | two masks that agree on every row count the same rows |
| SpoutSampling.AssignOutcomes | analyze_spout_sampling.py:33-35 | after the blank column and the left and right passes, every row's slot is its right spout when that flag is 1 and there is no omission, else its left spout under the same test, else empty |
| SpoutSampling.PointOf | analyze_spout_sampling.py:37-40 | a kept row's point carries its trial and spout, sits at height 1 exactly for the left spout and 0 for the right, and is green exactly when the trial was rewarded |
| SpoutSampling.Points | analyze_spout_sampling.py:39-40 | one point per kept row, in order |
| SpoutSampling.Prepared | analyze_spout_sampling.py:19-30 | the filled rows, permuted into ascending trial-number order |
| SpoutSampling.Kept | analyze_spout_sampling.py:38 | every kept row has an outcome |
| SpoutSampling.KeepAssigned | analyze_spout_sampling.py:38 | the rows whose slot is not empty, in order |
| SpoutSampling.Analyze | analyze_spout_sampling.py:14-81 | the file is skipped exactly when a required column is missing; `set_xlim` raises exactly when the columns are there but no row is kept; otherwise the points and bars of the kept rows |
| SpoutSampling.RightOverridesLeft | analyze_spout_sampling.py:34-35 | a trial at both spouts without omission is a right-spout trial |
| SpoutSampling.KeptRows | analyze_spout_sampling.py:34-38 | a row is kept exactly when its omission is 0 and one of its spout flags is 1 |
| SpoutSampling.TotalCountsVisits | analyze_spout_sampling.py:29-43 | the total bar counts the file's spout visits, whatever the row order |
| SpoutSampling.PointsAscend | analyze_spout_sampling.py:29-38 | the points follow ascending trial numbers |
| SpoutSampling.FilterKeepsOrder | analyze_spout_sampling.py:38 | dropping rows keeps the trial-number order |
| SpoutSampling.BarsWithinTotal | analyze_spout_sampling.py:43-49 | the correct and incorrect bars together never exceed the total, overall and at each spout |
| SpoutSampling.Disjoint | analyze_spout_sampling.py:44-49 | two masks no row meets together count at most all rows between them |
| SpoutSampling.PointsMeanWhatTheyShow | analyze_spout_sampling.py:34-40 | a point at height 1 is a left-spout trial, one at 0 a right-spout trial, right exactly when the right flag is 1, and green exactly when rewarded |
| Merge.Stamped | concat_files.py:43-46 | the timestamped candidates are never more than the folder's entries |
| Merge.StampedFails | concat_files.py:25-46 | the script ends exactly when some `2ChoiceAuditory*.csv` entry names a date or time `strptime` refuses |
| Merge.StampedEntries | concat_files.py:43-46 | every entry is a listed candidate paired with the timestamp its own name carries |
| Merge.StampedComplete | concat_files.py:43-46 | every listed candidate that carries a timestamp has its entry |
| Merge.PlanOf | concat_files.py:47-52 | a folder is merged exactly when exactly two candidates carry a timestamp, the older one first and the listing order kept on a tie; otherwise it is skipped with the number found |
| Merge.OldestFirst | concat_files.py:46-52 | the two merged logs are timestamped candidates of the folder, the older one no later than the newer, the first listed one older on a tie, and no third timestamped candidate exists |
| Merge.Shifted | concat_files.py:63 | every row's trial number moves by the offset and nothing else about any row changes |
| Merge.ShiftedBack | concat_files.py:63 | shifting back by the same offset restores the rows |
| Merge.ShiftTrials | concat_files.py:63 | the in-place `+=` leaves the array holding the shifted rows |
| Merge.Merged | concat_files.py:57-66 | the merge fails exactly when a log cannot be read, a log lacks `trial_number`, or the older log has no rows |
| Merge.ConcatTwo | concat_files.py:66 | concatenating two tables unites their columns and appends their rows |
| Merge.MergedShape | concat_files.py:62-66 | the merged log has both logs' columns, the older rows unchanged, then every newer row with only its trial number moved by the older log's largest trial number |
| Merge.NewerTrialsFollowOlder | concat_files.py:62-63 | when the newer log's trials start at 1 or more, every shifted trial number exceeds every older one |
| Merge.ShiftedFollow | concat_files.py:62-63 | rows shifted past the older maximum come after every older row |
| Merge.MergeLogs | concat_files.py:57-66 | the merge computed with the shift in place equals `Merged` |
| Merge.FolderStep | concat_files.py:38-81 | a date folder ends the script exactly when it is a directory whose gate hits an invalid timestamp; a non-directory does nothing; a folder is skipped, with nothing moved or written, exactly when its gate skips it, with the gate's count; a failed folder is one whose chosen pair does not merge, with that error; a merged folder combines the two logs its gate chose, into their merge |
| Merge.DatesAbortPersist | concat_files.py:37-46 | once a date folder ends the script, later date folders change nothing |
| Merge.SubjectsAbortPersist | concat_files.py:29-46 | once a subject folder ends the script, later subjects change nothing |
| Merge.WalkDates | concat_files.py:37-81 | the loop over one subject's date folders yields exactly `DatesRun` |
| Merge.ConcatSessions | concat_files.py:29-81 | the two nested loops yield exactly `SubjectsRun` |
| Merge.DatesRunActions | concat_files.py:37-81 | every action of a subject's walk names that subject and comes from one of its date folders |
| Merge.ActionsComeFromDigitFolders | concat_files.py:18-35 | only digit-named subject folders with a `Behavior` folder are walked, and every action comes from one of their date folders |
| Merge.MovedUnderOldName | concat_files.py:72-73 | an original `<stem>.csv` is moved as `<stem>_old.csv` |
| Merge.Without | concat_files.py:73 | the listing without one name holds every other entry |
| Merge.StampedWithout | concat_files.py:46 | removing a name from the folder removes its timestamped entry and nothing else |
| Merge.StampedAppend | concat_files.py:46 | entries that are no candidates add no timestamped entry |
| Merge.StampedOfNonCandidates | concat_files.py:43 | a listing of non-candidates has no timestamped entries |
| Merge.StampedDistinct | concat_files.py:46 | distinct entries give distinct timestamped names |
| Merge.RerunSkips | concat_files.py:47-77 | running the script again on a merged folder skips it: one timestamped log remains |
| Daily.FirstRunnable | run_daily_analysis.py:55-80 | the file analysed in a date folder is the first, in listing order, whose stem matches the pattern and whose protocol has a script; none when no file qualifies |
| Daily.FirstRunnableAt | run_daily_analysis.py:55-80 | a qualifying file before which none qualifies is the one chosen |
| Daily.AnalysisTree.constructor | run_daily_analysis.py:38-47 | the tree starts with the given `Analysis` folders and date subfolders |
| Daily.AnalysisTree.SelectFile | run_daily_analysis.py:55-80 | the loop over the data files launches the script of the first qualifying file with its animal, date and box groups, and launches nothing when none qualifies |
| Daily.AnalysisTree.AnalyzeDates | run_daily_analysis.py:43-80 | the loop over one animal's date folders skips non-directories and analysed dates, launches one script per remaining date with a qualifying file, and marks exactly those dates as analysed |
| Daily.AnalysisTree.AnalyzeNewData | run_daily_analysis.py:32-80 | the walk over the animal folders makes an `Analysis` folder for every directory with a `Behavior` folder and yields exactly the launches and folders of `Walk` |
| Daily.DatesWalkFresh | run_daily_analysis.py:47-71 | for one animal, the analysed dates afterwards are the earlier ones plus the launches' output folders, no launch is for a date already analysed, and no date is launched twice |
| Daily.WalkFresh | run_daily_analysis.py:32-80 | over the whole walk, the date folders made are exactly the launches' outputs, none of them existed, no date folder is analysed twice, and `Analysis` folders are made for exactly the animal folders with a `Behavior` folder |
| Daily.DatesWalkSelects | run_daily_analysis.py:43-80 | every launch of an animal's walk is the first qualifying file of one of its date folders |
| Daily.LaunchesAreFirstRunnable | run_daily_analysis.py:32-80 | every launch is for the first qualifying file of a date folder of a walked animal folder |
| Daily.LaunchArgumentsAreGroups | run_daily_analysis.py:60-79 | a session file's launch passes its protocol's script and the pattern's animal, date and box groups unchanged, whatever the case of "box" |
| Daily.SessionStem | run_daily_analysis.py:56 | the stem of a well-formed session file matches the pattern with exactly its fields |
| Daily.LowerCaseProtocolHasNoScript | run_daily_analysis.py:18-68 | the pattern ignores case but the script lookup does not: a lower-case "freelick" file is matched yet has no script |
| Daily.NoLowerCaseKey | run_daily_analysis.py:18-24 | "freelick" is not a key of the script table |

## Left out

- **Plotting.** Figure layout, legends, annotations, stems, subtitles and saving in png/pdf/svg are left out. They render and decide nothing. The background shading is kept. Axis limits are left out except where they decide the outcome: `set_xlim` refuses the NaN trial range of an empty plot, so the scripts end with `ValueError` and save no figure. `TwoChoiceScript.RunScript`, `TwoChoiceAnalysis.Analyze`, `SpoutSampling.Analyze` and `AdaptSession.AnalyzeSession` report that failure. `FreePressing.AnalyzePresses` reports the same refusal of a NaN session length, which comes from a `trial_start` or `trial_end` column with no value.
- **File system effects.** These are `read_csv` (and the latin-1 retry of `safe_read_csv`), `to_csv`, `glob`, `os.listdir`, `iterdir`, `mkdir`/`makedirs`, `shutil.move` and `shutil.copy`. Listings and parsed tables are inputs. Moves and launches are returned as values.
- **Printed messages and argument parsing** are left out. The command-line arguments are method parameters.
- **`subprocess.run` in run_daily_analysis.py** is not executed. The model returns the `Launch` record instead.
- **run_across_days_analysis.py** is not part of this model. Line 74 is prose inside a function, so the file does not parse, and the rest is subprocess dispatch.
- **The tkinter dialogs of clean_duplicates.py**, its backup copy and the writing of the cleaned file are left out. `Duplicates.Clean` starts from the parsed table.
- **`norm.ppf` is a parameter.** The model never computes a normal quantile, only the clipped rates that feed it.
- **Floating point.** Rates, percentages and latency means are exact `real`s. The model does not capture rounding.
- **Timing arithmetic.** The latency standard deviations (`std`), session durations, press times in minutes and the `index * 0.1` time axis of analyze_free_pressing.py are left out. They are float arithmetic on timestamps that no count or rate depends on. The one way they decide the outcome, a session length that is NaN because `trial_start` or `trial_end` has no value, is modelled (`FreePressing.AnalyzePresses`).
- **Tone-to-spout mapping.** The lookups in analyze_2choice_auditory.py:24-30, 2choice.py:29-36, analyze_adapt_sensorimotor.py:25-31 and overall_plots.py:105-118 are a file read plus `.iloc[0]`. They are not modelled, so the model does not capture that the first three raise when the animal name is not an integer (`int(animal)`) or the map has no row for it. The mapping of performance_across_days.py is modelled (`AcrossDays.ToneMapping`).
- **The `autom_reward` read in the plotting loops** of analyze_2choice_auditory.py and 2choice.py is left out. That read raises when the column is missing and some trial is classified.
- AdaptSession.AnalyzeSession: does not model the tone-map lookup at analyze_adapt_sensorimotor.py:25-31, which runs before any column is read and raises when the map file cannot be read, the animal name is not an integer, or the map has no row for the animal. The model's verdict assumes that lookup succeeds, because the map file lives outside the session data.
- **Trial numbers** are integers on every row. A NaN `trial_number` cell is not modelled. A missing `trial_number` column is modelled where a script tests for it or reads it (`FreePressing.AnalyzePresses` reports it after the column gate, `AdaptSession.AnalyzeSession` at the trial sort).
- Merge.Merged: when the older log has no rows, pandas shifts the newer trial numbers by NaN and writes the file. The model reports `EmptyOlder` instead.
- **Character classes are ASCII, except `\s`.** `\d`, `\w` and `str.isdigit` also accept other Unicode digits and letters in Python. The model reads names as ASCII for these. `\s` is modelled with Python's full set of whitespace characters (`Text.IsSpace`).
- AcrossDays.Glob: the prefix and suffix are matched case-sensitively, as `glob` does on POSIX systems. On Windows `glob` ignores case, so a file such as "2CHOICEAUDITORY_x.CSV" would also be picked up there.
- **`sort_values`, `sort_index` and `np.argsort` are modelled as stable.** Their default quicksort does not promise this. `list.sort` is stable. `AcrossDays.ArgSort`, `AcrossDays.ArgSortOfSorted` and `AcrossDays.AsWrittenPanels` use the stable `Sorting.SortBy` for performance_across_days.py:141-142. Only folders whose names parse to the same date could come out in another order.
- Overall.SessionKey: a found file always has a date, so the key of a session without one is never used. In Python that case would raise a `TypeError` while sorting.
- Daily.AnalysisTree.AnalyzeNewData: a `Behavior` entry that is a file rather than a folder passes `exists()` and then raises in `iterdir()`. That case is not modelled: a `Behavior` entry is either a folder or absent.
- Transfer.TransferFiles: the moves are returned, not performed. A move onto an existing file and the message for a skipped group are not modelled.

## Findings

| source | as written | input that shows it | evidently intended | confidence | as-written member | corrected member |
|---|---|---|---|---|---|---|
| performance_across_days.py:141-142 | `perf` is sorted by date, then `boxes` is reindexed by `perf.index.argsort()`. On an index that is already sorted this is the identity, so the box labels stay in folder-listing order. `AcrossDays.ProcessAnimal` returns these panels (`AcrossDays.AsWrittenPanels`). | folder 20250602 (Box 1) listed before folder 20250530 (Box 2): the 30 May bar is labelled "Box 1" | each day keeps its own box label when the days are sorted | not executed | AcrossDays.AsWrittenMislabelsOutOfOrderListing | AcrossDays.Labelled |
