# WinterArc workout tracker: week keys, weekly storage and the text log

WinterArc's browser script keeps a five-day workout checklist per ISO week.
It stores everything in the browser's key-value storage:

- the key of the current week (`winterarc_current_week`);
- one tracker object per week (`winterarc_tracker_<week>`), mapping a day to
  exercise ids and their completion flags;
- an archive of past weeks (`winterarc_archive`).

On page load the script works out the ISO week key (`2026-W42`). When the
stored week key names a different week, it archives that week's data, if the
week has any, and deletes its tracker object. It then stores the new week key.
Ticking a checkbox writes one flag. The export builds a plain-text log: the
current week first, then the archived weeks newest first.

The Dafny model has five modules:

- `Wrappers`: `Option`.
- `IsoWeek` (`iso_week.dfy`): getCurrentWeekKey.
  - Dates are proleptic Gregorian calendar dates, counted as a day number with
    day 0 on 0001-01-01, a Monday.
  - The ISO week found for a date is tied to a reference definition of ISO week
    dates. The key text is read back by a parser.
  - The arithmetic exactly as written, with `Date.UTC`'s two-digit-year rule,
    is a separate function (see Findings).
- `WeekData` (`week_data.dfy`): the tracker object of one week.
  - A day's exercises form an insertion-ordered association list, because
    JavaScript objects keep string keys in insertion order and the log lists
    exercises in that order.
  - Includes setExerciseState's change to it.
- `LogText` (`log_text.dfy`): formatWeekText and the text exportLog assembles.
  - A week block is specified as a sequence of lines.
  - The script's loops are methods proved to build exactly that text.
- `Tracker` (`tracker_store.dfy`): the storage and its operations.
  - The storage is a value (`Storage`), where each stored JSON value is absent,
    unreadable or holds a value.
  - The effects of ensureCurrentWeek and setExerciseState are functions of it.
  - A `TrackerStore` class holds the same three parts as fields. Its methods
    follow the script step by step and are proved to have exactly those
    effects. The one difference is the week key: EnsureCurrentWeek stores the
    corrected key `GetCurrentWeekKey`, not the key as written (see Findings).

Today's date, the archive time stamp and the export time stamp are
parameters. Months run 1..12, where the script passes 0..11 to `Date.UTC`.

## Model

| member | source | states |
|---|---|---|
| IsoWeek.DayNumber | static/js/tracker.js:15-18 | definition of the day count `Date.UTC` gives a date, with days past the end of a month rolling over into the next; YearHolds, YearHoldsUnique and ThursdayYearHolds state which year holds a day |
| IsoWeek.UtcDay | static/js/tracker.js:16 | definition of `getUTCDay()`, Sunday 0 .. Saturday 6, on day numbers; IsoWeekday states its range |
| IsoWeek.ThursdayYear | static/js/tracker.js:16-18 | `getUTCFullYear()` after moving to the Thursday is within one year of the date's own year (ThursdayYearHolds states which year holds it) |
| IsoWeek.WeekCount | static/js/tracker.js:18-19 | definition of `Math.ceil(((d - yearStart) / 86400000 + 1) / 7)` in whole days; ThursdayWeek and IsoWeekOfThursday state what it counts |
| IsoWeek.IntToString | static/js/tracker.js:20 | definition of `String(n)` for an integer year, with a minus sign when negative; ParseIntToString states that it reads back |
| IsoWeek.WeekKeyOf | static/js/tracker.js:20 | definition of the key text: year, `-W`, then the week padded to two digits; WeekKeyRoundTrip, WeekKeyShape and SameKeyIffSameWeek state its properties |
| IsoWeek.GetCurrentWeekKey | static/js/tracker.js:13-21 | definition of getCurrentWeekKey as the key of the ISO week of today's date; KeyOfOneWeek, KeyChangesOnMonday and SameKeyIffSameWeek state its properties |
| IsoWeek.IsoWeekday | static/js/tracker.js:16 | `getUTCDay() \|\| 7` is a weekday 1..7, Monday 1, and agrees with the day number modulo 7 |
| IsoWeek.ThursdayOf | static/js/tracker.js:17 | moving by `4 - dayNum` lands on the Thursday of the date's Monday-start week |
| IsoWeek.ShiftedYear | static/js/tracker.js:17-18 | `getUTCFullYear()` after `setUTCDate` moves a date by at most three days is within one year of the date's own year |
| IsoWeek.ShiftedYearHolds | static/js/tracker.js:17-18 | the year `getUTCFullYear` reads after `setUTCDate` moves the date up to three days across a year end is the year that really holds the moved day |
| IsoWeek.ThursdayYearHolds | static/js/tracker.js:16-18 | the year read after moving to the Thursday holds that Thursday |
| IsoWeek.CeilDiv7 | static/js/tracker.js:19 | `Math.ceil(a / 7)` is the least q with a <= 7q |
| IsoWeek.ThursdayWeek | static/js/tracker.js:18-19 | a Thursday of year y gets a week number in 1..53, and it is that year's week-th Thursday |
| IsoWeek.IsoWeekOf | static/js/tracker.js:13-21 | the ISO year is within one of the calendar year, and the week is in 1..53 |
| IsoWeek.IsoWeekOfThursday | static/js/tracker.js:15-19 | the ISO year holds the date's Thursday, and the week number counts that year's Thursdays up to and including it |
| IsoWeek.IsoWeekDateRoundTrip | static/js/tracker.js:13-21 | the computed ISO year and week, with the weekday, lead back to the same day under the reference definition of ISO week dates |
| IsoWeek.SameIsoWeekIff | static/js/tracker.js:13-21 | two dates get the same ISO week if and only if they share a Monday (the key is stable within a week and changes on Mondays) |
| IsoWeek.NatToString | static/js/tracker.js:20 | `String(n)` is one or more decimal digits with no leading zero (only 0 itself starts with `0`), of length 1, 2 or 4 for one-, two- or four-digit numbers; with ParseNatToString this fixes the text |
| IsoWeek.PadStart2 | static/js/tracker.js:20 | `padStart(2, '0')` yields at least two characters, ends with the input and fills only with zeros |
| IsoWeek.ParseIntToString | static/js/tracker.js:20 | the printed year (minus sign included) reads back as the same integer |
| IsoWeek.WeekKeyRoundTrip | static/js/tracker.js:20 | a key whose week number has one or two digits parses back to exactly its ISO year and week |
| IsoWeek.WeekKeyShape | static/js/tracker.js:12-20 | for four-digit ISO years the key has the form `YYYY-Www`: 8 characters, digits, `-W` at positions 4-5 and a zero-padded week |
| IsoWeek.SameKeyIffSameWeek | static/js/tracker.js:13-21 | two dates get the same key text exactly when they share a Monday-start week |
| IsoWeek.WeekOf2026Oct14 | static/js/tracker.js:13-21 | 2026-10-14 is week 42 of 2026, key `2026-W42` |
| IsoWeek.KeyOfOneWeek | static/js/tracker.js:13-21 | every day from Monday 2026-10-12 to Sunday 2026-10-18 gets the key `2026-W42` |
| IsoWeek.KeyChangesOnMonday | static/js/tracker.js:13-21 | Monday 2026-10-19 gets a key different from Sunday 2026-10-18 |
| IsoWeek.WeekOf2021Jan1 | static/js/tracker.js:13-21 | 2021-01-01 belongs to the previous ISO year: `2020-W53` |
| IsoWeek.WeekOf2024Dec30 | static/js/tracker.js:13-21 | 2024-12-30 belongs to the next ISO year: `2025-W01` |
| IsoWeek.DateUtcYear | static/js/tracker.js:15-18 | definition of `Date.UTC`'s year rule: 0..99 become 1900 + year, other years are kept |
| IsoWeek.SourceWeekOf | static/js/tracker.js:13-19 | definition of the year and week number exactly as the script computes them, with both `Date.UTC` calls applying that rule |
| IsoWeek.SourceWeekKey | static/js/tracker.js:13-20 | definition of the key text as the script builds it from that year and week |
| IsoWeek.SourceAgreesOutsideTwoDigitYears | static/js/tracker.js:15-18 | for years below -1 or above 100 the arithmetic as written gives the ISO week and the same key |
| IsoWeek.SourceReadsTwoDigitYears | static/js/tracker.js:15-18 | for years 0..99 the arithmetic as written gives the ISO week of the same month and day in 1900 + year |
| IsoWeek.SourceWeekOfYear100 | static/js/tracker.js:15-20 | for 0100-01-01 the script as written gives week -99085 of year 99 (key `99-W-99085`); the ISO week is `99-W53` |
| WeekData.Lookup | static/js/tracker.js:141 | an exercise's flag is found exactly when its id is among the day's ids |
| WeekData.LookupFirst | static/js/tracker.js:141 | the flag found is that of the first entry with the id |
| WeekData.LookupUnique | static/js/tracker.js:141 | with distinct ids, every exercise of a day reads back its own flag |
| WeekData.Assign | static/js/tracker.js:66 | definition of `dayState[id] = v`: an existing id is overwritten in its place, a new id is appended; AssignLookup and AssignIdsOrder state its effect |
| WeekData.AssignLookup | static/js/tracker.js:66 | after `state[day][exerciseId] = checked` that id reads back `checked`, and every other id reads as before |
| WeekData.AssignIdsOrder | static/js/tracker.js:66 | an existing id keeps its place in the key order, and a new id is appended last |
| WeekData.AssignIds | static/js/tracker.js:66 | the day's ids stay distinct |
| WeekData.SetFlag | static/js/tracker.js:64-66 | definition of setExerciseState's change to a week: create the day empty if missing, then assign the flag; SetFlagSpec states its effect |
| WeekData.SetFlagSpec | static/js/tracker.js:64-66 | the day is present afterwards and the flag reads back. Other exercises of the day and other days are unchanged, and a missing day starts empty. |
| WeekData.SetFlagWellFormed | static/js/tracker.js:64-66 | the week keeps distinct ids within every day |
| WeekData.SetFlagOnEmptyWeek | static/js/tracker.js:63-68 | ticking `pushups` on Monday of an empty week yields `{monday: {pushups: true}}` |
| LogText.HyphensToSpaces | static/js/tracker.js:142 | `replace(/-/g, ' ')` keeps the length and turns exactly the hyphens into spaces |
| LogText.Capitalize | static/js/tracker.js:139 | `charAt(0).toUpperCase() + slice(1)` keeps the length, upper-cases the first letter and leaves the rest unchanged |
| LogText.HeaderLine | static/js/tracker.js:131 | the line is `WEEK: `, then the key, then ` (current)` for the current week and nothing otherwise, with the matching length |
| LogText.DayHeader | static/js/tracker.js:139 | a day header is three characters longer than the day |
| LogText.DayHeaderShape | static/js/tracker.js:139 | a day header is two spaces, the day's first letter in upper case, the rest of the day unchanged, then a colon |
| LogText.DayHeaderInjective | static/js/tracker.js:139 | distinct lower-case day names give distinct headers |
| LogText.Mark | static/js/tracker.js:141 | definition of the mark `[x]` for a set flag and `[ ]` otherwise; ExerciseLine states where it appears |
| LogText.ExerciseLine | static/js/tracker.js:141-142 | an exercise line is indented four spaces and shows `[x]` if and only if the flag is set, `[ ]` otherwise. The id follows with hyphens as spaces, and no hyphen is left. |
| LogText.ExerciseLinesIndex | static/js/tracker.js:140-143 | every flag of a day gets exactly one line, and line k is the exercise line of the k-th flag in key order |
| LogText.DaySection | static/js/tracker.js:137-144 | definition of `if (data[day])`: a day with a key gets its header and exercise lines, even with no exercises, and a day without one gets nothing; PresentDayHeader and DayHeaderInSections state it |
| LogText.AnyDay | static/js/tracker.js:134-138 | definition of the final `hasAny`: some listed day has a key; FormatSections and PlaceholderIffNoDay state it |
| LogText.FormatDay | static/js/tracker.js:139-143 | the loop over a day's exercises writes the day header, then one exercise line per exercise in key order |
| LogText.FormatSections | static/js/tracker.js:133-145 | the `days.forEach` loop writes the sections of the present days in day order, and `hasAny` is set exactly when some day is present |
| LogText.WeekLines | static/js/tracker.js:130-151 | definition of formatWeekText's block as lines: header, rule, the present days' sections, the placeholder when no day is present, a blank line; WeekLinesMembers, PlaceholderIffNoDay and DayHeaderIff state its properties |
| LogText.WeekText | static/js/tracker.js:130-153 | definition of the block's text: those lines, each ended by a newline; WeekTextSplit and WeekTextFrame state its shape |
| LogText.FormatWeekText | static/js/tracker.js:130-153 | the block built step by step is exactly the specified week text |
| LogText.WeekTextSplit | static/js/tracker.js:130-153 | a week text is the header, the rule and the day sections, then the placeholder only when no day is present, then a blank line |
| LogText.SectionLinesAppend | static/js/tracker.js:136-145 | the sections of a concatenated day list are the sections of each part, in order |
| LogText.PresentDayHeader | static/js/tracker.js:137-139 | a day that has a key contributes its header among the sections |
| LogText.SectionLineKinds | static/js/tracker.js:136-145 | every section line is the header of a present day or the exercise line of one of a present day's flags |
| LogText.DayLineKinds | static/js/tracker.js:139-143 | every line of one day's section is its header or the exercise line of one of its flags |
| LogText.ExerciseLinesShape | static/js/tracker.js:140-143 | every line of a day's exercise list is the exercise line of one of its flags |
| LogText.WeekLinesMembers | static/js/tracker.js:130-153 | the lines of a block are exactly the header, the rule, the section lines, the placeholder when no day is present, and the closing blank line |
| LogText.PlaceholderIffNoDay | static/js/tracker.js:147-149 | `(no exercises tracked)` appears if and only if none of the five days has a key |
| LogText.DayHeaderInSections | static/js/tracker.js:136-139 | a weekday's header is among the sections if and only if that day has a key |
| LogText.DayHeaderIff | static/js/tracker.js:136-139 | a weekday's header appears in the block if and only if that day has a key, even when the day has no exercises |
| LogText.DaySectionsInOrder | static/js/tracker.js:133-136 | for two present days i < j of monday..friday, the sections split as those before i, day i's own lines, those between, day j's own lines, and those after |
| LogText.WeekTextFrame | static/js/tracker.js:131-151 | every block opens with its header line and the rule, and ends with a blank line |
| LogText.Reverse | static/js/tracker.js:114 | `slice().reverse()` has the same length, and place k holds element n-1-k |
| LogText.ReverseConcatIsConcatMapReverse | static/js/tracker.js:114-116 | appending blocks walking from the last entry is formatting the reversed list from the front |
| LogText.ExportHeader | static/js/tracker.js:106-108 | definition of the export's first three lines and the blank line after them |
| LogText.ArchiveBlocks | static/js/tracker.js:113-116 | definition of the archive part as the blocks appended walking from the last entry to the first; ArchiveBlocksNewestFirst states its order |
| LogText.ExportText | static/js/tracker.js:102-116 | definition of the export text: header, current week's block, then the archive part |
| LogText.ExportFileName | static/js/tracker.js:123 | definition of the download name `winter-arc-log-<key>.txt` |
| LogText.ArchiveBlocksStep | static/js/tracker.js:114-116 | the archive text of a suffix is that of the shorter suffix followed by its first entry's block |
| LogText.ArchiveBlocksNewestFirst | static/js/tracker.js:113-116 | the archive part of the export is the entries newest first, each formatted as not current |
| Tracker.TrackerKey | static/js/tracker.js:7-9 | definition of `KEYS.tracker(week)`; StorageKeysDistinct states that these keys never collide |
| Tracker.StorageKeysDistinct | static/js/tracker.js:4-10 | the current-week key, the archive key and the tracker keys never collide, and distinct weeks get distinct tracker keys |
| Tracker.Load | static/js/tracker.js:23-30 | a stored value is readable exactly when it holds parsed JSON |
| Tracker.GetJSON | static/js/tracker.js:23-30 | getJSON returns the stored value when one can be read, and otherwise the fallback |
| Tracker.ArchiveOf | static/js/tracker.js:44 | definition of `getJSON(KEYS.ARCHIVE, [])`: the stored archive, or `[]` when it is absent or unreadable; RolloverAppendOnly and RolloverArchivesOldWeek state how it changes |
| Tracker.TrackerState | static/js/tracker.js:59-61 | definition of getTrackerState on the storage value: the week's stored object, or `{}` |
| Tracker.StoredFlagsReadBack | static/js/tracker.js:59-66 | in a well-formed store every stored exercise of a day reads back its own flag |
| Tracker.IsBoundary | static/js/tracker.js:41 | definition of `storedWeek && storedWeek !== currentWeek`: a non-empty stored week other than the current one; RolloverWithoutBoundary and RolloverArchivesOldWeek state both branches |
| Tracker.Rollover | static/js/tracker.js:37-57 | definition of ensureCurrentWeek's effect on the storage value; the Rollover lemmas below state its properties |
| Tracker.RolloverSetsCurrentWeek | static/js/tracker.js:55 | after ensureCurrentWeek the stored week is the current week, whatever the storage held |
| Tracker.RolloverIdempotent | static/js/tracker.js:37-57 | a second call in the same week changes nothing |
| Tracker.RolloverArchivesOldWeek | static/js/tracker.js:41-51 | on a week boundary with a non-empty old week, exactly one entry (old key, old data, time stamp) is appended, and earlier entries are unchanged |
| Tracker.RolloverRemovesOldTracker | static/js/tracker.js:41-52 | on a boundary the old week's tracker is removed, and no other week's tracker changes |
| Tracker.RolloverSkipsEmptyWeek | static/js/tracker.js:42-51 | a week without day keys is not archived, and a week with a day key is archived even when that day has no exercises |
| Tracker.RolloverWithoutBoundary | static/js/tracker.js:39-55 | with no stored week, an empty one or the same week, only the stored week is written |
| Tracker.RolloverAppendOnly | static/js/tracker.js:44-50 | the archive as read only grows at its end, by at most one entry |
| Tracker.RolloverKeepsCurrentTracker | static/js/tracker.js:41-52 | the current week's own tracker is never touched |
| Tracker.RolloverKeepsOneLive | static/js/tracker.js:37-57 | if every stored tracker belongs to the stored current week, that stays so |
| Tracker.RolloverWellFormed | static/js/tracker.js:37-57 | distinct exercise ids per day, in the archive and in the trackers, are preserved |
| Tracker.SetExercise | static/js/tracker.js:63-68 | definition of setExerciseState's effect on the storage value: the week's tracker becomes SetFlag of what getTrackerState read; SetExerciseSpec states its effect |
| Tracker.SetExerciseSpec | static/js/tracker.js:63-68 | the flag reads back and other exercises, days and keys are unchanged. Other weeks' trackers, the archive and the stored week are unchanged. An unreadable tracker starts from `{}`. |
| Tracker.SetExerciseKeepsOneLive | static/js/tracker.js:63-68 | writing to the current week keeps a single live tracker |
| Tracker.SetExerciseWellFormed | static/js/tracker.js:63-68 | distinct ids per day are preserved |
| Tracker.TrackerStore.GetTrackerState | static/js/tracker.js:59-61 | the week's stored object, or `{}` when it is absent or unreadable |
| Tracker.TrackerStore.RollOverTo | static/js/tracker.js:39-55 | the storage steps of ensureCurrentWeek leave exactly the rolled-over storage and keep ids distinct |
| Tracker.TrackerStore.EnsureCurrentWeek | static/js/tracker.js:37-57 | returns today's ISO week key and leaves exactly the rolled-over storage |
| Tracker.TrackerStore.SetExerciseState | static/js/tracker.js:63-68 | leaves exactly the storage with the one flag written, and the flag reads back |
| Tracker.TrackerStore.ExportLog | static/js/tracker.js:102-123 | the text is the title, the export line, the separator, the current week's block, then the archive blocks newest first; the file name is `winter-arc-log-<key>.txt` |

## Left out

- The page wiring of initTracker (lines 70-100), the week label and the checkbox listeners, because they are DOM work. Their effect on the store is the modelled ensureCurrentWeek, getTrackerState and setExerciseState.
- The download (Blob, object URL, the link click), because it is browser I/O. Only the text and file name are modelled.
- The wall clock. Today's local calendar date, `new Date().toISOString()` for `archivedAt` and `toLocaleString()` for the export line are parameters, and their formats are not modelled.
- Time zones and the local-to-UTC step, because the script copies the local year, month and day into a UTC date, which makes the week depend only on the local calendar date.
- Floating-point division and `Math.ceil`, because the millisecond difference of two UTC midnights is an exact multiple of 86400000. The model counts whole days.
- ECMAScript's time value range (about ±273790 years), because dates are unbounded here.
- JSON.stringify and JSON.parse, because a stored value is modelled as absent, unreadable (an empty string or text that does not parse), or holding a value of the expected shape.
- Stored values that parse to another shape (`null`, a number, an array where an object is expected), because the script would throw or misbehave on them.
- Storage failures (quota, disabled storage), because `setItem` errors are not caught by the script and are outside the model.
- WeekData.SetFlag, Tracker.TrackerStore.SetExerciseState: `if (!state[day])` tests the object's own and inherited properties, so a day called `constructor`, `toString` or `__proto__` finds an inherited value and is not created, and the flag is written onto that inherited value; an exercise id `__proto__` is ignored. The model treats every name as an own key and creates the entry, because the page only passes the five weekday names and its own fixed exercise ids.
- Integer-like exercise ids, which JavaScript orders before other keys regardless of insertion. The model keeps pure insertion order.
- Non-ASCII `toUpperCase`, because only ASCII letters are capitalised. The five day names are ASCII.
- Tracker.TrackerStore.EnsureCurrentWeek: returns and stores the corrected key GetCurrentWeekKey, not SourceWeekKey; for years -1..100 the script's key differs (see Findings).
- IsoWeek.WeekKeyShape: the `YYYY-Www` layout is stated only for four-digit ISO years. Other years print with fewer digits, more digits or a sign, as `String()` does.
- IsoWeek.WeekKeyRoundTrip: stated for week numbers of one or two digits, which covers 1..53, the only weeks IsoWeekOf returns.

## Findings

| source | as written | input that shows it | evidently intended | confidence | as-written member | corrected member |
|---|---|---|---|---|---|---|
| static/js/tracker.js:15-18 | `Date.UTC` reads a year from 0 to 99 as 1900 + year, both for the date and for January 1 of the Thursday's year | 0100-01-01: its Thursday lies in year 99, January 1 is taken from 1999, and the key is `99-W-99085` | the ISO week of the date itself, `99-W53` | not executed; only reachable with a clock set before year 100 | IsoWeek.SourceWeekOfYear100 | IsoWeek.IsoWeekOf |
