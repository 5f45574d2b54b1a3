# Farmer's almanac: day classifier, month grid, today picker and month navigation

This project is a Dafny model of the logic of a small farmer's-almanac web site.
Its core has four parts:

- **The build-time generator.** It walks every day from 2025-01-01 to
  2026-12-31 and writes one record per day. Each record holds the date's
  `YYYY-MM-DD` text and the moon-phase slug the phase library's label maps to.
  It also holds the traditional full-moon name, a US holiday if one falls on
  that day, a one-line note chosen by phase, and farming and business advice
  chosen by season and phase group.
- **The month calendar grid.** It lays out the cells of a month: one blank per
  weekday before the first, then one cell per day. Each day cell is joined to
  the record of its date. The grid also picks the subtitle a day cell shows.
- **The "today" strip.** It picks the record to feature, in this order: the
  selected date, else today, else the first day after today, else the last
  day. It also reads a date text back into year, month index and day.
- **The home page.** It sorts the records, groups them into `YYYY-MM` buckets,
  orders the month keys and clamps the current month index. It also moves to
  the previous or next month, stopping at the ends, and filters a month's
  records by the kind of advice they carry.

The JavaScript `Date` object is replaced by an explicit proleptic Gregorian
calendar (module `CivilDate`). A day count from 1970-01-01 gives both the
weekday and the order of dates. `new Date(year, monthIndex, 1)` and "day 0 of
the next month" are modelled with the rollover of out-of-range month indexes.

Module `JsRuntime` holds the JavaScript behaviour the core relies on:

- string `<` as the order of Dafny characters, which is code-point order; it
  agrees with JavaScript's code-unit order on text without characters
  outside the Basic Multilingual Plane, such as the ISO dates here
- `String(n)` and `padStart`
- `split` and `Number` on digit strings
- `||` on numbers
- `find`/`findIndex`, `indexOf` and `filter`
- a stable `sort`

Module `AlmanacDay` holds the record type and the phase-label table.

Imperative code in the source is imperative here:

- `eachDay`, the record loop of `main`, the `byDate` map and the two cell
  loops of the grid, and `groupByMonth` are methods with loops. Each is
  proved against a specification function or predicate.
- `getGuidance`, which fills empty lists with `push`, is a method that
  appends to local lists. It is proved equal to two table functions,
  `FarmingAdvice` and `BusinessAdvice`, written by phase first and season
  second.
- The page's in-place sort is an insertion sort on an `array`.
- The month navigation state is a class whose methods update the selected key.

Pure helpers are functions, with lemmas for what they promise.

Some facts of the code that the model keeps:

- The October full moon is "Hunter's Moon", as `FULL_MOON_NAMES` has it.
- A generated record has no `season` or `phaseGroup` field. Those two values
  only steer the advice and the note.
- The label of a slug missing from the phase table is the slug itself
  (`phaseLabels[slug] ?? slug`), not a fixed placeholder.

## Model

| member | source | states |
|---|---|---|
| GenerateAlmanac.MapPhaseName | scripts/generate-almanac.mjs:34-55 | Each of the eight library labels maps to the slug at its position in the slug table. The result is "unknown" exactly when the label is none of the eight. |
| GenerateAlmanac.MapPhaseNameInjective | scripts/generate-almanac.mjs:34-55 | Two different library labels never map to the same slug. |
| GenerateAlmanac.LabelOfLibraryPhase | src/components/TodayStrip.tsx:82 | The label shown for a generated record is the library's own phase name, with " Moon" after "New" and "Full". An unrecognised name shows as "unknown". |
| GenerateAlmanac.GetFullMoonName | scripts/generate-almanac.mjs:58-77 | A name is returned exactly when the slug is "full". It is then the entry of `FULL_MOON_NAMES` for the date's month. |
| GenerateAlmanac.GetHoliday | scripts/generate-almanac.mjs:80-104 | New Year's Day, Independence Day, Halloween and Christmas Day are each returned exactly on their own date. "Labor Day" is returned exactly on the first Monday of September, "Thanksgiving" exactly on the fourth Thursday of November and "Memorial Day" exactly on the last Monday of May. Nothing but these seven names is ever returned, so every other date has no holiday. |
| GenerateAlmanac.NthWeekdayOfMonth | scripts/generate-almanac.mjs:91-98 | The n-th given weekday of a month lies in days 7(n-1)+1..7n and falls on that weekday. |
| GenerateAlmanac.LastWeekdayOfMonth | scripts/generate-almanac.mjs:100-101 | The last given weekday of a month lies in its last seven days and falls on that weekday. |
| GenerateAlmanac.LaborDayRule | scripts/generate-almanac.mjs:91-92 | A Monday among the first seven days is exactly the first Monday. |
| GenerateAlmanac.ThanksgivingRule | scripts/generate-almanac.mjs:94-98 | A Thursday whose week number `floor((d - 1) / 7) + 1` is 4 is exactly the fourth Thursday. |
| GenerateAlmanac.MemorialDayRule | scripts/generate-almanac.mjs:100-101 | A Monday with `d + 7 > 31` in May is exactly the last Monday. |
| GenerateAlmanac.LaborDayOncePerSeptember | scripts/generate-almanac.mjs:91-92 | In every year, a September day is "Labor Day" if and only if it is the first Monday. |
| GenerateAlmanac.ThanksgivingOncePerNovember | scripts/generate-almanac.mjs:94-98 | In every year, a November day is "Thanksgiving" if and only if it is the fourth Thursday. |
| GenerateAlmanac.MemorialDayOncePerMay | scripts/generate-almanac.mjs:100-101 | In every year, a May day is "Memorial Day" if and only if it is the last Monday. |
| GenerateAlmanac.MoveableHolidays2025 | scripts/generate-almanac.mjs:91-101 | In 2025 the rules give Memorial Day on May 26, Labor Day on September 1 and Thanksgiving on November 27. November 20, the third Thursday, is no holiday. |
| GenerateAlmanac.MoveableHolidays2026 | scripts/generate-almanac.mjs:91-101 | In 2026 the rules give Memorial Day on May 25, Labor Day on September 7 and Thanksgiving on November 26. |
| GenerateAlmanac.GetSeason | scripts/generate-almanac.mjs:106-112 | Winter exactly for December to February, spring for March to May, summer for June to August and fall for September to November. |
| GenerateAlmanac.GetPhaseGroup | scripts/generate-almanac.mjs:114-123 | new maps to New and full to Full, each in both directions. Both quarters map to Quarter, the waxing slugs to Waxing and the waning slugs to Waning. "unknown" maps to Other, and Other is never the group of a known slug. |
| GenerateAlmanac.PhasePrefixes | scripts/generate-almanac.mjs:120-121 | The waxing slugs start with "waxing" and the waning slugs with "waning". Neither prefix matches a slug of the other kind or "unknown". |
| GenerateAlmanac.SeasonCrops | scripts/generate-almanac.mjs:131-141 | Every season has at least two crop entries. |
| GenerateAlmanac.AdviceShape | scripts/generate-almanac.mjs:143-220 | In the advice tables, the two bestFor lists are non-empty exactly for new, waxing, full and waning. The avoid lists are non-empty exactly in spring with new or waxing. |
| GenerateAlmanac.GetGuidance | scripts/generate-almanac.mjs:126-223 | The farming and business advice are, list by list, the entries of the tables `FarmingAdvice` and `BusinessAdvice` for the season and phase group. The crops depend on the season alone. Quarter and Other give four empty advice lists. |
| GenerateAlmanac.DayNotes | scripts/generate-almanac.mjs:238-255 | The note priority is: the new sentence exactly for "new", then the full sentence exactly for "full", then quarter, then waxing, then waning. Otherwise there is no note. |
| GenerateAlmanac.NotesForEveryKnownPhase | scripts/generate-almanac.mjs:238-255 | A day gets a note exactly when its slug is one of the eight known slugs. |
| GenerateAlmanac.BuildDay | scripts/generate-almanac.mjs:225-270 | The record built for a date and a library label has these fields: the date's text, the mapped slug, the full-moon name, the holiday, the note, the season's crops, and the farming and business advice of the table for the season and phase group. |
| GenerateAlmanac.DescribedDayFacts | scripts/generate-almanac.mjs:225-270 | Every generated record has a known slug or "unknown". "unknown" appears exactly for unlisted labels. A moon name appears exactly on full moons, and a note exactly for known slugs. Both advice blocks are present. |
| GenerateAlmanac.AddDaysNumber | scripts/generate-almanac.mjs:29 | Applying `setDate(getDate() + 1)` n times moves the date exactly n days forward. |
| GenerateAlmanac.DaysFromAt | scripts/generate-almanac.mjs:20-31 | The i-th day of a run is the start date moved i days forward. |
| GenerateAlmanac.DaysFromCovers | scripts/generate-almanac.mjs:20-31 | Every valid date from the start on, fewer than n days later, is among the first n days of the run. |
| GenerateAlmanac.RangeStep | scripts/generate-almanac.mjs:26 | The loop test `cur <= to` holds on the n-th day exactly when n is below the number of days in the range. |
| GenerateAlmanac.EachDay | scripts/generate-almanac.mjs:20-31 | The dates yielded are the consecutive days from `from` to `to`, inclusive and in order. Every valid date between them is among them. |
| GenerateAlmanac.BuildDays | scripts/generate-almanac.mjs:277-280 | The loop builds one record per date, in the order of the dates, each as `buildDay` describes it. |
| GenerateAlmanac.GenerateRange | scripts/generate-almanac.mjs:272-280 | Over any range, `main` yields one record per day, and the i-th record describes the i-th day. |
| GenerateAlmanac.AlmanacSpan | scripts/generate-almanac.mjs:274-275 | 2026-12-31 is 729 days after 2025-01-01. |
| GenerateAlmanac.AlmanacDayInYears | scripts/generate-almanac.mjs:274-278 | Each of the 730 days of the range falls in 2025 or 2026. |
| GenerateAlmanac.AlmanacIndex | scripts/generate-almanac.mjs:274-280 | Every valid date of 2025 or 2026 is the i-th day of the range for some i below 730. |
| GenerateAlmanac.AlmanacLastDay | scripts/generate-almanac.mjs:275 | The 730th day of the range is 2026-12-31. |
| GenerateAlmanac.AlmanacDatesAscend | scripts/generate-almanac.mjs:13-18 | The texts of later days in the range are strictly greater as strings. |
| GenerateAlmanac.AlmanacFromText | scripts/generate-almanac.mjs:274 | The first day's text is "2025-01-01". |
| GenerateAlmanac.AlmanacToText | scripts/generate-almanac.mjs:275 | The last day's text is "2026-12-31". |
| GenerateAlmanac.GenerateAlmanac2025To2026 | scripts/generate-almanac.mjs:272-285 | `main` writes 730 records, from "2025-01-01" to "2026-12-31", with strictly ascending date texts. Every date of 2025 and 2026 has its record, built as `buildDay` describes, advice lists included. |
| CivilDate.DaysInMonth | src/components/MonthCalendarGrid.tsx:43 | A month has 28 to 31 days. February has 29 exactly in leap years, and among the other months exactly April, June, September and November have 30. |
| CivilDate.MonthStart | src/components/MonthCalendarGrid.tsx:42 | `new Date(year, monthIndex, 1)` is a valid first of a month. For a year outside 0..99 and a month index in 0..11, it is that year and month. |
| CivilDate.MonthLength | src/components/MonthCalendarGrid.tsx:43 | `daysInMonth` is between 28 and 31. |
| CivilDate.MonthLengthIsDayZero | src/components/MonthCalendarGrid.tsx:43 | The day after day `daysInMonth` is the first of the next month, which is what "day 0 of the next month" reads. |
| CivilDate.Weekday | src/components/MonthCalendarGrid.tsx:42 | `getDay()` lies in 0..6. |
| CivilDate.WeekdayShift | scripts/generate-almanac.mjs:83 | The weekday of day d is the weekday of the first, moved d-1 places modulo 7. |
| CivilDate.NextDay | scripts/generate-almanac.mjs:29 | Adding one to the day of the month, with rollover, gives a valid date. |
| CivilDate.NextDayNumber | scripts/generate-almanac.mjs:29 | The rolled-over date is exactly one day later. |
| CivilDate.DayNumberOrder | scripts/generate-almanac.mjs:26 | On valid dates, the day count orders exactly as the calendar does, and equal counts mean equal dates. |
| CivilDate.FourDigitYear | scripts/generate-almanac.mjs:14 | The text of a year from 1000 to 9999 is its four digits. |
| CivilDate.TwoDigits | scripts/generate-almanac.mjs:15-16 | `String(n).padStart(2, '0')` is the two-digit field of n, for n from 1 to 99. |
| CivilDate.LocalIsoFields | scripts/generate-almanac.mjs:13-18 | With a four-digit year, `toLocalIso` is three fixed-width digit fields joined by '-'. |
| CivilDate.LocalIsoOrder | scripts/generate-almanac.mjs:13-18 | With four-digit years, comparing two date texts as strings is comparing the dates. |
| AlmanacDay.PhaseLabel | src/components/TodayStrip.tsx:82 | A slug in the table gets its own table label, which differs from the slug. A slug that is neither in the table nor an inherited object member is shown as itself. |
| AlmanacDay.PhaseLabelInjective | src/components/TodayStrip.tsx:3-12 | Different known slugs have different labels. |
| MonthCalendarGrid.FirstWeekday | src/components/MonthCalendarGrid.tsx:42 | `firstWeekday` lies in 0..6. |
| MonthCalendarGrid.LastIndexOfDate | src/components/MonthCalendarGrid.tsx:45-46 | This is the position of a record with the date, or -1, and no record after it has that date. |
| MonthCalendarGrid.LastWithDate | src/components/MonthCalendarGrid.tsx:45-46 | The map holds nothing under a date exactly when no record has it. Otherwise it holds a record of `days` with that date. |
| MonthCalendarGrid.LastWithDateSnoc | src/components/MonthCalendarGrid.tsx:46 | A later `set` of a record wins under its date and changes no other date. |
| MonthCalendarGrid.IndexByDate | src/components/MonthCalendarGrid.tsx:45-46 | For every date, the built map's lookup is the last record with that date, or nothing. |
| MonthCalendarGrid.LayOutCells | src/components/MonthCalendarGrid.tsx:48-57 | The two loops produce `firstWeekday` blanks followed by the day cells 1..daysInMonth. |
| MonthCalendarGrid.BuildMonthGrid | src/components/MonthCalendarGrid.tsx:42-57 | The cells are those of the month that `new Date(year, monthIndex, 1)` begins. |
| MonthCalendarGrid.BlankCellAt | src/components/MonthCalendarGrid.tsx:50-52 | Each cell before the first weekday has neither a day number nor an entry. |
| MonthCalendarGrid.DayCellAt | src/components/MonthCalendarGrid.tsx:54-57 | The cell `firstWeekday + day - 1` has day number `day` and the map's record for `isoDate(year, monthIndex, day)`. |
| MonthCalendarGrid.GridLength | src/components/MonthCalendarGrid.tsx:42-57 | There are exactly `firstWeekday + daysInMonth` cells, with no padding after the last day. |
| MonthCalendarGrid.GridBlanks | src/components/MonthCalendarGrid.tsx:50-52 | All cells before the first weekday are blank. |
| MonthCalendarGrid.GridDayNumbers | src/components/MonthCalendarGrid.tsx:54-57 | After the blanks, the day numbers run 1..daysInMonth consecutively. |
| MonthCalendarGrid.GridColumnIsWeekday | src/components/MonthCalendarGrid.tsx:42-57 | Each day cell's column (its position modulo 7) is the weekday of that date. |
| MonthCalendarGrid.GridEntry | src/components/MonthCalendarGrid.tsx:55-56 | A day cell's entry is empty exactly when no record has the date. Otherwise it is an input record with that date. |
| MonthCalendarGrid.IsoDateDayInjective | src/components/MonthCalendarGrid.tsx:29-33 | Different days of one month have different `isoDate` texts. |
| MonthCalendarGrid.GridPlacesRecord | src/components/MonthCalendarGrid.tsx:45-56 | With one record per date, a record of the month shows in the cell of its day. |
| MonthCalendarGrid.GridPlacesRecordOnce | src/components/MonthCalendarGrid.tsx:54-57 | Two day cells holding the same record are the same day, so no record shows twice. |
| MonthCalendarGrid.CellSubtitle | src/components/MonthCalendarGrid.tsx:77-84 | The subtitle is the holiday if truthy, else the moon name if truthy, else the phase label. It is empty when there is no entry. |
| MonthCalendarGrid.SubtitleOfGeneratedDay | src/components/MonthCalendarGrid.tsx:77-84 | On a generated record the subtitle is the holiday if any, else the month's full-moon name on a full moon, else the phase label. It is never empty. |
| TodayStrip.ParseIso | src/components/TodayStrip.tsx:26-29 | Each of year, month index and day is a finite number exactly when its field is present and all digits. |
| TodayStrip.ParseIsoFields | src/components/TodayStrip.tsx:26-29 | A text of three '-'-free fields reads as the numbers of the fields, with the month minus one. |
| CivilDate.IsoDateFields | src/components/MonthCalendarGrid.tsx:29-33 | `isoDate` is the year's digits, then "-", the two-digit month index + 1, "-" and the two-digit day. |
| TodayStrip.ParseIsoInvertsIsoDate | src/components/TodayStrip.tsx:26-37 | `parseIso` reads the text of (year, monthIndex, day) back as those three numbers. |
| TodayStrip.ParseIsoOfLocalIso | src/components/TodayStrip.tsx:26-37 | The text of a valid date reads back as its year, month - 1 and day. |
| TodayStrip.SortedCopy | src/components/TodayStrip.tsx:46 | The copy is sorted by date and is a permutation of the records. The input is left as it was. |
| TodayStrip.PositionInSorted | src/components/TodayStrip.tsx:46 | Every record has a position in the sorted copy. |
| TodayStrip.Find | src/components/TodayStrip.tsx:49 | `find` succeeds exactly when some record satisfies the test, and then gives the first such record. |
| TodayStrip.PickEntry | src/components/TodayStrip.tsx:40-62 | The pick is null exactly when there are no records. Otherwise it is one of the records. |
| TodayStrip.PickSelected | src/components/TodayStrip.tsx:48-51 | When a record has the selected date, a record of that date is picked. With distinct dates it is that very record. |
| TodayStrip.PickToday | src/components/TodayStrip.tsx:53-56 | Failing that, when a record is dated today, a record of today is picked. With distinct dates it is that very record. |
| TodayStrip.FirstAfterIsEarliest | src/components/TodayStrip.tsx:58 | The first record after today in the sorted copy has the earliest date after today. |
| TodayStrip.PickNextFuture | src/components/TodayStrip.tsx:58-59 | Failing both, when some record is dated after today, the pick is dated after today and no later than any such record. |
| TodayStrip.NoDateInSorted | src/components/TodayStrip.tsx:55 | A date no record has is not found in the sorted copy. |
| TodayStrip.PickFallsToLast | src/components/TodayStrip.tsx:61 | When all three tests fail, the pick is the last record of the sorted copy. |
| TodayStrip.SortedLastIsLatest | src/components/TodayStrip.tsx:61 | The last record of the sorted copy has the largest date. |
| TodayStrip.PickLast | src/components/TodayStrip.tsx:61 | When all three tests fail, the record with the largest date is picked. |
| HomePage.SortByDate | src/app/page.tsx:31-37 | After the in-place sort, the array is in ascending date order and is a permutation of what it held. |
| HomePage.TextOrderIsTimeOrder | src/app/page.tsx:33-35 | For dates with four-digit years, string order on the texts is timestamp order. |
| HomePage.MonthKey | src/app/page.tsx:14-15 | The bucket key is 7 characters long. For a `YYYY-MM-DD` text it is the `YYYY-MM` prefix. |
| HomePage.GroupBy | src/app/page.tsx:12-20 | The keys are listed once each, in order of first use (`KeysInFirstUse`). A key exists exactly when some record has it, and each bucket is the filter of the records with its key. |
| HomePage.KeysInFirstUseMembers | src/app/page.tsx:16 | The keys listed in order of first use are exactly the keys of the records. |
| HomePage.FirstUseOrder | src/app/page.tsx:16 | A key listed earlier is used earlier: every record with a later-listed key comes after some record with the earlier one. |
| HomePage.GroupByMonth | src/app/page.tsx:12-20 | A bucket exists exactly for the month keys of the records, and the keys are in order of first use. Each bucket holds exactly its month's records, in their original order. |
| HomePage.GroupPush | src/app/page.tsx:16-17 | One push keeps the accumulator describing the records seen so far. |
| HomePage.GroupPushKeys | src/app/page.tsx:16 | Making a missing bucket adds its key once, at the end. |
| HomePage.GroupPushBuckets | src/app/page.tsx:17 | The record's own bucket gains it at the end, and the other buckets stay as they were. |
| HomePage.GroupStep | src/app/page.tsx:17 | Appending a record extends the filter of its own key and leaves the filters of all other keys unchanged. |
| HomePage.FilterNone | src/app/page.tsx:16 | A key no record has so far starts from an empty bucket. |
| HomePage.GroupPartitions | src/app/page.tsx:12-20 | Each record is in the bucket of its own key and in no other bucket. |
| HomePage.MonthKeys | src/app/page.tsx:40-43 | The sorted keys are strictly ascending, are exactly the bucket keys, and lose and repeat none. |
| HomePage.CurrentIndex | src/app/page.tsx:49-52 | The index lies in [0, length-1] for non-empty keys. A known selected key gives its own index, and an unknown one gives 0. |
| HomePage.CurrentKey | src/app/page.tsx:53 | The key is "" with no months, otherwise one of the keys. It is the selected key when that is listed. |
| HomePage.CurrentYear | src/app/page.tsx:54-55 | The year is the clock's year or a positive number read from the key. |
| HomePage.CurrentMonthIndex | src/app/page.tsx:54-56 | The month index is never negative. |
| HomePage.KeyFieldsOfMonthKey | src/app/page.tsx:54-56 | A well-formed `YYYY-MM` key reads back as its year and as month - 1, which lies in 0..11. |
| HomePage.FourDigitLead | src/app/page.tsx:15 | A year from 1000 to 9999 has no leading zero in its four-digit text. |
| HomePage.ShapedText | src/app/page.tsx:14-15 | The text of a date with a four-digit year is `YYYY-MM-DD` shaped, and its first seven characters are the year and the month. |
| HomePage.MonthKeyOfLocalIso | src/app/page.tsx:14-15 | A generated record's bucket key is its year and two-digit month. |
| HomePage.FilterMonthDays | src/app/page.tsx:59-64 | "all" returns the month's records unchanged. "farming" is exactly `filter` by `!!d.farming` and "business" exactly `filter` by `!!d.business`: an order-preserving subsequence that keeps every record carrying that advice, as many times as it occurs, and no other. |
| HomePage.BaseMonthDaysOfGroupByMonth | src/app/page.tsx:58 | With the buckets `groupByMonth` builds, the month's records are exactly the records whose key is the current key, in their order, and none when no record has it. |
| HomePage.MonthNavigator.constructor | src/app/page.tsx:45-47 | The selected key starts as the first month key, or "" when there are none. |
| HomePage.MonthNavigator.GoPrevMonth | src/app/page.tsx:66-69 | At index 0 nothing changes. Otherwise the month before is selected. |
| HomePage.MonthNavigator.GoNextMonth | src/app/page.tsx:71-74 | At the last index nothing changes. Otherwise the month after is selected. |
| HomePage.MonthNavigator.SelectMonth | src/app/page.tsx:120 | The "Jump to" choice becomes the selected key. |
| HomePage.StepIndex | src/app/page.tsx:66-74 | With distinct keys, a step back moves the index by exactly -1 and a step forward by exactly +1. |
| JsRuntime.StrLessIrreflexive | src/components/TodayStrip.tsx:58 | No string is less than itself under `<`. |
| JsRuntime.StrLessTransitive | src/components/TodayStrip.tsx:58 | String `<` is transitive. |
| JsRuntime.StrLessTotal | src/app/page.tsx:41 | Any two different strings are ordered one way or the other by `<`. |
| JsRuntime.StrLessConcat | scripts/generate-almanac.mjs:17 | Comparing texts that start with fields of equal length compares the fields first and the rest only on a tie. |
| JsRuntime.PadStart | scripts/generate-almanac.mjs:15-16 | `padStart` gives a text of length max(width, length), ending with the original and filled before it. |
| JsRuntime.IntToStringRoundTrip | scripts/generate-almanac.mjs:14-16 | `Number(String(n))` is n for every n that is not negative. A negative n is written with a leading '-'. |
| JsRuntime.NumberOfDigits | src/app/page.tsx:55-56 | `Number` reads the fixed-width digits of n back as n. |
| JsRuntime.Number | src/app/page.tsx:55-56 | `Number` of a text is finite exactly when the text is all digits, and is then not negative. |
| JsRuntime.Split | src/components/TodayStrip.tsx:27 | `split` always returns at least one field. |
| JsRuntime.SplitJoin | src/app/page.tsx:54 | The fields of `split` hold no separator, and joining them with it gives the text back. |
| JsRuntime.SplitAt | src/components/TodayStrip.tsx:27 | A text that starts with a separator-free field and a separator splits into that field and the split of the rest. |
| JsRuntime.MapGet | src/components/MonthCalendarGrid.tsx:56 | `get` finds a value exactly when the key is present, and it is the stored value. |
| JsRuntime.FindIndex | src/components/TodayStrip.tsx:49 | The index is the first position satisfying the test, or -1 when none does. |
| JsRuntime.IndexOf | src/app/page.tsx:50 | The index is the first position of the value, and -1 exactly when it is absent. |
| JsRuntime.IndexOfDistinct | src/app/page.tsx:50 | In a list without repeats, `indexOf` of the k-th element is k. |
| JsRuntime.Filter | src/app/page.tsx:62-64 | `filter` gives an order-preserving subsequence of elements that pass, and keeps every element that passes. |
| JsRuntime.FilterAppend | src/app/page.tsx:62-64 | Filtering a list with one more element appends that element exactly when it passes. |
| JsRuntime.SortBy | src/app/page.tsx:41 | The sorted list is in ascending key order and is a permutation of the input. |

## Left out

- The phase library (`Moon.lunarPhase`) is foreign astronomical code. Its label for a date is a function parameter `lunarPhase: Date -> string`.
- Writing the JSON file, the output path and the console message are I/O and not modelled. So is the page's import of that file: the page functions take the records as input.
- The wall clock is not modelled. "Today" (`isoToday`) is a string parameter of the picker, and the clock's year in `currentYear` is an integer parameter.
- `toLocaleDateString` (month labels, the strip's date label) has locale-dependent output and is not modelled. Neither is `monthLabelFromKey`.
- Rendering is not modelled: JSX, class names, the weekday header, selection highlighting, the phase image map, the strip's first-advice lines, `DayCard` and `MonthGrid`.
- React's `useState`/`useMemo` are not modelled as such. The selected month is a plain field of `MonthNavigator`, and the derived values are functions of it.
- `REGION`, `sign: null` and `eclipse: null` are constants without behaviour. They are not fields of the record.
- Time zones are not modelled. A `Date` here is always a whole civil day.
- HomePage.MonthKey: reads the `YYYY-MM` prefix of a `YYYY-MM-DD` text, which is what `new Date(text)` gives in UTC. West of UTC, reading the local fields would move each month's first day into the month before; the model does not capture that. Texts of another shape and years below 1000 are given the key "NaN-NaN" rather than what `Date` would make of them. A day of 29 to 31 that is past its month's end, as in "2025-02-30", passes the shape test and gets its own `YYYY-MM` prefix; JavaScript engines differ on such texts (some roll over into the next month, some give an invalid date), and the model follows neither.
- HomePage.SortByDate: the comparator subtracts timestamps. The model compares the date texts as strings instead. `TextOrderIsTimeOrder` proves the two orders agree for four-digit years. Stability of the engine's sort is not claimed.
- TodayStrip.SortedCopy: `localeCompare` is modelled as Dafny's character order (code points). On `YYYY-MM-DD` texts (digits and '-') the two agree.
- TodayStrip.ParseIsoInvertsIsoDate: stated for years that are not negative and for month and day numbers up to 99. A negative year puts a '-' into the text, and `split` then sees an extra field.
- JsRuntime `Number` is modelled on the strings the core feeds it: a digit string reads as its value, "" as 0, and anything else as NaN. Whitespace, signs, decimals and exponents are not modelled. A field missing from `split` (`undefined`) reads as NaN.
- HomePage.CurrentYear: for an arbitrary key, only states that the year is the clock's year or positive. The exact reading of a well-formed key is `KeyFieldsOfMonthKey`.
- MonthCalendarGrid.BuildMonthGrid: the calendar here has no upper or lower year limit, while JavaScript's `Date` is invalid beyond about 275,000 years from 1970; the page's `(Number(monthStr) || 1) - 1` and `Number(yearStr) || new Date().getFullYear()` never give NaN, so no other input is left uncovered.
- HomePage.GroupPartitions: stated for any key function whose buckets are the filters of the records, as `GroupByMonth` guarantees for the month key.
- AlmanacDay.PhaseLabel: `phaseLabels` is an object literal, so a slug naming an inherited member (`toString`, `constructor`, `__proto__` and the like) would show that member rather than the slug. The model treats such slugs as absent from the table and shows the slug. Generated records never carry one: their slug is one of the eight or "unknown".
