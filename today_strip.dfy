/** The "today" strip: which record it shows, and how it reads a date text
    back into its fields. The wall clock is a parameter: `todayIso` is the
    text `isoToday()` would build. */
module TodayStrip {
  import opened JsRuntime
  import opened CivilDate
  import opened AlmanacDay

  // ---------------------------------------------------------------------
  // parseIso
  // ---------------------------------------------------------------------

  /** `{ year, monthIndex, day }` as `parseIso` returns them; a field that
      does not read as a number is NaN. */
  datatype ParsedIso = ParsedIso(year: JsNumber, monthIndex: JsNumber, day: JsNumber)

  /** The i-th field of `split("-").map(Number)`, NaN when there is none. */
  function FieldNumber(parts: seq<string>, i: nat): (n: JsNumber)
    ensures i < |parts| ==> n == Number(parts[i])
    ensures i >= |parts| ==> n.NaN?
  {
    if i < |parts| then Number(parts[i]) else NaN
  }

  /** `parseIso`: split on '-', read each field as a number, month minus one. */
  function ParseIso(dateStr: string): (p: ParsedIso)
    ensures var parts := Split(dateStr, '-');
      && (p.year.Finite? <==> AllDigits(parts[0]))
      && (p.monthIndex.Finite? <==> |parts| >= 2 && AllDigits(parts[1]))
      && (p.day.Finite? <==> |parts| >= 3 && AllDigits(parts[2]))
  {
    var parts := Split(dateStr, '-');
    ParsedIso(FieldNumber(parts, 0), Pred(FieldNumber(parts, 1)), FieldNumber(parts, 2))
  }

  /** A string of digits has no '-'. */
  lemma DigitsHaveNoDash(s: string)
    requires AllDigits(s)
    ensures '-' !in s
  {
    forall i | 0 <= i < |s|
      ensures s[i] != '-'
    {
      assert IsDigit(s[i]);
    }
  }

  /** `parseIso` reads the three '-'-free fields of a text as numbers. */
  lemma ParseIsoFields(y: string, m: string, d: string)
    requires '-' !in y && '-' !in m && '-' !in d
    ensures ParseIso(y + "-" + m + "-" + d) == ParsedIso(Number(y), Pred(Number(m)), Number(d))
  {
    assert y + "-" + m + "-" + d == y + ['-'] + (m + ['-'] + d);
    SplitAt(y, '-', m + ['-'] + d);
    SplitAt(m, '-', d);
    SplitNoSeparator(d, '-');
  }

  /** `parseIso` inverts `isoDate`/`isoToday`: the text of (year, monthIndex,
      day) reads back as those three numbers, for any year that is not
      negative and any month and day that fit in two digits. */
  lemma ParseIsoInvertsIsoDate(year: int, monthIndex: int, day: int)
    requires 0 <= year && 0 <= monthIndex <= 98 && 1 <= day <= 99
    ensures ParseIso(IsoDate(year, monthIndex, day))
            == ParsedIso(Finite(year), Finite(monthIndex), Finite(day))
  {
    var y := Digits(year, NumDigits(year));
    var m, d := Digits(monthIndex + 1, 2), Digits(day, 2);
    IsoDateFields(year, monthIndex, day);
    DigitsHaveNoDash(y);
    DigitsHaveNoDash(m);
    DigitsHaveNoDash(d);
    ParseIsoFields(y, m, d);
    NumberOfDigits(year, NumDigits(year));
    assert Pow10(2) == 100;
    NumberOfDigits(monthIndex + 1, 2);
    NumberOfDigits(day, 2);
  }

  /** For a date of the model, the strip reads back the date's own fields. */
  lemma ParseIsoOfLocalIso(date: Date)
    requires Valid(date) && 0 <= date.year
    ensures ParseIso(ToLocalIso(date))
            == ParsedIso(Finite(date.year), Finite(date.month - 1), Finite(date.day))
  {
    ParseIsoInvertsIsoDate(date.year, date.month - 1, date.day);
  }

  // ---------------------------------------------------------------------
  // pickEntry
  // ---------------------------------------------------------------------

  /** `[...days].sort((a, b) => a.date.localeCompare(b.date))`: a sorted copy. */
  function SortedCopy(days: seq<DayRecord>): (sorted: seq<DayRecord>)
    ensures SortedBy(sorted, DateKey)
    ensures multiset(sorted) == multiset(days)
    ensures |sorted| == |days|
    ensures forall x :: x in sorted <==> x in days
  {
    var sorted := SortBy(days, DateKey);
    assert |sorted| == |multiset(sorted)| == |multiset(days)| == |days|;
    assert forall x :: x in sorted <==> x in multiset(sorted);
    sorted
  }

  /** The `find` callbacks of `pickEntry`: dated exactly `date`, and dated
      after `todayIso`. */
  function IsDated(date: string): DayRecord -> bool
  {
    (d: DayRecord) => d.date == date
  }

  function IsAfter(todayIso: string): DayRecord -> bool
  {
    (d: DayRecord) => StrLess(todayIso, d.date)
  }

  /** Where a record sits in the sorted copy. */
  lemma PositionInSorted(days: seq<DayRecord>, k: int) returns (j: int)
    requires 0 <= k < |days|
    ensures 0 <= j < |days| && SortedCopy(days)[j] == days[k]
  {
    var sorted := SortedCopy(days);
    assert days[k] in sorted;
    j :| 0 <= j < |sorted| && sorted[j] == days[k];
  }

  /** `sorted.find(p)`. */
  function Find(sorted: seq<DayRecord>, p: DayRecord -> bool): (r: Option<DayRecord>)
    ensures r.Some? <==> exists k :: 0 <= k < |sorted| && p(sorted[k])
    ensures r.Some? ==> r.value == sorted[FindIndex(sorted, p)]
  {
    var i := FindIndex(sorted, p);
    if i >= 0 then Some(sorted[i]) else None
  }

  /** `pickEntry(days, selectedDate)` with `todayIso` for `isoToday()`: the
      selected date's record, else today's, else the first after today,
      else the last. */
  function PickEntry(days: seq<DayRecord>, selectedDate: Option<string>, todayIso: string)
    : (entry: Option<DayRecord>)
    ensures entry.None? <==> |days| == 0
    ensures entry.Some? ==> entry.value in days
  {
    if |days| == 0 then None
    else
      var sorted := SortedCopy(days);
      var selectedMatch := if Truthy(selectedDate) then Find(sorted, IsDated(selectedDate.value)) else None;
      if selectedMatch.Some? then selectedMatch
      else
        var todayMatch := Find(sorted, IsDated(todayIso));
        if todayMatch.Some? then todayMatch
        else
          var nextFuture := Find(sorted, IsAfter(todayIso));
          if nextFuture.Some? then nextFuture
          else Some(sorted[|sorted| - 1])
  }

  predicate HasDate(days: seq<DayRecord>, date: string)
  {
    exists k :: 0 <= k < |days| && days[k].date == date
  }

  /** The records have one date each, as the generator writes them. */
  predicate DistinctDates(days: seq<DayRecord>)
  {
    forall i, j :: 0 <= i < j < |days| ==> days[i].date != days[j].date
  }

  /** Among records with distinct dates, a record is known by its date. */
  lemma RecordOfDate(days: seq<DayRecord>, r: DayRecord, k: int)
    requires DistinctDates(days) && r in days && 0 <= k < |days| && r.date == days[k].date
    ensures r == days[k]
  {
    var i :| 0 <= i < |days| && days[i] == r;
  }

  /** A selected date with a record picks a record of that date: that record
      itself when dates are distinct. */
  lemma PickSelected(days: seq<DayRecord>, selectedDate: string, todayIso: string, k: int)
    requires selectedDate != "" && 0 <= k < |days| && days[k].date == selectedDate
    ensures var entry := PickEntry(days, Some(selectedDate), todayIso);
      && entry.Some? && entry.value.date == selectedDate
      && (DistinctDates(days) ==> entry.value == days[k])
  {
    var j := PositionInSorted(days, k);
    var entry := PickEntry(days, Some(selectedDate), todayIso);
    if DistinctDates(days) {
      RecordOfDate(days, entry.value, k);
    }
  }

  /** With no record for the selected date (or none selected), today's record
      is picked when there is one. */
  lemma PickToday(days: seq<DayRecord>, selectedDate: Option<string>, todayIso: string, k: int)
    requires !(Truthy(selectedDate) && HasDate(days, selectedDate.value))
    requires 0 <= k < |days| && days[k].date == todayIso
    ensures var entry := PickEntry(days, selectedDate, todayIso);
      && entry.Some? && entry.value.date == todayIso
      && (DistinctDates(days) ==> entry.value == days[k])
  {
    var j := PositionInSorted(days, k);
    if Truthy(selectedDate) {
      NoDateInSorted(days, selectedDate.value);
    }
    var entry := PickEntry(days, selectedDate, todayIso);
    if DistinctDates(days) {
      RecordOfDate(days, entry.value, k);
    }
  }

  /** The earliest record after today is the first one after today in the
      sorted copy. */
  lemma FirstAfterIsEarliest(days: seq<DayRecord>, todayIso: string)
    requires exists k :: 0 <= k < |days| && StrLess(todayIso, days[k].date)
    ensures var sorted := SortedCopy(days);
      var i := FindIndex(sorted, IsAfter(todayIso));
      && 0 <= i
      && StrLess(todayIso, sorted[i].date)
      && forall k :: 0 <= k < |days| && StrLess(todayIso, days[k].date) ==>
           StrLessEq(sorted[i].date, days[k].date)
  {
    var sorted := SortedCopy(days);
    var p := IsAfter(todayIso);
    var k0 :| 0 <= k0 < |days| && p(days[k0]);
    var j0 := PositionInSorted(days, k0);
    var i := FindIndex(sorted, p);
    forall k | 0 <= k < |days| && p(days[k])
      ensures StrLessEq(sorted[i].date, days[k].date)
    {
      var j := PositionInSorted(days, k);
      assert i <= j;
      if i < j {
        assert DateKey(sorted[i]) == sorted[i].date && DateKey(sorted[j]) == sorted[j].date;
      }
    }
  }

  /** With no selected record and none for today, the earliest record dated
      after today is picked. */
  lemma PickNextFuture(days: seq<DayRecord>, selectedDate: Option<string>, todayIso: string)
    requires !(Truthy(selectedDate) && HasDate(days, selectedDate.value))
    requires !HasDate(days, todayIso)
    requires exists k :: 0 <= k < |days| && StrLess(todayIso, days[k].date)
    ensures var entry := PickEntry(days, selectedDate, todayIso);
      && entry.Some?
      && StrLess(todayIso, entry.value.date)
      && forall k :: 0 <= k < |days| && StrLess(todayIso, days[k].date) ==>
           StrLessEq(entry.value.date, days[k].date)
  {
    var sorted := SortedCopy(days);
    if Truthy(selectedDate) {
      NoDateInSorted(days, selectedDate.value);
    }
    NoDateInSorted(days, todayIso);
    FirstAfterIsEarliest(days, todayIso);
  }

  /** A `find` for a date no record has fails on the sorted copy too. */
  lemma NoDateInSorted(days: seq<DayRecord>, date: string)
    requires !HasDate(days, date)
    ensures Find(SortedCopy(days), IsDated(date)).None?
  {
    var sorted := SortedCopy(days);
    forall j | 0 <= j < |sorted|
      ensures sorted[j].date != date
    {
      assert sorted[j] in days;
    }
  }

  /** With no selected record, none for today and none after today, the
      last record of the sorted copy is picked. */
  lemma PickFallsToLast(days: seq<DayRecord>, selectedDate: Option<string>, todayIso: string)
    requires |days| > 0
    requires !(Truthy(selectedDate) && HasDate(days, selectedDate.value))
    requires !HasDate(days, todayIso)
    requires forall k :: 0 <= k < |days| ==> !StrLess(todayIso, days[k].date)
    ensures PickEntry(days, selectedDate, todayIso) == Some(SortedCopy(days)[|days| - 1])
  {
    var sorted := SortedCopy(days);
    if Truthy(selectedDate) {
      NoDateInSorted(days, selectedDate.value);
    }
    NoDateInSorted(days, todayIso);
    forall j | 0 <= j < |sorted|
      ensures !StrLess(todayIso, sorted[j].date)
    {
      assert sorted[j] in days;
    }
  }

  /** The last record of the sorted copy has the latest date. */
  lemma SortedLastIsLatest(days: seq<DayRecord>)
    requires |days| > 0
    ensures forall k :: 0 <= k < |days| ==> StrLessEq(days[k].date, SortedCopy(days)[|days| - 1].date)
  {
    var sorted := SortedCopy(days);
    var last := |sorted| - 1;
    forall k | 0 <= k < |days|
      ensures StrLessEq(days[k].date, sorted[last].date)
    {
      var j := PositionInSorted(days, k);
      if j < last {
        assert DateKey(sorted[j]) == sorted[j].date && DateKey(sorted[last]) == sorted[last].date;
      }
    }
  }

  /** With no selected record, none for today and none after today, the
      record with the latest date is picked. */
  lemma PickLast(days: seq<DayRecord>, selectedDate: Option<string>, todayIso: string)
    requires |days| > 0
    requires !(Truthy(selectedDate) && HasDate(days, selectedDate.value))
    requires !HasDate(days, todayIso)
    requires forall k :: 0 <= k < |days| ==> !StrLess(todayIso, days[k].date)
    ensures var entry := PickEntry(days, selectedDate, todayIso);
      entry.Some? && forall k :: 0 <= k < |days| ==> StrLessEq(days[k].date, entry.value.date)
  {
    PickFallsToLast(days, selectedDate, todayIso);
    SortedLastIsLatest(days);
  }
}
