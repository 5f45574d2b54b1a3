/** The month calendar: blank cells up to the weekday of the first, then one
    cell per day of the month joined to the record of that date, and the
    one-line subtitle a day cell shows. */
module MonthCalendarGrid {
  import opened JsRuntime
  import opened CivilDate
  import opened AlmanacDay
  import opened GenerateAlmanac

  /** A grid cell: a blank has neither a day number nor an entry. */
  datatype Cell = Cell(dayNumber: Option<int>, entry: Option<DayRecord>)

  const Blank := Cell(None, None)

  /** `new Date(year, monthIndex, 1).getDay()`. */
  function FirstWeekday(year: int, monthIndex: int): (w: int)
    ensures 0 <= w < 7
  {
    Weekday(MonthStart(year, monthIndex))
  }

  /** The position of the last record dated `key`, or -1 when none is: no
      record after it carries that date. */
  function LastIndexOfDate(days: seq<DayRecord>, key: string): (i: int)
    ensures -1 <= i < |days|
    ensures 0 <= i ==> days[i].date == key
    ensures forall j :: i < j < |days| ==> days[j].date != key
  {
    if days == [] then -1
    else if days[|days| - 1].date == key then |days| - 1
    else LastIndexOfDate(days[..|days| - 1], key)
  }

  /** The record a `Map` filled by `set(d.date, d)` over `days` holds under
      `key`: the last record with that date, or nothing. */
  function LastWithDate(days: seq<DayRecord>, key: string): (r: Option<DayRecord>)
    ensures r.None? <==> forall i :: 0 <= i < |days| ==> days[i].date != key
    ensures r.Some? ==> r.value.date == key && r.value in days
  {
    var i := LastIndexOfDate(days, key);
    if i < 0 then None else Some(days[i])
  }

  /** Appending a record: it wins under its own date and changes nothing else. */
  lemma LastWithDateSnoc(days: seq<DayRecord>, r: DayRecord, key: string)
    ensures LastWithDate(days + [r], key)
            == if r.date == key then Some(r) else LastWithDate(days, key)
  {
    assert (days + [r])[..|days|] == days;
  }

  /** `n` blank cells. */
  function Blanks(n: nat): (cells: seq<Cell>)
    ensures |cells| == n
  {
    if n == 0 then [] else Blanks(n - 1) + [Blank]
  }

  lemma {:induction false} BlanksAt(n: nat, j: int)
    requires 0 <= j < n
    ensures Blanks(n)[j] == Blank
  {
    if j < n - 1 {
      BlanksAt(n - 1, j);
    }
  }

  /** The cells of days 1..n, each joined to the record whose date reads
      `isoDate(year, monthIndex, d)`. */
  function DayCells(year: int, monthIndex: int, days: seq<DayRecord>, n: nat): (cells: seq<Cell>)
    ensures |cells| == n
  {
    if n == 0 then []
    else DayCells(year, monthIndex, days, n - 1)
           + [Cell(Some(n), LastWithDate(days, IsoDate(year, monthIndex, n)))]
  }

  lemma {:induction false} DayCellsAt(year: int, monthIndex: int, days: seq<DayRecord>, n: nat, d: int)
    requires 1 <= d <= n
    ensures DayCells(year, monthIndex, days, n)[d - 1]
            == Cell(Some(d), LastWithDate(days, IsoDate(year, monthIndex, d)))
  {
    if d < n {
      DayCellsAt(year, monthIndex, days, n - 1, d);
    }
  }

  /** One turn of the day loop appends the next day's cell. */
  lemma DayCellsStep(prefix: seq<Cell>, year: int, monthIndex: int, days: seq<DayRecord>, day: nat, cell: Cell)
    requires 1 <= day && cell == Cell(Some(day), LastWithDate(days, IsoDate(year, monthIndex, day)))
    ensures prefix + DayCells(year, monthIndex, days, day)
            == (prefix + DayCells(year, monthIndex, days, day - 1)) + [cell]
  {
    assert DayCells(year, monthIndex, days, day) == DayCells(year, monthIndex, days, day - 1) + [cell];
  }

  /** The cells the component lays out for the month `new Date(year,
      monthIndex, 1)` begins: a blank for each weekday before the first, then
      the days of the month. */
  function MonthCells(year: int, monthIndex: int, days: seq<DayRecord>): seq<Cell>
  {
    Blanks(FirstWeekday(year, monthIndex))
      + DayCells(year, monthIndex, days, MonthLength(year, monthIndex))
  }

  /** `new Map(days.map(d => [d.date, d]))`: the map from a date to its record,
      where a later record overrides an earlier one with the same date. */
  method IndexByDate(days: seq<DayRecord>) returns (byDate: map<string, DayRecord>)
    ensures forall key :: MapGet(byDate, key) == LastWithDate(days, key)
  {
    byDate := map[];
    for i := 0 to |days|
      invariant forall key :: MapGet(byDate, key) == LastWithDate(days[..i], key)
    {
      var next := byDate[days[i].date := days[i]];
      assert days[..i + 1] == days[..i] + [days[i]];
      forall key
        ensures MapGet(next, key) == LastWithDate(days[..i + 1], key)
      {
        LastWithDateSnoc(days[..i], days[i], key);
      }
      byDate := next;
    }
    assert days[..|days|] == days;
  }

  /** The two loops of `MonthCalendarGrid`: `firstWeekday` blank cells, then
      one cell per day 1..daysInMonth holding `byDate.get(isoDate(...))`. */
  method LayOutCells(year: int, monthIndex: int, days: seq<DayRecord>, firstWeekday: nat, daysInMonth: nat)
    returns (cells: seq<Cell>)
    ensures cells == Blanks(firstWeekday) + DayCells(year, monthIndex, days, daysInMonth)
  {
    var byDate := IndexByDate(days);

    cells := [];
    for i := 0 to firstWeekday
      invariant cells == Blanks(i)
    {
      cells := cells + [Blank];
    }

    ghost var blanks := cells;
    for day := 1 to daysInMonth + 1
      invariant cells == blanks + DayCells(year, monthIndex, days, day - 1)
    {
      var dateStr := IsoDate(year, monthIndex, day);
      var cell := Cell(Some(day), MapGet(byDate, dateStr));
      DayCellsStep(blanks, year, monthIndex, days, day, cell);
      cells := cells + [cell];
    }
  }

  /** The cell-building part of `MonthCalendarGrid`: the weekday of the first
      and the length of the month, then the cells. */
  method BuildMonthGrid(year: int, monthIndex: int, days: seq<DayRecord>) returns (cells: seq<Cell>)
    ensures cells == MonthCells(year, monthIndex, days)
  {
    var firstWeekday := FirstWeekday(year, monthIndex);
    var daysInMonth := MonthLength(year, monthIndex);
    cells := LayOutCells(year, monthIndex, days, firstWeekday, daysInMonth);
  }

  /** The cells before the first weekday are blank. */
  lemma BlankCellAt(year: int, monthIndex: int, days: seq<DayRecord>, j: int)
    requires 0 <= j < FirstWeekday(year, monthIndex)
    ensures MonthCells(year, monthIndex, days)[j] == Blank
  {
    BlanksAt(FirstWeekday(year, monthIndex), j);
  }

  /** Day `day` sits `day - 1` cells after the first weekday. */
  lemma DayCellAt(year: int, monthIndex: int, days: seq<DayRecord>, day: int)
    requires 1 <= day <= MonthLength(year, monthIndex)
    ensures MonthCells(year, monthIndex, days)[FirstWeekday(year, monthIndex) + day - 1]
            == Cell(Some(day), LastWithDate(days, IsoDate(year, monthIndex, day)))
  {
    DayCellsAt(year, monthIndex, days, MonthLength(year, monthIndex), day);
  }

  /** The grid holds as many cells as blanks plus days: no padding after the
      last day. */
  lemma GridLength(year: int, monthIndex: int, days: seq<DayRecord>)
    ensures |MonthCells(year, monthIndex, days)|
            == FirstWeekday(year, monthIndex) + MonthLength(year, monthIndex)
  {
  }

  /** Every cell before the first weekday is blank. */
  lemma GridBlanks(year: int, monthIndex: int, days: seq<DayRecord>)
    ensures forall j :: 0 <= j < FirstWeekday(year, monthIndex) ==>
              MonthCells(year, monthIndex, days)[j] == Blank
  {
    forall j | 0 <= j < FirstWeekday(year, monthIndex)
      ensures MonthCells(year, monthIndex, days)[j] == Blank
    {
      BlankCellAt(year, monthIndex, days, j);
    }
  }

  /** After the blanks come the day numbers 1..daysInMonth, in order. */
  lemma GridDayNumbers(year: int, monthIndex: int, days: seq<DayRecord>)
    ensures forall day :: 1 <= day <= MonthLength(year, monthIndex) ==>
              MonthCells(year, monthIndex, days)[FirstWeekday(year, monthIndex) + day - 1].dayNumber == Some(day)
  {
    forall day | 1 <= day <= MonthLength(year, monthIndex)
      ensures MonthCells(year, monthIndex, days)[FirstWeekday(year, monthIndex) + day - 1].dayNumber == Some(day)
    {
      DayCellAt(year, monthIndex, days, day);
    }
  }

  /** Each day cell sits in the column of its weekday, under the right
      "Sun".."Sat" heading. */
  lemma GridColumnIsWeekday(year: int, monthIndex: int, days: seq<DayRecord>, day: int)
    requires 1 <= day <= MonthLength(year, monthIndex)
    ensures var s := MonthStart(year, monthIndex);
      (FirstWeekday(year, monthIndex) + day - 1) % 7 == Weekday(Date(s.year, s.month, day))
  {
    var s := MonthStart(year, monthIndex);
    WeekdayShift(s.year, s.month, day);
  }

  /** A day cell's entry is a record dated that day, the last one if several
      are; it is empty exactly when no record has that date. */
  lemma GridEntry(year: int, monthIndex: int, days: seq<DayRecord>, day: int)
    requires 1 <= day <= MonthLength(year, monthIndex)
    ensures var c := MonthCells(year, monthIndex, days)[FirstWeekday(year, monthIndex) + day - 1];
      && c.dayNumber == Some(day)
      && (c.entry.None? <==> forall i :: 0 <= i < |days| ==> days[i].date != IsoDate(year, monthIndex, day))
      && (c.entry.Some? ==> c.entry.value in days && c.entry.value.date == IsoDate(year, monthIndex, day))
  {
    DayCellAt(year, monthIndex, days, day);
  }

  /** Different days of one month have different date texts. */
  lemma IsoDateDayInjective(year: int, monthIndex: int, d1: int, d2: int)
    requires 1 <= d1 <= 31 && 1 <= d2 <= 31
    requires IsoDate(year, monthIndex, d1) == IsoDate(year, monthIndex, d2)
    ensures d1 == d2
  {
    var prefix := IntToString(year) + "-" + PadStart(IntToString(monthIndex + 1), 2, '0') + "-";
    TwoDigits(d1);
    TwoDigits(d2);
    assert IsoDate(year, monthIndex, d1) == prefix + Digits(d1, 2);
    assert IsoDate(year, monthIndex, d2) == prefix + Digits(d2, 2);
    assert Digits(d1, 2) == (prefix + Digits(d1, 2))[|prefix|..];
    assert Digits(d2, 2) == (prefix + Digits(d2, 2))[|prefix|..];
    assert Pow10(2) == 100;
    DigitsOrder(d1, d2, 2);
  }

  /** With one record per date, a record of the shown month appears in the
      cell of its day. */
  lemma GridPlacesRecord(year: int, monthIndex: int, days: seq<DayRecord>, k: int, day: int)
    requires forall i, j :: 0 <= i < j < |days| ==> days[i].date != days[j].date
    requires 0 <= k < |days| && 1 <= day <= MonthLength(year, monthIndex)
    requires days[k].date == IsoDate(year, monthIndex, day)
    ensures MonthCells(year, monthIndex, days)[FirstWeekday(year, monthIndex) + day - 1].entry
            == Some(days[k])
  {
    DayCellAt(year, monthIndex, days, day);
    var i := LastIndexOfDate(days, days[k].date);
    assert i == k;
  }

  /** A record shows in at most one cell: two day cells that hold the same
      record are the same day (blank cells hold none, see `GridBlanks`). */
  lemma GridPlacesRecordOnce(year: int, monthIndex: int, days: seq<DayRecord>, d1: int, d2: int)
    requires 1 <= d1 <= MonthLength(year, monthIndex) && 1 <= d2 <= MonthLength(year, monthIndex)
    requires MonthCells(year, monthIndex, days)[FirstWeekday(year, monthIndex) + d1 - 1].entry.Some?
    requires MonthCells(year, monthIndex, days)[FirstWeekday(year, monthIndex) + d1 - 1].entry
             == MonthCells(year, monthIndex, days)[FirstWeekday(year, monthIndex) + d2 - 1].entry
    ensures d1 == d2
  {
    DayCellAt(year, monthIndex, days, d1);
    DayCellAt(year, monthIndex, days, d2);
    IsoDateDayInjective(year, monthIndex, d1, d2);
  }

  /** The subtitle of a day cell: the holiday, else the full-moon name, else
      the phase label; nothing for a cell without an entry. An empty string
      counts as absent, as JavaScript truthiness has it. */
  function CellSubtitle(entry: Option<DayRecord>): (subtitle: string)
    ensures entry.None? ==> subtitle == ""
    ensures entry.Some? && Truthy(entry.value.holiday) ==> subtitle == entry.value.holiday.value
    ensures entry.Some? && !Truthy(entry.value.holiday) && Truthy(entry.value.moonName) ==>
              subtitle == entry.value.moonName.value
    ensures entry.Some? && !Truthy(entry.value.holiday) && !Truthy(entry.value.moonName) ==>
              subtitle == PhaseLabel(entry.value.moonPhase)
  {
    if entry.Some? && Truthy(entry.value.holiday) then entry.value.holiday.value
    else if entry.Some? && Truthy(entry.value.moonName) then entry.value.moonName.value
    else if entry.Some? then PhaseLabel(entry.value.moonPhase)
    else ""
  }

  /** On a generated day (see `DescribesDay`) the subtitle is never empty: the holiday if there is
      one, else the traditional name on a full moon, else the phase label
      (which for a phase the library did not name is "unknown"). */
  lemma SubtitleOfGeneratedDay(r: DayRecord, date: Date, phaseName: string)
    requires Valid(date)
    requires r.moonPhase == MapPhaseName(phaseName)
    requires r.moonName == GetFullMoonName(date, r.moonPhase) && r.holiday == GetHoliday(date)
    ensures GetHoliday(date).Some? ==> CellSubtitle(Some(r)) == GetHoliday(date).value
    ensures GetHoliday(date).None? && MapPhaseName(phaseName) == "full" ==>
              CellSubtitle(Some(r)) == FullMoonNames[date.month - 1]
    ensures GetHoliday(date).None? && MapPhaseName(phaseName) != "full" ==>
              CellSubtitle(Some(r)) == PhaseLabel(MapPhaseName(phaseName))
    ensures CellSubtitle(Some(r)) != ""
  {
    var slug := MapPhaseName(phaseName);
    if GetHoliday(date).None? && slug != "full" {
      if slug in PhaseSlugs {
        assert forall v :: v in PhaseLabels.Values ==> v != "";
      }
    }
  }
}
