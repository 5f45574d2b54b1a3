/** The build-time generator: it walks every day of an inclusive date range
    and classifies each day into a record (moon phase, full-moon name, US
    holiday, season crops, farming and business guidance, a note). The
    astronomical phase of a day comes from an outside library and is a
    function parameter here. */
module GenerateAlmanac {
  import opened JsRuntime
  import opened CivilDate
  import opened AlmanacDay

  // ---------------------------------------------------------------------
  // Moon phase names.
  // ---------------------------------------------------------------------

  /** The eight labels the phase library returns, in the order of PhaseSlugs. */
  const LibraryPhaseNames: seq<string> := [
    "New", "Waxing Crescent", "First Quarter", "Waxing Gibbous",
    "Full", "Waning Gibbous", "Last Quarter", "Waning Crescent"]

  /** `mapPhaseName`: the library's label to a slug, "unknown" for anything else. */
  function MapPhaseName(name: string): (slug: string)
    ensures slug == "unknown" <==> name !in LibraryPhaseNames
    ensures slug in PhaseSlugs || slug == "unknown"
    ensures forall i :: 0 <= i < |LibraryPhaseNames| && name == LibraryPhaseNames[i] ==> slug == PhaseSlugs[i]
  {
    if name == "New" then "new"
    else if name == "Waxing Crescent" then "waxing_crescent"
    else if name == "First Quarter" then "first_quarter"
    else if name == "Waxing Gibbous" then "waxing_gibbous"
    else if name == "Full" then "full"
    else if name == "Waning Gibbous" then "waning_gibbous"
    else if name == "Last Quarter" then "last_quarter"
    else if name == "Waning Crescent" then "waning_crescent"
    else "unknown"
  }

  /** Different library labels never share a slug. */
  lemma MapPhaseNameInjective(a: string, b: string)
    requires a in LibraryPhaseNames && b in LibraryPhaseNames && a != b
    ensures MapPhaseName(a) != MapPhaseName(b)
  {
  }

  /** The label the pages show for a generated record is the library's own
      name, with " Moon" after "New" and "Full"; an unrecognised name shows
      as "unknown". */
  lemma LabelOfLibraryPhase(name: string)
    ensures name == "New" ==> PhaseLabel(MapPhaseName(name)) == "New Moon"
    ensures name == "Full" ==> PhaseLabel(MapPhaseName(name)) == "Full Moon"
    ensures name in LibraryPhaseNames && name != "New" && name != "Full" ==>
              PhaseLabel(MapPhaseName(name)) == name
    ensures name !in LibraryPhaseNames ==> PhaseLabel(MapPhaseName(name)) == "unknown"
  {
    if name !in LibraryPhaseNames {
      assert "unknown" !in PhaseLabels;
    }
  }

  // ---------------------------------------------------------------------
  // Full-moon names.
  // ---------------------------------------------------------------------

  /** `FULL_MOON_NAMES`, indexed by month (0 = January). */
  const FullMoonNames: seq<string> := [
    "Wolf Moon", "Snow Moon", "Worm Moon", "Pink Moon", "Flower Moon",
    "Strawberry Moon", "Buck Moon", "Sturgeon Moon", "Harvest Moon",
    "Hunter's Moon", "Beaver Moon", "Cold Moon"]

  /** `getFullMoonName`: the month's traditional name on a full moon, else null. */
  function GetFullMoonName(date: Date, moonPhase: string): (name: Option<string>)
    requires 1 <= date.month <= 12
    ensures name.Some? <==> moonPhase == "full"
    ensures name.Some? ==> name.value == FullMoonNames[date.month - 1]
  {
    if moonPhase != "full" then None
    else Some(FullMoonNames[date.month - 1])
  }

  // ---------------------------------------------------------------------
  // US holidays.
  // ---------------------------------------------------------------------

  const Monday := 1
  const Thursday := 4

  /** The seven names `getHoliday` can return. */
  const HolidayNames: set<string> := {
    "New Year's Day", "Independence Day", "Halloween", "Christmas Day",
    "Labor Day", "Thanksgiving", "Memorial Day"}

  /** `getHoliday`: four fixed dates and three weekday rules, first match
      wins; every other date has no holiday. */
  function GetHoliday(date: Date): (h: Option<string>)
    requires Valid(date)
    ensures h == Some("New Year's Day") <==> date.month == 1 && date.day == 1
    ensures h == Some("Independence Day") <==> date.month == 7 && date.day == 4
    ensures h == Some("Halloween") <==> date.month == 10 && date.day == 31
    ensures h == Some("Christmas Day") <==> date.month == 12 && date.day == 25
    ensures h == Some("Labor Day") <==>
              date.month == 9 && date.day == NthWeekdayOfMonth(date.year, 9, Monday, 1)
    ensures h == Some("Thanksgiving") <==>
              date.month == 11 && date.day == NthWeekdayOfMonth(date.year, 11, Thursday, 4)
    ensures h == Some("Memorial Day") <==>
              date.month == 5 && date.day == LastWeekdayOfMonth(date.year, 5, Monday)
    ensures h.Some? ==> h.value in HolidayNames
    ensures h.Some? ==> date.month in {1, 5, 7, 9, 10, 11, 12} && h.value != ""
  {
    var m := date.month;
    var d := date.day;
    var weekday := Weekday(date);
    LaborDayRule(date.year, d);
    ThanksgivingRule(date.year, d);
    MemorialDayRule(date.year, d);
    if m == 1 && d == 1 then Some("New Year's Day")
    else if m == 7 && d == 4 then Some("Independence Day")
    else if m == 10 && d == 31 then Some("Halloween")
    else if m == 12 && d == 25 then Some("Christmas Day")
    else if m == 9 && weekday == 1 && d <= 7 then Some("Labor Day")
    else if m == 11 && weekday == 4 && (d - 1) / 7 + 1 == 4 then Some("Thanksgiving")
    else if m == 5 && weekday == 1 && d + 7 > 31 then Some("Memorial Day")
    else None
  }

  /** Adding whole weeks keeps the weekday. */
  lemma WeekShift(w: int, k: int)
    requires 0 <= w < 7
    ensures (w + 7 * k) % 7 == w
  {
  }

  /** The day of the month of the n-th given weekday (n = 1 is the first). */
  function NthWeekdayOfMonth(year: int, month: int, weekday: int, n: int): (d: int)
    requires 1 <= month <= 12 && 0 <= weekday < 7 && 1 <= n <= 4
    ensures 7 * (n - 1) + 1 <= d <= 7 * n
    ensures Weekday(Date(year, month, d)) == weekday
  {
    var first := Weekday(Date(year, month, 1));
    var ahead := if first <= weekday then weekday - first else weekday - first + 7;
    var d := 1 + ahead + 7 * (n - 1);
    WeekdayShift(year, month, d);
    if first <= weekday then
      WeekShift(weekday, n - 1);
      d
    else
      WeekShift(weekday, n);
      d
  }

  /** The day of the month of the last given weekday. */
  function LastWeekdayOfMonth(year: int, month: int, weekday: int): (d: int)
    requires 1 <= month <= 12 && 0 <= weekday < 7
    ensures DaysInMonth(year, month) - 7 < d <= DaysInMonth(year, month)
    ensures Weekday(Date(year, month, d)) == weekday
  {
    var last := DaysInMonth(year, month);
    var lastWeekday := Weekday(Date(year, month, last));
    var back := if weekday <= lastWeekday then lastWeekday - weekday else lastWeekday - weekday + 7;
    var d := last - back;
    WeekdayShift(year, month, d);
    WeekdayShift(year, month, last);
    var first := Weekday(Date(year, month, 1));
    var q := (first + last - 1) / 7;
    assert first + last - 1 == lastWeekday + 7 * q;
    if weekday <= lastWeekday then
      WeekShift(weekday, q);
      d
    else
      WeekShift(weekday, q - 1);
      d
  }

  /** Two days of one month on the same weekday and less than a week apart
      are the same day. */
  lemma SameWeekdayWithinWeek(year: int, month: int, d1: int, d2: int)
    requires 1 <= month <= 12 && d1 <= d2 < d1 + 7
    requires Weekday(Date(year, month, d1)) == Weekday(Date(year, month, d2))
    ensures d1 == d2
  {
    WeekdayShift(year, month, d1);
    WeekdayShift(year, month, d2);
    var first := Weekday(Date(year, month, 1));
    ModSevenShift(first + d1 - 1, d2 - d1);
  }

  /** The Labor Day test of `getHoliday` (a Monday among the first seven
      days) holds exactly on the first Monday. */
  lemma LaborDayRule(year: int, d: int)
    requires 1 <= d
    ensures Weekday(Date(year, 9, d)) == Monday && d <= 7 <==> d == NthWeekdayOfMonth(year, 9, Monday, 1)
  {
    var t := NthWeekdayOfMonth(year, 9, Monday, 1);
    if Weekday(Date(year, 9, d)) == Monday && d <= 7 {
      if d <= t { SameWeekdayWithinWeek(year, 9, d, t); } else { SameWeekdayWithinWeek(year, 9, t, d); }
    }
  }

  /** The Thanksgiving test (a Thursday in the fourth week) holds exactly
      on the fourth Thursday. */
  lemma ThanksgivingRule(year: int, d: int)
    ensures Weekday(Date(year, 11, d)) == Thursday && (d - 1) / 7 + 1 == 4 <==>
            d == NthWeekdayOfMonth(year, 11, Thursday, 4)
  {
    var t := NthWeekdayOfMonth(year, 11, Thursday, 4);
    if Weekday(Date(year, 11, d)) == Thursday && (d - 1) / 7 + 1 == 4 {
      if d <= t { SameWeekdayWithinWeek(year, 11, d, t); } else { SameWeekdayWithinWeek(year, 11, t, d); }
    }
  }

  /** The Memorial Day test (a Monday within a week of May's end) holds
      exactly on the last Monday. */
  lemma MemorialDayRule(year: int, d: int)
    requires d <= 31
    ensures Weekday(Date(year, 5, d)) == Monday && d + 7 > 31 <==> d == LastWeekdayOfMonth(year, 5, Monday)
  {
    var t := LastWeekdayOfMonth(year, 5, Monday);
    if Weekday(Date(year, 5, d)) == Monday && d + 7 > 31 {
      if d <= t { SameWeekdayWithinWeek(year, 5, d, t); } else { SameWeekdayWithinWeek(year, 5, t, d); }
    }
  }

  /** Labor Day falls on exactly one day of each September: its first Monday. */
  lemma LaborDayOncePerSeptember(year: int)
    ensures var t := NthWeekdayOfMonth(year, 9, Monday, 1);
      1 <= t <= 7 &&
      forall d :: 1 <= d <= 30 ==> (GetHoliday(Date(year, 9, d)) == Some("Labor Day") <==> d == t)
  {
  }

  /** Thanksgiving falls on exactly one day of each November: its fourth
      Thursday, which is always between the 22nd and the 28th. */
  lemma ThanksgivingOncePerNovember(year: int)
    ensures var t := NthWeekdayOfMonth(year, 11, Thursday, 4);
      22 <= t <= 28 &&
      forall d :: 1 <= d <= 30 ==> (GetHoliday(Date(year, 11, d)) == Some("Thanksgiving") <==> d == t)
  {
  }

  /** Memorial Day falls on exactly one day of each May: its last Monday. */
  lemma MemorialDayOncePerMay(year: int)
    ensures var t := LastWeekdayOfMonth(year, 5, Monday);
      25 <= t <= 31 &&
      forall d :: 1 <= d <= 31 ==> (GetHoliday(Date(year, 5, d)) == Some("Memorial Day") <==> d == t)
  {
  }

  /** The moveable holidays of 2025, as a calendar shows them; the Thursday
      a week before Thanksgiving is not a holiday. */
  lemma MoveableHolidays2025()
    ensures GetHoliday(Date(2025, 5, 26)) == Some("Memorial Day")
    ensures GetHoliday(Date(2025, 9, 1)) == Some("Labor Day")
    ensures GetHoliday(Date(2025, 11, 27)) == Some("Thanksgiving")
    ensures GetHoliday(Date(2025, 11, 20)) == None
  {
    assert DaysBeforeYear(2025) == 20089;
    DaysBeforeMonthTable(2025, 5);
    DaysBeforeMonthTable(2025, 9);
    DaysBeforeMonthTable(2025, 11);
    assert Weekday(Date(2025, 5, 26)) == Monday;
    assert Weekday(Date(2025, 9, 1)) == Monday;
    assert Weekday(Date(2025, 11, 27)) == Thursday;
    assert Weekday(Date(2025, 11, 20)) == Thursday;
  }

  /** The moveable holidays of 2026. */
  lemma MoveableHolidays2026()
    ensures GetHoliday(Date(2026, 5, 25)) == Some("Memorial Day")
    ensures GetHoliday(Date(2026, 9, 7)) == Some("Labor Day")
    ensures GetHoliday(Date(2026, 11, 26)) == Some("Thanksgiving")
  {
    assert DaysBeforeYear(2026) == 20454;
    DaysBeforeMonthTable(2026, 5);
    DaysBeforeMonthTable(2026, 9);
    DaysBeforeMonthTable(2026, 11);
    assert Weekday(Date(2026, 5, 25)) == Monday;
    assert Weekday(Date(2026, 9, 7)) == Monday;
    assert Weekday(Date(2026, 11, 26)) == Thursday;
  }

  // ---------------------------------------------------------------------
  // Season and phase group.
  // ---------------------------------------------------------------------

  datatype Season = Winter | Spring | Summer | Fall

  /** `getSeason`: meteorological seasons by month, not by hemisphere. */
  function GetSeason(date: Date): (s: Season)
    requires 1 <= date.month <= 12
    ensures s == Winter <==> date.month in {12, 1, 2}
    ensures s == Spring <==> date.month in {3, 4, 5}
    ensures s == Summer <==> date.month in {6, 7, 8}
    ensures s == Fall <==> date.month in {9, 10, 11}
  {
    var m := date.month - 1;
    if m == 11 || m <= 1 then Winter
    else if m >= 2 && m <= 4 then Spring
    else if m >= 5 && m <= 7 then Summer
    else Fall
  }

  datatype PhaseGroup = New | Full | Quarter | Waxing | Waning | Other

  /** `getPhaseGroup`: a coarsening of the slug. */
  function GetPhaseGroup(moonPhase: string): (g: PhaseGroup)
    ensures g == New <==> moonPhase == "new"
    ensures g == Full <==> moonPhase == "full"
    ensures g == Quarter <==> moonPhase == "first_quarter" || moonPhase == "last_quarter"
    ensures moonPhase in PhaseSlugs ==>
              (g == Waxing <==> moonPhase == "waxing_crescent" || moonPhase == "waxing_gibbous")
    ensures moonPhase in PhaseSlugs ==>
              (g == Waning <==> moonPhase == "waning_crescent" || moonPhase == "waning_gibbous")
    ensures g == Other ==> moonPhase !in PhaseSlugs
    ensures moonPhase == "unknown" ==> g == Other
  {
    PhasePrefixes();
    if moonPhase == "new" then New
    else if moonPhase == "full" then Full
    else if moonPhase == "first_quarter" || moonPhase == "last_quarter" then Quarter
    else if StartsWith(moonPhase, "waxing") then Waxing
    else if StartsWith(moonPhase, "waning") then Waning
    else Other
  }

  /** Which slugs start with "waxing" and which with "waning". */
  lemma PhasePrefixes()
    ensures StartsWith("waxing_crescent", "waxing") && StartsWith("waxing_gibbous", "waxing")
    ensures StartsWith("waning_crescent", "waning") && StartsWith("waning_gibbous", "waning")
    ensures !StartsWith("waning_crescent", "waxing") && !StartsWith("waning_gibbous", "waxing")
    ensures !StartsWith("unknown", "waxing") && !StartsWith("unknown", "waning")
  {
    assert "waxing_crescent"[..6] == "waxing";
    assert "waxing_gibbous"[..6] == "waxing";
    assert "waning_crescent"[..6] == "waning";
    assert "waning_gibbous"[..6] == "waning";
    assert "waning_crescent"[2] != "waxing"[2];
    assert "waning_gibbous"[2] != "waxing"[2];
    assert "unknown"[0] != "waxing"[0];
  }

  // ---------------------------------------------------------------------
  // Guidance.
  // ---------------------------------------------------------------------

  datatype Guidance = Guidance(farming: Advice, business: Advice, crops: seq<string>)

  // The phrase lists of `getGuidance`, named by season and by what they favour.
  const SpringCrops: seq<string> := ["corn", "soybeans", "pasture renovation"]
  const SummerCrops: seq<string> := ["corn", "soybeans", "hay", "cattle forage"]
  const FallCrops: seq<string> := ["pumpkins", "cover crops", "pasture management"]
  const WinterCrops: seq<string> := ["equipment maintenance", "pasture planning"]

  const SpringPlantingFarming: seq<string> :=
    ["starting corn and soybean plantings", "seeding cool-season pasture"]
  const SpringPlantingFarmingAvoid: seq<string> := ["heavy harvest operations"]
  const SpringPlantingBusiness: seq<string> :=
    ["kicking off new projects", "planning marketing around planting season"]
  const SpringPlantingBusinessAvoid: seq<string> :=
    ["overcommitting long-term before plans are clear"]
  const SpringTendingFarming: seq<string> :=
    ["thinning seedlings", "weeding and strengthening stands"]
  const SpringTendingBusiness: seq<string> := ["reviewing budgets", "adjusting early plans"]

  const SummerGrowingFarming: seq<string> :=
    ["side-dressing corn and soybeans", "irrigation and pest scouting"]
  const SummerGrowingBusiness: seq<string> :=
    ["mid-season promotions", "field days and farm visits"]
  const SummerCuttingFarming: seq<string> :=
    ["hay cutting and storage", "rotational grazing adjustments"]
  const SummerCuttingBusiness: seq<string> :=
    ["checking margins on inputs", "cutting what is not paying off"]

  const FallHarvestFarming: seq<string> :=
    ["harvesting corn and soybeans", "bringing in pumpkins and fall crops",
     "seeding winter cover crops"]
  const FallHarvestBusiness: seq<string> :=
    ["settling accounts", "closing out risky contracts", "year-end inventory"]
  const FallScoutingFarming: seq<string> :=
    ["field scouting for harvest timing", "pasture overseeding"]
  const FallScoutingBusiness: seq<string> :=
    ["planning fall markets", "lining up buyers and processors"]

  const WinterPlanningFarming: seq<string> :=
    ["equipment maintenance", "seed ordering and pasture planning"]
  const WinterPlanningBusiness: seq<string> :=
    ["strategic planning for next season", "budgeting and cash-flow mapping"]
  const WinterRepairFarming: seq<string> := ["barn and fence repairs"]
  const WinterRepairBusiness: seq<string> := ["bookkeeping and tax prep", "closing old files"]

  /** The crops and activities of a season. */
  function SeasonCrops(season: Season): (crops: seq<string>)
    ensures |crops| >= 2
  {
    match season
    case Spring => SpringCrops
    case Summer => SummerCrops
    case Fall => FallCrops
    case Winter => WinterCrops
  }

  /** The new moon and the waxing phases: the time for starting things. */
  predicate Growing(g: PhaseGroup)
  {
    g == New || g == Waxing
  }

  /** The full moon and the waning phases: the time for finishing things. */
  predicate Easing(g: PhaseGroup)
  {
    g == Waning || g == Full
  }

  /** The farming advice for a season and phase group, read as a table: one
      pair of lists for the growing phases, one for the easing phases, and
      nothing at the quarters or on an unrecognised phase. */
  function FarmingAdvice(season: Season, group: PhaseGroup): Advice
  {
    if Growing(group) then
      match season
      case Spring => Advice(SpringPlantingFarming, SpringPlantingFarmingAvoid)
      case Summer => Advice(SummerGrowingFarming, [])
      case Fall => Advice(FallScoutingFarming, [])
      case Winter => Advice(WinterPlanningFarming, [])
    else if Easing(group) then
      match season
      case Spring => Advice(SpringTendingFarming, [])
      case Summer => Advice(SummerCuttingFarming, [])
      case Fall => Advice(FallHarvestFarming, [])
      case Winter => Advice(WinterRepairFarming, [])
    else Advice([], [])
  }

  /** The business advice for a season and phase group, as a table. */
  function BusinessAdvice(season: Season, group: PhaseGroup): Advice
  {
    if Growing(group) then
      match season
      case Spring => Advice(SpringPlantingBusiness, SpringPlantingBusinessAvoid)
      case Summer => Advice(SummerGrowingBusiness, [])
      case Fall => Advice(FallScoutingBusiness, [])
      case Winter => Advice(WinterPlanningBusiness, [])
    else if Easing(group) then
      match season
      case Spring => Advice(SpringTendingBusiness, [])
      case Summer => Advice(SummerCuttingBusiness, [])
      case Fall => Advice(FallHarvestBusiness, [])
      case Winter => Advice(WinterRepairBusiness, [])
    else Advice([], [])
  }

  /** Something to favour exactly in the growing and easing phases, and
      something to avoid exactly in a growing spring. */
  lemma AdviceShape(season: Season, group: PhaseGroup)
    ensures FarmingAdvice(season, group).bestFor != [] <==> Growing(group) || Easing(group)
    ensures BusinessAdvice(season, group).bestFor != [] <==> Growing(group) || Easing(group)
    ensures FarmingAdvice(season, group).avoid != [] <==> season == Spring && Growing(group)
    ensures BusinessAdvice(season, group).avoid != [] <==> season == Spring && Growing(group)
  {
  }

  /** `getGuidance`: the lists start empty and are appended to, first by
      season, then by season and phase group. */
  method GetGuidance(season: Season, phaseGroup: PhaseGroup) returns (g: Guidance)
    ensures g.farming == FarmingAdvice(season, phaseGroup)
    ensures g.business == BusinessAdvice(season, phaseGroup)
    ensures g.crops == SeasonCrops(season)
    ensures phaseGroup == Quarter || phaseGroup == Other ==>
              g.farming == Advice([], []) && g.business == Advice([], [])
    ensures g.farming.bestFor != [] <==> Growing(phaseGroup) || Easing(phaseGroup)
    ensures g.business.bestFor != [] <==> Growing(phaseGroup) || Easing(phaseGroup)
    ensures g.farming.avoid != [] <==> season == Spring && Growing(phaseGroup)
    ensures g.business.avoid != [] <==> season == Spring && Growing(phaseGroup)
  {
    var farmingBestFor: seq<string> := [];
    var farmingAvoid: seq<string> := [];
    var businessBestFor: seq<string> := [];
    var businessAvoid: seq<string> := [];
    var crops: seq<string> := [];

    if season == Spring {
      crops := crops + SpringCrops;
    } else if season == Summer {
      crops := crops + SummerCrops;
    } else if season == Fall {
      crops := crops + FallCrops;
    } else {
      crops := crops + WinterCrops;
    }

    if season == Spring {
      if phaseGroup == New || phaseGroup == Waxing {
        farmingBestFor := farmingBestFor + SpringPlantingFarming;
        farmingAvoid := farmingAvoid + SpringPlantingFarmingAvoid;
        businessBestFor := businessBestFor + SpringPlantingBusiness;
        businessAvoid := businessAvoid + SpringPlantingBusinessAvoid;
      } else if phaseGroup == Waning || phaseGroup == Full {
        farmingBestFor := farmingBestFor + SpringTendingFarming;
        businessBestFor := businessBestFor + SpringTendingBusiness;
      }
    } else if season == Summer {
      if phaseGroup == New || phaseGroup == Waxing {
        farmingBestFor := farmingBestFor + SummerGrowingFarming;
        businessBestFor := businessBestFor + SummerGrowingBusiness;
      } else if phaseGroup == Waning || phaseGroup == Full {
        farmingBestFor := farmingBestFor + SummerCuttingFarming;
        businessBestFor := businessBestFor + SummerCuttingBusiness;
      }
    } else if season == Fall {
      if phaseGroup == Full || phaseGroup == Waning {
        farmingBestFor := farmingBestFor + FallHarvestFarming;
        businessBestFor := businessBestFor + FallHarvestBusiness;
      } else if phaseGroup == Waxing || phaseGroup == New {
        farmingBestFor := farmingBestFor + FallScoutingFarming;
        businessBestFor := businessBestFor + FallScoutingBusiness;
      }
    } else {
      if phaseGroup == New || phaseGroup == Waxing {
        farmingBestFor := farmingBestFor + WinterPlanningFarming;
        businessBestFor := businessBestFor + WinterPlanningBusiness;
      } else if phaseGroup == Waning || phaseGroup == Full {
        farmingBestFor := farmingBestFor + WinterRepairFarming;
        businessBestFor := businessBestFor + WinterRepairBusiness;
      }
    }

    g := Guidance(Advice(farmingBestFor, farmingAvoid), Advice(businessBestFor, businessAvoid), crops);
  }

  // ---------------------------------------------------------------------
  // Notes.
  // ---------------------------------------------------------------------

  const NewMoonNote := "Quiet, seed-planting time in both fields and plans; good for intention and setup work."
  const FullMoonNote := "Peak energy and visibility; ideal for harvest, wrapping cycles, and public-facing moves."
  const QuarterNote := "Turning point energy; pause, evaluate, and adjust course rather than forcing new starts or endings."
  const WaxingNote := "Energy building; favor starting and growing things."
  const WaningNote := "Energy easing; favor cleanup, harvest, and letting go."

  /** The `notes` choice: new, then full, then quarter, waxing, waning, else null. */
  function DayNotes(moonPhase: string, phaseGroup: PhaseGroup): (n: Option<string>)
    ensures n == Some(NewMoonNote) <==> moonPhase == "new"
    ensures n == Some(FullMoonNote) <==> moonPhase == "full"
    ensures n == Some(QuarterNote) <==> moonPhase != "new" && moonPhase != "full" && phaseGroup == Quarter
    ensures n == Some(WaxingNote) <==> moonPhase != "new" && moonPhase != "full" && phaseGroup == Waxing
    ensures n == Some(WaningNote) <==> moonPhase != "new" && moonPhase != "full" && phaseGroup == Waning
    ensures n.None? <==> moonPhase != "new" && moonPhase != "full" &&
                         phaseGroup != Quarter && phaseGroup != Waxing && phaseGroup != Waning
  {
    if moonPhase == "new" then Some(NewMoonNote)
    else if moonPhase == "full" then Some(FullMoonNote)
    else if phaseGroup == Quarter then Some(QuarterNote)
    else if phaseGroup == Waxing then Some(WaxingNote)
    else if phaseGroup == Waning then Some(WaningNote)
    else None
  }

  /** Every known phase gets a sentence; an unrecognised one gets none. */
  lemma NotesForEveryKnownPhase(moonPhase: string)
    ensures DayNotes(moonPhase, GetPhaseGroup(moonPhase)).Some? <==>
            moonPhase in PhaseSlugs || StartsWith(moonPhase, "waxing") || StartsWith(moonPhase, "waning")
  {
  }

  // ---------------------------------------------------------------------
  // One day.
  // ---------------------------------------------------------------------

  /** What `buildDay` writes for `date` when the library names its phase `phaseName`. */
  predicate DescribesDay(r: DayRecord, date: Date, phaseName: string)
    requires Valid(date)
  {
    && r.date == ToLocalIso(date)
    && r.moonPhase == MapPhaseName(phaseName)
    && r.moonName == GetFullMoonName(date, r.moonPhase)
    && r.holiday == GetHoliday(date)
    && r.notes == DayNotes(r.moonPhase, GetPhaseGroup(r.moonPhase))
    && r.crops == SeasonCrops(GetSeason(date))
    && r.farming == Some(FarmingAdvice(GetSeason(date), GetPhaseGroup(r.moonPhase)))
    && r.business == Some(BusinessAdvice(GetSeason(date), GetPhaseGroup(r.moonPhase)))
  }

  /** `buildDay`, with the library's answer for the day passed in. */
  method BuildDay(date: Date, phaseName: string) returns (r: DayRecord)
    requires Valid(date)
    ensures DescribesDay(r, date, phaseName)
  {
    var iso := ToLocalIso(date);
    var moonPhase := MapPhaseName(phaseName);
    var season := GetSeason(date);
    var phaseGroup := GetPhaseGroup(moonPhase);
    var guidance := GetGuidance(season, phaseGroup);
    var moonName := GetFullMoonName(date, moonPhase);
    var holiday := GetHoliday(date);
    var notes := DayNotes(moonPhase, phaseGroup);
    r := DayRecord(iso, moonPhase, moonName, notes, holiday, guidance.crops,
                   Some(guidance.farming), Some(guidance.business));
  }

  /** What every generated record satisfies, whatever the library answers:
      a known slug or "unknown", a moon name exactly on full moons, a note
      exactly when the phase is known, advice to avoid only in a growing
      spring, and nothing to favour exactly at the quarters and on an
      unrecognised phase. */
  lemma DescribedDayFacts(r: DayRecord, date: Date, phaseName: string)
    requires Valid(date) && DescribesDay(r, date, phaseName)
    ensures r.moonPhase in PhaseSlugs || r.moonPhase == "unknown"
    ensures r.moonPhase == "unknown" <==> phaseName !in LibraryPhaseNames
    ensures r.moonName.Some? <==> r.moonPhase == "full"
    ensures r.notes.None? <==> r.moonPhase == "unknown"
    ensures r.farming.Some? && r.business.Some?
    ensures r.farming.value.avoid != [] <==>
              date.month in {3, 4, 5} && r.moonPhase in {"new", "waxing_crescent", "waxing_gibbous"}
    ensures r.farming.value.bestFor == [] <==>
              r.moonPhase in {"first_quarter", "last_quarter", "unknown"}
  {
    var g := GetPhaseGroup(r.moonPhase);
    AdviceShape(GetSeason(date), g);
    assert r.moonPhase in PhaseSlugs || r.moonPhase == "unknown";
  }

  // ---------------------------------------------------------------------
  // The date range.
  // ---------------------------------------------------------------------

  /** The date n days after `from`: `setDate(getDate() + 1)` applied n times. */
  function AddDays(from: Date, n: nat): (d: Date)
    requires Valid(from)
    ensures Valid(d)
  {
    if n == 0 then from else NextDay(AddDays(from, n - 1))
  }

  lemma {:induction false} AddDaysNumber(from: Date, n: nat)
    requires Valid(from)
    ensures DayNumber(AddDays(from, n)) == DayNumber(from) + n
  {
    if n > 0 {
      AddDaysNumber(from, n - 1);
      NextDayNumber(AddDays(from, n - 1));
    }
  }

  /** The n consecutive days starting at `from`. */
  function DaysFrom(from: Date, n: nat): (s: seq<Date>)
    requires Valid(from)
    ensures |s| == n
    ensures forall i :: 0 <= i < n ==> Valid(s[i])
  {
    if n == 0 then [] else DaysFrom(from, n - 1) + [AddDays(from, n - 1)]
  }

  lemma {:induction false} DaysFromAt(from: Date, n: nat, i: nat)
    requires Valid(from) && i < n
    ensures DaysFrom(from, n)[i] == AddDays(from, i)
  {
    if i < n - 1 {
      DaysFromAt(from, n - 1, i);
    }
  }

  /** Every day from `from` on, fewer than n days later, is among the n days. */
  lemma DaysFromCovers(from: Date, n: nat, d: Date)
    requires Valid(from) && Valid(d)
    requires DayNumber(from) <= DayNumber(d) < DayNumber(from) + n
    ensures d in DaysFrom(from, n)
  {
    var i := DayNumber(d) - DayNumber(from);
    DaysFromAt(from, n, i);
    AddDaysNumber(from, i);
    DayNumberOrder(d, AddDays(from, i));
  }

  /** How many days lie in [from, to]. */
  function RangeLength(from: Date, to: Date): nat
    requires 1 <= from.month <= 12 && 1 <= to.month <= 12
  {
    if DayNumber(to) < DayNumber(from) then 0 else DayNumber(to) - DayNumber(from) + 1
  }

  /** The loop test `cur <= to` on the n-th day of the range. */
  lemma RangeStep(from: Date, to: Date, n: nat)
    requires Valid(from) && Valid(to)
    ensures !Before(to, AddDays(from, n)) <==> n < RangeLength(from, to)
  {
    AddDaysNumber(from, n);
    DayNumberOrder(to, AddDays(from, n));
  }

  /** `eachDay(from, to)`: every day from `from` to `to` inclusive, in order. */
  method EachDay(from: Date, to: Date) returns (dates: seq<Date>)
    requires Valid(from) && Valid(to)
    ensures dates == DaysFrom(from, RangeLength(from, to))
    ensures |dates| == RangeLength(from, to)
    ensures forall i :: 0 <= i < |dates| ==> Valid(dates[i])
    ensures forall d :: Valid(d) && DayNumber(from) <= DayNumber(d) <= DayNumber(to) ==> d in dates
  {
    var cur := from;
    dates := [];
    while !Before(to, cur)
      invariant cur == AddDays(from, |dates|)
      invariant dates == DaysFrom(from, |dates|)
      invariant |dates| <= RangeLength(from, to)
      decreases RangeLength(from, to) - |dates|
    {
      RangeStep(from, to, |dates|);
      dates := dates + [cur];
      cur := NextDay(cur);
    }
    RangeStep(from, to, |dates|);
    forall d | Valid(d) && DayNumber(from) <= DayNumber(d) <= DayNumber(to)
      ensures d in dates
    {
      DaysFromCovers(from, |dates|, d);
    }
  }

  /** The loop of `main`: one record per day, in the order of the days. */
  method BuildDays(dates: seq<Date>, lunarPhase: Date -> string) returns (days: seq<DayRecord>)
    requires forall k :: 0 <= k < |dates| ==> Valid(dates[k])
    ensures |days| == |dates|
    ensures forall k :: 0 <= k < |days| ==> DescribesDay(days[k], dates[k], lunarPhase(dates[k]))
  {
    days := [];
    for i := 0 to |dates|
      invariant |days| == i
      invariant forall k :: 0 <= k < i ==> DescribesDay(days[k], dates[k], lunarPhase(dates[k]))
    {
      var day := BuildDay(dates[i], lunarPhase(dates[i]));
      DescribedAppend(days, day, dates, lunarPhase);
      days := days + [day];
    }
  }

  /** One loop step of `BuildDays`: appending a record for the next date. */
  lemma DescribedAppend(days: seq<DayRecord>, day: DayRecord, dates: seq<Date>, lunarPhase: Date -> string)
    requires |days| < |dates| && forall k :: 0 <= k < |dates| ==> Valid(dates[k])
    requires forall k :: 0 <= k < |days| ==> DescribesDay(days[k], dates[k], lunarPhase(dates[k]))
    requires DescribesDay(day, dates[|days|], lunarPhase(dates[|days|]))
    ensures forall k :: 0 <= k < |days| + 1 ==> DescribesDay((days + [day])[k], dates[k], lunarPhase(dates[k]))
  {
    forall k | 0 <= k < |days| + 1
      ensures DescribesDay((days + [day])[k], dates[k], lunarPhase(dates[k]))
    {
      if k < |days| {
        assert (days + [day])[k] == days[k];
      }
    }
  }


  /** `main` over any range: the records of the days from `from` to `to`. */
  method GenerateRange(from: Date, to: Date, lunarPhase: Date -> string) returns (days: seq<DayRecord>)
    requires Valid(from) && Valid(to)
    ensures |days| == RangeLength(from, to)
    ensures forall i :: 0 <= i < |days| ==>
              DescribesDay(days[i], AddDays(from, i), lunarPhase(AddDays(from, i)))
  {
    var dates := EachDay(from, to);
    days := BuildDays(dates, lunarPhase);
    forall i | 0 <= i < |days|
      ensures DescribesDay(days[i], AddDays(from, i), lunarPhase(AddDays(from, i)))
    {
      DaysFromAt(from, |dates|, i);
    }
  }

  /** The first and the last day `main` generates. */
  const AlmanacFrom := Date(2025, 1, 1)
  const AlmanacTo := Date(2026, 12, 31)

  /** 2025 has 365 days, so the range is two years of 365 days. */
  lemma AlmanacSpan()
    ensures DayNumber(AlmanacTo) == DayNumber(AlmanacFrom) + 729
  {
    YearStep(2025);
    DecemberEndsYear(2026);
  }

  /** Every day of the range falls in 2025 or 2026. */
  lemma AlmanacDayInYears(i: nat)
    requires i < 730
    ensures 2025 <= AddDays(AlmanacFrom, i).year <= 2026
  {
    AlmanacSpan();
    AddDaysNumber(AlmanacFrom, i);
    DayNumberOrder(AddDays(AlmanacFrom, i), AlmanacFrom);
    DayNumberOrder(AlmanacTo, AddDays(AlmanacFrom, i));
  }

  /** Where the record of a 2025 or 2026 date sits in the generated list. */
  function AlmanacIndex(d: Date): (i: nat)
    requires Valid(d) && 2025 <= d.year <= 2026
    ensures i < 730 && AddDays(AlmanacFrom, i) == d
  {
    DayNumberOrder(d, AlmanacFrom);
    DayNumberOrder(AlmanacTo, d);
    AlmanacSpan();
    var i := DayNumber(d) - DayNumber(AlmanacFrom);
    AddDaysNumber(AlmanacFrom, i);
    DayNumberOrder(d, AddDays(AlmanacFrom, i));
    i
  }

  lemma AlmanacLastDay()
    ensures AddDays(AlmanacFrom, 729) == AlmanacTo
  {
    AlmanacSpan();
    AddDaysNumber(AlmanacFrom, 729);
    DayNumberOrder(AddDays(AlmanacFrom, 729), AlmanacTo);
  }

  /** Later days of the range have larger date texts. */
  lemma AlmanacDatesAscend(i: nat, j: nat)
    requires i < j < 730
    ensures StrLess(ToLocalIso(AddDays(AlmanacFrom, i)), ToLocalIso(AddDays(AlmanacFrom, j)))
  {
    AlmanacDayInYears(i);
    AlmanacDayInYears(j);
    AddDaysNumber(AlmanacFrom, i);
    AddDaysNumber(AlmanacFrom, j);
    DayNumberOrder(AddDays(AlmanacFrom, i), AddDays(AlmanacFrom, j));
    LocalIsoOrder(AddDays(AlmanacFrom, i), AddDays(AlmanacFrom, j));
  }

  lemma AlmanacFromText()
    ensures ToLocalIso(AlmanacFrom) == "2025-01-01"
  {
    assert IntToString(2025) == "2025";
    assert PadStart(IntToString(1), 2, '0') == "01";
  }

  lemma AlmanacToText()
    ensures ToLocalIso(AlmanacTo) == "2026-12-31"
  {
    assert IntToString(2026) == "2026";
    assert PadStart(IntToString(12), 2, '0') == "12";
    assert PadStart(IntToString(31), 2, '0') == "31";
  }

  /** `main`: one record for every day of 2025 and 2026, in date order. */
  method GenerateAlmanac2025To2026(lunarPhase: Date -> string) returns (days: seq<DayRecord>)
    ensures |days| == 730
    ensures days[0].date == "2025-01-01" && days[729].date == "2026-12-31"
    ensures forall i, j :: 0 <= i < j < |days| ==> StrLess(days[i].date, days[j].date)
    ensures forall d :: Valid(d) && 2025 <= d.year <= 2026 ==>
              DescribesDay(days[AlmanacIndex(d)], d, lunarPhase(d))
  {
    days := GenerateRange(AlmanacFrom, AlmanacTo, lunarPhase);
    AlmanacSpan();
    forall i, j | 0 <= i < j < |days|
      ensures StrLess(days[i].date, days[j].date)
    {
      AlmanacDatesAscend(i, j);
    }
    forall d | Valid(d) && 2025 <= d.year <= 2026
      ensures DescribesDay(days[AlmanacIndex(d)], d, lunarPhase(d))
    {
    }
    AlmanacLastDay();
    AlmanacFromText();
    AlmanacToText();
  }
}
