/** One day of the almanac, as the generator writes it and the page reads it,
    and the display label of a moon-phase slug. */
module AlmanacDay {
  import opened JsRuntime

  /** A `{ bestFor, avoid }` pair of guidance lists. */
  datatype Advice = Advice(bestFor: seq<string>, avoid: seq<string>)

  /** An absent or null optional field is `None`. The constant placeholders
      `region`, `sign` and `eclipse` carry no behaviour and are not fields here. */
  datatype DayRecord = DayRecord(
    date: string,
    moonPhase: string,
    moonName: Option<string>,
    notes: Option<string>,
    holiday: Option<string>,
    crops: seq<string>,
    farming: Option<Advice>,
    business: Option<Advice>)

  /** The sort and lookup key of a record. */
  function DateKey(d: DayRecord): string
  {
    d.date
  }

  /** The eight moon-phase slugs, from new moon round to waning crescent. */
  const PhaseSlugs: seq<string> := [
    "new", "waxing_crescent", "first_quarter", "waxing_gibbous",
    "full", "waning_gibbous", "last_quarter", "waning_crescent"]

  /** The `phaseLabels` record shared by the calendar grid and the today strip. */
  const PhaseLabels: map<string, string> := map[
    "new" := "New Moon",
    "waxing_crescent" := "Waxing Crescent",
    "first_quarter" := "First Quarter",
    "waxing_gibbous" := "Waxing Gibbous",
    "full" := "Full Moon",
    "waning_gibbous" := "Waning Gibbous",
    "last_quarter" := "Last Quarter",
    "waning_crescent" := "Waning Crescent"]

  /** `phaseLabels[slug] ?? slug`: a known slug shows its own label, any
      other slug shows itself. */
  function PhaseLabel(slug: string): (text: string)
    ensures slug in PhaseLabels ==> text == PhaseLabels[slug]
    ensures slug in PhaseSlugs ==> text in PhaseLabels.Values && text != slug
    ensures slug !in PhaseSlugs ==> text == slug
  {
    if slug in PhaseLabels then PhaseLabels[slug] else slug
  }

  /** Different known slugs show different labels. */
  lemma PhaseLabelInjective(a: string, b: string)
    requires a in PhaseSlugs && b in PhaseSlugs && a != b
    ensures PhaseLabel(a) != PhaseLabel(b)
  {
  }
}
