/** The home page: it sorts the imported records in place, groups them into
    `YYYY-MM` buckets, orders the month keys, clamps the selected month to a
    valid index, reads the year and month of the current key, filters the
    month's records, and steps between months. */
module HomePage {
  import opened JsRuntime
  import opened CivilDate
  import opened AlmanacDay

  // ---------------------------------------------------------------------
  // The in-place sort of the imported records by date.
  // ---------------------------------------------------------------------

  predicate DateLe(a: DayRecord, b: DayRecord)
  {
    StrLessEq(a.date, b.date)
  }

  /** `s[lo..hi]` is in ascending date order. */
  predicate SortedRange(s: seq<DayRecord>, lo: int, hi: int)
  {
    forall i, j :: lo <= i < j < hi && 0 <= i && j < |s| ==> DateLe(s[i], s[j])
  }

  /** The state of inserting the record now at `j` into the sorted `s[..i]`:
      the records before it are sorted, it and those after it up to `i` are
      sorted, and every record before it is no later than every record after
      it. */
  predicate Inserting(s: seq<DayRecord>, j: int, i: int)
  {
    && 0 <= j <= i < |s|
    && SortedRange(s, 0, j)
    && SortedRange(s, j, i + 1)
    && forall k, l :: 0 <= k < j < l <= i ==> DateLe(s[k], s[l])
  }

  lemma SwapStep(s: seq<DayRecord>, j: int, i: int)
    requires Inserting(s, j, i) && 0 < j && StrLess(s[j].date, s[j - 1].date)
    ensures Inserting(s[j - 1 := s[j]][j := s[j - 1]], j - 1, i)
  {
  }

  lemma InsertDone(s: seq<DayRecord>, j: int, i: int)
    requires Inserting(s, j, i) && (j == 0 || !StrLess(s[j].date, s[j - 1].date))
    ensures SortedRange(s, 0, i + 1)
  {
    if j > 0 {
      StrLessTotal(s[j].date, s[j - 1].date);
      forall k | 0 <= k < j
        ensures DateLe(s[k], s[j])
      {
        if k < j - 1 {
          StrLessEqTransitive(s[k].date, s[j - 1].date, s[j].date);
        }
      }
    }
  }

  /** `data.sort((a, b) => time(a.date) - time(b.date))`: the records end in
      ascending date order and are a permutation of the records before. */
  method SortByDate(a: array<DayRecord>)
    modifies a
    ensures SortedRange(a[..], 0, a.Length)
    ensures multiset(a[..]) == multiset(old(a[..]))
  {
    for i := 0 to a.Length
      invariant SortedRange(a[..], 0, i)
      invariant multiset(a[..]) == multiset(old(a[..]))
    {
      var j := i;
      while j > 0 && StrLess(a[j].date, a[j - 1].date)
        invariant Inserting(a[..], j, i)
        invariant multiset(a[..]) == multiset(old(a[..]))
      {
        SwapStep(a[..], j, i);
        a[j - 1], a[j] := a[j], a[j - 1];
        j := j - 1;
      }
      InsertDone(a[..], j, i);
    }
  }

  /** For the dates the generator writes, comparing the texts is comparing
      the dates, so the string order used above is the timestamp order. */
  lemma TextOrderIsTimeOrder(a: Date, b: Date)
    requires Valid(a) && Valid(b) && 1000 <= a.year <= 9999 && 1000 <= b.year <= 9999
    ensures StrLess(ToLocalIso(a), ToLocalIso(b)) <==> DayNumber(a) < DayNumber(b)
  {
    LocalIsoOrder(a, b);
    DayNumberOrder(a, b);
  }

  // ---------------------------------------------------------------------
  // groupByMonth
  // ---------------------------------------------------------------------

  /** `YYYY-MM-DD` with a year from 1000, a month 01..12 and a day 01..31:
      the texts whose `YYYY-MM` prefix is taken as the key (a day past its
      month's end is not checked). */
  predicate IsoShaped(s: string)
  {
    && |s| == 10
    && AllDigits(s[..4]) && s[4] == '-' && AllDigits(s[5..7]) && s[7] == '-' && AllDigits(s[8..])
    && s[0] != '0'
    && 1 <= DigitsValue(s[5..7]) <= 12
    && 1 <= DigitsValue(s[8..]) <= 31
  }

  /** The bucket key of a record: year and two-digit month of its date, read
      as the `YYYY-MM` prefix; an unreadable date gives "NaN-NaN". */
  function MonthKey(date: string): (key: string)
    ensures |key| == 7
    ensures IsoShaped(date) ==> key == date[..7]
  {
    if IsoShaped(date) then date[..7] else "NaN-NaN"
  }

  /** The bucket key of a record. */
  function MonthKeyOf(d: DayRecord): string
  {
    MonthKey(d.date)
  }

  /** The `filter` callback "has key `key`". */
  function HasKey(keyOf: DayRecord -> string, key: string): DayRecord -> bool
  {
    (d: DayRecord) => keyOf(d) == key
  }

  /** The records of `days` in the bucket `key`, in their order. */
  function InMonth(key: string): DayRecord -> bool
  {
    HasKey(MonthKeyOf, key)
  }

  /** A JavaScript object used as a dictionary: its keys in insertion order
      (the order `Object.keys` returns) and the value under each. */
  datatype Grouped = Grouped(keys: seq<string>, buckets: map<string, seq<DayRecord>>)

  /** The keys in order are exactly the keys present, each once. */
  ghost predicate WellKeyed(g: Grouped)
  {
    Distinct(g.keys) && forall key :: key in g.buckets <==> key in g.keys
  }

  /** The distinct keys of `s` in the order each is first met: the order in
      which `groupByMonth` adds properties to its accumulator. */
  function KeysInFirstUse(s: seq<DayRecord>, keyOf: DayRecord -> string): seq<string>
  {
    if s == [] then []
    else
      var keys := KeysInFirstUse(s[..|s| - 1], keyOf);
      var key := keyOf(s[|s| - 1]);
      if key in keys then keys else keys + [key]
  }

  /** The keys listed are exactly the keys of the records. */
  lemma {:induction false} KeysInFirstUseMembers(s: seq<DayRecord>, keyOf: DayRecord -> string, key: string)
    ensures key in KeysInFirstUse(s, keyOf) <==> exists k :: 0 <= k < |s| && keyOf(s[k]) == key
  {
    if s != [] {
      var p := s[..|s| - 1];
      KeysInFirstUseMembers(p, keyOf, key);
      if exists k :: 0 <= k < |s| && keyOf(s[k]) == key {
        var k :| 0 <= k < |s| && keyOf(s[k]) == key;
        if k < |p| {
          assert p[k] == s[k];
        }
      }
      if exists k :: 0 <= k < |p| && keyOf(p[k]) == key {
        var k :| 0 <= k < |p| && keyOf(p[k]) == key;
        assert s[k] == p[k];
      }
    }
  }

  /** A key listed earlier is used before a key listed later: every record
      with the later key comes after some record with the earlier one. */
  lemma {:induction false} FirstUseOrder(s: seq<DayRecord>, keyOf: DayRecord -> string, a: int, b: int, l: int)
    requires 0 <= a < b < |KeysInFirstUse(s, keyOf)|
    requires 0 <= l < |s| && keyOf(s[l]) == KeysInFirstUse(s, keyOf)[b]
    ensures exists j :: 0 <= j < l && keyOf(s[j]) == KeysInFirstUse(s, keyOf)[a]
  {
    var p := s[..|s| - 1];
    var keys := KeysInFirstUse(p, keyOf);
    var last := keyOf(s[|s| - 1]);
    assert KeysInFirstUse(s, keyOf)[a] == keys[a];
    if l < |p| && b < |keys| {
      assert p[l] == s[l];
      FirstUseOrder(p, keyOf, a, b, l);
      var j :| 0 <= j < l && keyOf(p[j]) == keys[a];
      assert s[j] == p[j];
    } else {
      KeysInFirstUseMembers(p, keyOf, keys[a]);
      var j :| 0 <= j < |p| && keyOf(p[j]) == keys[a];
      assert s[j] == p[j];
      if l < |p| {
        assert b == |keys| && p[l] == s[l];
        KeysInFirstUseMembers(p, keyOf, last);
      }
    }
  }

  /** Some record of `days[..i]` has key `key`. */
  ghost predicate KeySeen(days: seq<DayRecord>, i: int, keyOf: DayRecord -> string, key: string)
  {
    exists k :: 0 <= k < i && k < |days| && keyOf(days[k]) == key
  }

  /** The accumulator after the first `i` records, grouped by `keyOf`. */
  ghost predicate GroupedUpTo(days: seq<DayRecord>, i: int, keyOf: DayRecord -> string, g: Grouped)
  {
    && 0 <= i <= |days|
    && WellKeyed(g)
    && g.keys == KeysInFirstUse(days[..i], keyOf)
    && (forall key :: key in g.buckets <==> KeySeen(days, i, keyOf, key))
    && (forall key :: key in g.buckets ==> g.buckets[key] == Filter(days[..i], HasKey(keyOf, key)))
  }

  /** The loop of `groupByMonth`, for any key function: each record is pushed
      onto the bucket of its key, the bucket made (and its key appended) on
      first use, so the keys end in the order of their first use. */
  method GroupBy(days: seq<DayRecord>, keyOf: DayRecord -> string) returns (g: Grouped)
    ensures GroupedUpTo(days, |days|, keyOf, g)
  {
    var keys: seq<string> := [];
    var acc: map<string, seq<DayRecord>> := map[];
    for i := 0 to |days|
      invariant GroupedUpTo(days, i, keyOf, Grouped(keys, acc))
    {
      var day := days[i];
      var key := keyOf(day);
      ghost var before := Grouped(keys, acc);
      if key !in acc {
        acc := acc[key := []];
        keys := keys + [key];
      }
      acc := acc[key := acc[key] + [day]];
      GroupPush(days, i, keyOf, before, Grouped(keys, acc));
    }
    g := Grouped(keys, acc);
  }

  /** `groupByMonth`: every bucket holds exactly the records of its month, in
      their original order, and a key exists exactly when some record has it. */
  method GroupByMonth(days: seq<DayRecord>) returns (g: Grouped)
    ensures WellKeyed(g)
    ensures g.keys == KeysInFirstUse(days, MonthKeyOf)
    ensures forall key :: key in g.buckets <==> exists k :: 0 <= k < |days| && MonthKey(days[k].date) == key
    ensures forall key :: key in g.buckets ==> g.buckets[key] == Filter(days, InMonth(key))
  {
    g := GroupBy(days, MonthKeyOf);
    assert days[..|days|] == days;
  }

  /** Pushing record `i` onto its bucket (made first if missing) keeps the
      accumulator describing the records seen. */
  lemma GroupPush(days: seq<DayRecord>, i: int, keyOf: DayRecord -> string, before: Grouped, after: Grouped)
    requires GroupedUpTo(days, i, keyOf, before) && i < |days|
    requires var key := keyOf(days[i]);
      && after.keys == (if key in before.buckets then before.keys else before.keys + [key])
      && after.buckets == before.buckets[key := (if key in before.buckets then before.buckets[key] else []) + [days[i]]]
    ensures GroupedUpTo(days, i + 1, keyOf, after)
  {
    GroupPushKeys(days, i, keyOf, before, after);
    GroupPushBuckets(days, i, keyOf, before.buckets, after.buckets);
  }

  /** The buckets after a push: the record's own bucket gains it at the end,
      the others stay the filters they were. */
  lemma GroupPushBuckets(days: seq<DayRecord>, i: int, keyOf: DayRecord -> string,
                         before: map<string, seq<DayRecord>>, after: map<string, seq<DayRecord>>)
    requires 0 <= i < |days|
    requires forall key :: key in before <==> KeySeen(days, i, keyOf, key)
    requires forall key :: key in before ==> before[key] == Filter(days[..i], HasKey(keyOf, key))
    requires var key := keyOf(days[i]);
      after == before[key := (if key in before then before[key] else []) + [days[i]]]
    ensures forall key :: key in after ==> after[key] == Filter(days[..i + 1], HasKey(keyOf, key))
  {
    var key := keyOf(days[i]);
    if key !in before {
      FilterNone(days[..i], keyOf, key);
    }
    GroupStep(days, i, keyOf, after, key);
  }

  /** The keys after a push: the new key is added once, at the end. */
  lemma GroupPushKeys(days: seq<DayRecord>, i: int, keyOf: DayRecord -> string, before: Grouped, after: Grouped)
    requires WellKeyed(before) && 0 <= i < |days|
    requires before.keys == KeysInFirstUse(days[..i], keyOf)
    requires forall key :: key in before.buckets <==> KeySeen(days, i, keyOf, key)
    requires var key := keyOf(days[i]);
      && after.keys == (if key in before.buckets then before.keys else before.keys + [key])
      && after.buckets.Keys == before.buckets.Keys + {key}
    ensures WellKeyed(after)
    ensures after.keys == KeysInFirstUse(days[..i + 1], keyOf)
    ensures forall key :: key in after.buckets <==> KeySeen(days, i + 1, keyOf, key)
  {
    assert days[..i + 1][..i] == days[..i];
    forall key
      ensures key in after.buckets <==> KeySeen(days, i + 1, keyOf, key)
    {
      if KeySeen(days, i + 1, keyOf, key) && key != keyOf(days[i]) {
        var k :| 0 <= k < i + 1 && k < |days| && keyOf(days[k]) == key;
        assert KeySeen(days, i, keyOf, key);
      }
    }
  }

  /** A key no record of `s` has gets an empty filter. */
  lemma FilterNone(s: seq<DayRecord>, keyOf: DayRecord -> string, key: string)
    requires forall k :: 0 <= k < |s| ==> keyOf(s[k]) != key
    ensures Filter(s, HasKey(keyOf, key)) == []
  {
    var r := Filter(s, HasKey(keyOf, key));
    if r != [] {
      assert r[0] in r;
      SubsequenceMember(r, s, r[0]);
    }
  }

  lemma {:induction false} SubsequenceMember<T>(a: seq<T>, b: seq<T>, x: T)
    requires IsSubsequence(a, b) && x in a
    ensures x in b
    decreases |a| + |b|
  {
    if a[|a| - 1] == b[|b| - 1] && IsSubsequence(a[..|a| - 1], b[..|b| - 1]) {
      if x != a[|a| - 1] {
        assert x in a[..|a| - 1];
        SubsequenceMember(a[..|a| - 1], b[..|b| - 1], x);
      }
    } else {
      SubsequenceMember(a, b[..|b| - 1], x);
    }
  }

  /** One push keeps every bucket equal to the filter of the records seen. */
  lemma GroupStep(days: seq<DayRecord>, i: int, keyOf: DayRecord -> string,
                  acc: map<string, seq<DayRecord>>, key: string)
    requires 0 <= i < |days| && key == keyOf(days[i]) && key in acc
    requires acc[key] == Filter(days[..i], HasKey(keyOf, key)) + [days[i]]
    ensures acc[key] == Filter(days[..i + 1], HasKey(keyOf, key))
    ensures forall other :: other != key ==>
              Filter(days[..i + 1], HasKey(keyOf, other)) == Filter(days[..i], HasKey(keyOf, other))
  {
    assert days[..i + 1] == days[..i] + [days[i]];
    FilterAppend(days[..i], days[i], HasKey(keyOf, key));
    forall other | other != key
      ensures Filter(days[..i + 1], HasKey(keyOf, other)) == Filter(days[..i], HasKey(keyOf, other))
    {
      FilterAppend(days[..i], days[i], HasKey(keyOf, other));
    }
  }

  /** Each record lands in exactly one bucket, the one of its key: with
      `keyOf` = `MonthKeyOf` this is the bucket of its month, as
      `GroupByMonth` ensures every bucket is that filter. */
  lemma GroupPartitions(days: seq<DayRecord>, keyOf: DayRecord -> string, g: Grouped, k: int)
    requires forall key :: key in g.buckets ==> g.buckets[key] == Filter(days, HasKey(keyOf, key))
    requires 0 <= k < |days| && keyOf(days[k]) in g.buckets
    ensures days[k] in g.buckets[keyOf(days[k])]
    ensures forall key :: key in g.buckets && key != keyOf(days[k]) ==> days[k] !in g.buckets[key]
  {
    assert HasKey(keyOf, keyOf(days[k]))(days[k]);
  }

  // ---------------------------------------------------------------------
  // Month keys, the current month, and its records.
  // ---------------------------------------------------------------------

  /** `Object.keys(grouped).sort()`: the keys in ascending string order. */
  function MonthKeys(g: Grouped): (monthKeys: seq<string>)
    requires WellKeyed(g)
    ensures StrictlyAscending(monthKeys)
    ensures forall key :: key in monthKeys <==> key in g.buckets
    ensures |monthKeys| == |g.keys|
  {
    var sorted := SortBy(g.keys, (key: string) => key);
    PermutationKeepsDistinct(g.keys, sorted);
    assert |sorted| == |multiset(sorted)|;
    assert forall key :: key in sorted <==> key in multiset(sorted);
    forall i, j | 0 <= i < j < |sorted|
      ensures StrLess(sorted[i], sorted[j])
    {
      assert StrLessEq(sorted[i], sorted[j]);
    }
    sorted
  }

  /** `Math.max(monthKeys.indexOf(selected), 0)`. */
  function CurrentIndex(monthKeys: seq<string>, selected: string): (i: int)
    ensures 0 <= i
    ensures |monthKeys| > 0 ==> i < |monthKeys|
    ensures selected in monthKeys ==> monthKeys[i] == selected
    ensures selected !in monthKeys ==> i == 0
  {
    var k := IndexOf(monthKeys, selected);
    if k < 0 then 0 else k
  }

  /** `monthKeys[currentIndex] ?? ""`. */
  function CurrentKey(monthKeys: seq<string>, selected: string): (key: string)
    ensures |monthKeys| == 0 ==> key == ""
    ensures |monthKeys| > 0 ==> key in monthKeys
    ensures selected in monthKeys ==> key == selected
  {
    var i := CurrentIndex(monthKeys, selected);
    if i < |monthKeys| then monthKeys[i] else ""
  }

  /** The i-th field of `key.split("-")`, read with `Number`; a field that is
      not there (undefined) reads as NaN. */
  function KeyField(key: string, i: nat): JsNumber
  {
    var parts := Split(key, '-');
    if i < |parts| then Number(parts[i]) else NaN
  }

  /** `Number(yearStr) || new Date().getFullYear()`, with the clock's year a
      parameter. */
  function CurrentYear(currentKey: string, clockYear: int): (year: int)
    ensures year == clockYear || year > 0
  {
    OrElse(KeyField(currentKey, 0), clockYear)
  }

  /** `(Number(monthStr) || 1) - 1`. */
  function CurrentMonthIndex(currentKey: string): (monthIndex: int)
    ensures 0 <= monthIndex
  {
    OrElse(KeyField(currentKey, 1), 1) - 1
  }

  /** A well-formed key `YYYY-MM` reads back as its year and month, so the
      month index lies in 0..11. */
  lemma KeyFieldsOfMonthKey(year: int, month: int, clockYear: int)
    requires 1000 <= year <= 9999 && 1 <= month <= 12
    ensures var key := Digits(year, 4) + "-" + Digits(month, 2);
      CurrentYear(key, clockYear) == year && CurrentMonthIndex(key) == month - 1
  {
    var y, m := Digits(year, 4), Digits(month, 2);
    NoDashInDigits(y);
    NoDashInDigits(m);
    SplitAt(y, '-', m);
    SplitNoSeparator(m, '-');
    assert Pow10(2) == 100 && Pow10(4) == 10000;
    NumberOfDigits(year, 4);
    NumberOfDigits(month, 2);
  }

  lemma NoDashInDigits(s: string)
    requires AllDigits(s)
    ensures '-' !in s
  {
    forall i | 0 <= i < |s|
      ensures s[i] != '-'
    {
      assert IsDigit(s[i]);
    }
  }

  /** A four-digit year does not start with '0'. */
  lemma FourDigitLead(year: int)
    requires 1000 <= year <= 9999
    ensures Digits(year, 4)[0] != '0'
  {
    var a := year / 10;
    var b := a / 10;
    DigitsHead(year, 4);
    DigitsHead(a, 3);
    DigitsHead(b, 2);
    assert Digits(b / 10, 1) == [DigitChar(b / 10 % 10)];
  }

  /** The leading character of a fixed-width field is that of the field
      without its last digit. */
  lemma DigitsHead(n: nat, width: nat)
    requires 2 <= width
    ensures Digits(n, width)[0] == Digits(n / 10, width - 1)[0]
  {
  }

  /** The text of a date with a four-digit year is shaped `YYYY-MM-DD`. */
  lemma ShapedText(year: int, month: int, day: int)
    requires 1000 <= year <= 9999 && 1 <= month <= 12 && 1 <= day <= 31
    ensures var y, m := Digits(year, 4), Digits(month, 2);
      var s := y + ("-" + (m + ("-" + Digits(day, 2))));
      IsoShaped(s) && s[..7] == y + "-" + m
  {
    var y, m, dd := Digits(year, 4), Digits(month, 2), Digits(day, 2);
    var s := y + ("-" + (m + ("-" + dd)));
    assert s[..4] == y && s[5..7] == m && s[8..] == dd;
    assert s[..7] == y + "-" + m;
    assert Pow10(2) == 100;
    DigitsValueOfDigits(month, 2);
    DigitsValueOfDigits(day, 2);
    FourDigitLead(year);
  }

  /** The bucket key of a generated date is its year and two-digit month. */
  lemma MonthKeyOfLocalIso(d: Date)
    requires Valid(d) && 1000 <= d.year <= 9999
    ensures MonthKey(ToLocalIso(d)) == Digits(d.year, 4) + "-" + Digits(d.month, 2)
  {
    LocalIsoFields(d);
    ShapedText(d.year, d.month, d.day);
  }

  /** The three filter modes of the page. */
  datatype FilterMode = All | Farming | Business

  /** The filter callback `!!d.farming`. */
  function HasFarming(d: DayRecord): bool
  {
    d.farming.Some?
  }

  /** The filter callback `!!d.business`. */
  function HasBusiness(d: DayRecord): bool
  {
    d.business.Some?
  }

  /** `filteredMonthDays`: the month's records unchanged for "all", else the
      records that carry the chosen advice, in their order. */
  function FilterMonthDays(baseMonthDays: seq<DayRecord>, mode: FilterMode): (r: seq<DayRecord>)
    ensures mode == All ==> r == baseMonthDays
    ensures mode == Farming ==> r == Filter(baseMonthDays, HasFarming)
    ensures mode == Business ==> r == Filter(baseMonthDays, HasBusiness)
    ensures IsSubsequence(r, baseMonthDays)
    ensures mode == Farming ==>
              (forall x :: x in r ==> x.farming.Some?) &&
              forall k :: 0 <= k < |baseMonthDays| && baseMonthDays[k].farming.Some? ==> baseMonthDays[k] in r
    ensures mode == Business ==>
              (forall x :: x in r ==> x.business.Some?) &&
              forall k :: 0 <= k < |baseMonthDays| && baseMonthDays[k].business.Some? ==> baseMonthDays[k] in r
  {
    if mode == All then
      SubsequenceRefl(baseMonthDays);
      baseMonthDays
    else if mode == Farming then
      var r := Filter(baseMonthDays, HasFarming);
      assert forall x :: x in r ==> HasFarming(x);
      r
    else
      var r := Filter(baseMonthDays, HasBusiness);
      assert forall x :: x in r ==> HasBusiness(x);
      r
  }

  lemma {:induction false} SubsequenceRefl<T>(s: seq<T>)
    ensures IsSubsequence(s, s)
  {
    if s != [] {
      SubsequenceRefl(s[..|s| - 1]);
    }
  }

  /** `grouped[currentKey] ?? []`. */
  function BaseMonthDays(g: Grouped, currentKey: string): (days: seq<DayRecord>)
    ensures currentKey !in g.buckets ==> days == []
    ensures currentKey in g.buckets ==> days == g.buckets[currentKey]
  {
    var bucket := MapGet(g.buckets, currentKey);
    if bucket.Some? then bucket.value else []
  }

  /** With the buckets `groupByMonth` builds, the month's records are exactly
      the records whose key is the current key, in their order, and none
      when no record has that key. */
  lemma BaseMonthDaysOfGroupByMonth(days: seq<DayRecord>, g: Grouped, currentKey: string)
    requires forall key :: key in g.buckets <==> exists k :: 0 <= k < |days| && MonthKey(days[k].date) == key
    requires forall key :: key in g.buckets ==> g.buckets[key] == Filter(days, InMonth(key))
    ensures BaseMonthDays(g, currentKey) == Filter(days, InMonth(currentKey))
  {
    if currentKey !in g.buckets {
      FilterNone(days, MonthKeyOf, currentKey);
    }
  }

  // ---------------------------------------------------------------------
  // Month navigation.
  // ---------------------------------------------------------------------

  /** The page's month navigation state: the ordered month keys and the
      selected key (`selectedMonthKey`). */
  class MonthNavigator {
    var monthKeys: seq<string>
    var selectedMonthKey: string

    /** The selected key starts as the first month, or "" with no months. */
    constructor(keys: seq<string>)
      ensures monthKeys == keys
      ensures selectedMonthKey == if |keys| > 0 then keys[0] else ""
    {
      monthKeys := keys;
      selectedMonthKey := if |keys| > 0 then keys[0] else "";
    }

    function Index(): int
      reads this
    {
      CurrentIndex(monthKeys, selectedMonthKey)
    }

    /** `goPrevMonth`: nothing at the first month, else the month before. */
    method GoPrevMonth()
      modifies this
      ensures monthKeys == old(monthKeys)
      ensures old(Index()) <= 0 ==> selectedMonthKey == old(selectedMonthKey)
      ensures old(Index()) > 0 ==> selectedMonthKey == monthKeys[old(Index()) - 1]
    {
      var currentIndex := CurrentIndex(monthKeys, selectedMonthKey);
      if currentIndex <= 0 {
        return;
      }
      selectedMonthKey := monthKeys[currentIndex - 1];
    }

    /** `goNextMonth`: nothing at the last month, else the month after. */
    method GoNextMonth()
      modifies this
      ensures monthKeys == old(monthKeys)
      ensures old(Index()) >= |monthKeys| - 1 ==> selectedMonthKey == old(selectedMonthKey)
      ensures old(Index()) < |monthKeys| - 1 ==> selectedMonthKey == monthKeys[old(Index()) + 1]
    {
      var currentIndex := CurrentIndex(monthKeys, selectedMonthKey);
      if currentIndex >= |monthKeys| - 1 {
        return;
      }
      selectedMonthKey := monthKeys[currentIndex + 1];
    }

    /** The "Jump to" select: any value becomes the selected key. */
    method SelectMonth(key: string)
      modifies this
      ensures monthKeys == old(monthKeys) && selectedMonthKey == key
    {
      selectedMonthKey := key;
    }
  }

  /** With distinct keys, stepping back from a month other than the first
      selects the previous index, and stepping forward from one other than
      the last selects the next index; at either end the index stays. */
  lemma StepIndex(monthKeys: seq<string>, selected: string)
    requires Distinct(monthKeys)
    ensures var i := CurrentIndex(monthKeys, selected);
      && (0 < i ==> CurrentIndex(monthKeys, monthKeys[i - 1]) == i - 1)
      && (i < |monthKeys| - 1 ==> CurrentIndex(monthKeys, monthKeys[i + 1]) == i + 1)
  {
    var i := CurrentIndex(monthKeys, selected);
    if 0 < i {
      IndexOfDistinct(monthKeys, i - 1);
    }
    if i < |monthKeys| - 1 {
      IndexOfDistinct(monthKeys, i + 1);
    }
  }
}
