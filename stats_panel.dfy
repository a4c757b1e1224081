/** The editor's download-stats panel: the year options, the twelve monthly
    values of the selected year and their total, computed from the stats the
    REST endpoint returns. */
module StatsPanel {
  import opened Wrappers
  import opened Decimal
  import opened PhpValues
  import opened Calendar
  import opened UsageLog
  import opened RestApi
  import StatsFacts

  /** What `datasetStats?.log[selectedYear] || {}` evaluates to: a fresh empty
      object (the year is absent or its value falsy: `''` or 0), the stored
      month object itself, or a truthy primitive (a non-empty string such as
      "0", or a non-zero number). */
  datatype YearSlot = Fresh | Stored(counts: map<string, int>) | Primitive

  /** `monthKey in dataForYear` on a primitive throws. */
  datatype PanelError = TypeError

  function SlotOf(log: map<int, MetaValue>, year: int): (slot: YearSlot)
    ensures year !in log ==> slot == Fresh
    ensures slot.Stored? <==> year in log && log[year].Months?
    ensures slot.Stored? ==> slot.counts == log[year].counts
    ensures year in log && log[year] == Missing ==> slot == Fresh
    ensures slot.Primitive? <==> year in log && !log[year].Months?
                                 && (log[year].Text? ==> log[year].s != "")
                                 && (log[year].Count? ==> log[year].n != 0)
  {
    if year !in log then Fresh
    else match log[year]
      case Text(s) => if s == "" then Fresh else Primitive
      case Count(n) => if n == 0 then Fresh else Primitive
      case Months(m) => Stored(m)
  }

  /** Every key is a month key '01'..'12'. */
  predicate MonthKeysOnly(m: map<string, int>) {
    forall k :: k in m ==> IsMonthKey(k)
  }

  /** The month maps the download logger writes hold month keys only. */
  lemma LoggerWritesMonthKeysOnly(stored: MetaValue, month: Month)
    requires stored.Months? ==> MonthKeysOnly(stored.counts)
    ensures MonthKeysOnly(BumpMonth(stored, month))
  {
  }

  /** The year object after the fill loop. */
  function ZeroFilled(m: map<string, int>): (r: map<string, int>)
    ensures r.Keys == m.Keys + AllMonthKeys()
    ensures forall k :: k in m ==> r[k] == m[k]
    ensures forall k :: k in r && k !in m ==> r[k] == 0
  {
    map k | k in m.Keys + AllMonthKeys() :: if k in m then m[k] else 0
  }

  /** The fill loop: for i from 1 to 12, add `padStart`ed key i with 0 when
      it is missing. */
  method FillMonths(dataForYear: map<string, int>) returns (filled: map<string, int>)
    ensures filled == ZeroFilled(dataForYear)
  {
    filled := dataForYear;
    for i := 1 to 13
      invariant forall k :: k in filled <==> k in dataForYear || (IsMonthKey(k) && DigitsValue(k) < i)
      invariant forall k :: k in filled ==> filled[k] == if k in dataForYear then dataForYear[k] else 0
    {
      var monthKey := MonthKey(i);
      if monthKey !in filled {
        filled := filled[monthKey := 0];
      }
      forall k | IsMonthKey(k) && DigitsValue(k) == i ensures k == monthKey {
        MonthKeyOfValue(k);
      }
    }
    forall k ensures k in filled <==> k in ZeroFilled(dataForYear) {
      AllMonthKeysAreMonthKeys(k);
    }
  }

  /** The month keys of `keys` from month `m` on, in ascending numeric order:
      what `Object.keys(...).sort((a, b) => a - b)` yields on month keys. */
  function MonthKeysFrom(keys: set<string>, m: int): (r: seq<string>)
    requires 1 <= m <= 13
    ensures forall i :: 0 <= i < |r| ==> r[i] in keys && IsMonthKey(r[i]) && DigitsValue(r[i]) >= m
    ensures forall i, j :: 0 <= i < j < |r| ==>
              AllDigits(r[i]) && AllDigits(r[j]) && DigitsValue(r[i]) < DigitsValue(r[j])
    decreases 13 - m
  {
    if m == 13 then []
    else if MonthKey(m) in keys then [MonthKey(m)] + MonthKeysFrom(keys, m + 1)
    else MonthKeysFrom(keys, m + 1)
  }

  function SortedKeys(keys: set<string>): seq<string> {
    MonthKeysFrom(keys, 1)
  }

  /** The sort neither drops nor invents a month key. */
  lemma {:induction false} MonthKeysFromExact(keys: set<string>, m: int)
    requires 1 <= m <= 13
    ensures forall k :: k in MonthKeysFrom(keys, m) <==> k in keys && IsMonthKey(k) && DigitsValue(k) >= m
    decreases 13 - m
  {
    if m < 13 {
      MonthKeysFromExact(keys, m + 1);
      forall k | k in keys && IsMonthKey(k) && DigitsValue(k) >= m
        ensures k in MonthKeysFrom(keys, m)
      {
        if DigitsValue(k) == m {
          MonthKeyOfValue(k);
        }
      }
    }
  }

  /** The month keys from month `m` to December, in order. */
  function MonthKeyRun(m: int): (r: seq<string>)
    requires 1 <= m <= 13
    ensures |r| == 13 - m
    ensures forall i :: 0 <= i < |r| ==> r[i] == MonthKey(m + i)
    decreases 13 - m
  {
    if m == 13 then []
    else
      var rest := MonthKeyRun(m + 1);
      assert forall i :: 1 <= i < 13 - m ==> ([MonthKey(m)] + rest)[i] == rest[i - 1];
      [MonthKey(m)] + rest
  }

  /** On the twelve month keys the sort yields '01'..'12' in order. */
  lemma {:induction false} AllMonthsSorted(m: int)
    requires 1 <= m <= 13
    ensures MonthKeysFrom(AllMonthKeys(), m) == MonthKeyRun(m)
    decreases 13 - m
  {
    if m < 13 {
      AllMonthsSorted(m + 1);
      assert MonthKey(m) in AllMonthKeys();
    }
  }

  /** `sortedData.map((key) => dataForYear[key])`. */
  function Project(m: map<string, int>, keys: seq<string>): (r: seq<int>)
    requires forall i :: 0 <= i < |keys| ==> keys[i] in m
    ensures |r| == |keys|
    ensures forall i :: 0 <= i < |keys| ==> r[i] == m[keys[i]]
  {
    if keys == [] then [] else [m[keys[0]]] + Project(m, keys[1..])
  }

  /** Fill, sort, project. */
  function Densify(m: map<string, int>): seq<int>
    requires MonthKeysOnly(m)
  {
    var filled := ZeroFilled(m);
    Project(filled, SortedKeys(filled.Keys))
  }

  /** The count a month map holds for a month, 0 when the month is missing. */
  function MonthCount(m: map<string, int>, month: Month): int {
    if MonthKey(month) in m then m[MonthKey(month)] else 0
  }

  /** The twelve month counts, January first. */
  function MonthList(m: map<string, int>): seq<int> {
    seq(12, i requires 0 <= i < 12 => MonthCount(m, i + 1))
  }

  /** Fill, sort and project give twelve values, month i + 1 at index i,
      missing months 0. */
  lemma DensifyMonthOrder(m: map<string, int>)
    requires MonthKeysOnly(m)
    ensures Densify(m) == MonthList(m)
  {
    FilledSortsInMonthOrder(m);
    FilledMonthCounts(m);
    var d := Project(ZeroFilled(m), MonthKeyRun(1));
    assert Densify(m) == d;
    forall i | 0 <= i < 12 ensures d[i] == MonthList(m)[i] {
      var month: Month := i + 1;
      assert MonthKeyRun(1)[i] == MonthKey(month);
      assert d[i] == ZeroFilled(m)[MonthKey(month)];
      assert MonthList(m)[i] == MonthCount(m, month);
    }
    SameElements(d, MonthList(m));
  }

  lemma SameElements(s: seq<int>, t: seq<int>)
    requires |s| == |t|
    requires forall i :: 0 <= i < |s| ==> s[i] == t[i]
    ensures s == t
  {
  }

  /** After the fill, a month map holds exactly the twelve month keys, which
      sort in month order. */
  lemma FilledSortsInMonthOrder(m: map<string, int>)
    requires MonthKeysOnly(m)
    ensures SortedKeys(ZeroFilled(m).Keys) == MonthKeyRun(1)
  {
    forall k | k in m ensures k in AllMonthKeys() {
      AllMonthKeysAreMonthKeys(k);
    }
    assert ZeroFilled(m).Keys == AllMonthKeys();
    AllMonthsSorted(1);
  }

  /** After the fill, every month holds its count. */
  lemma FilledMonthCounts(m: map<string, int>)
    ensures forall month: Month :: MonthKey(month) in ZeroFilled(m) && ZeroFilled(m)[MonthKey(month)] == MonthCount(m, month)
  {
    forall month: Month
      ensures MonthKey(month) in ZeroFilled(m) && ZeroFilled(m)[MonthKey(month)] == MonthCount(m, month)
    {
      assert MonthKey(month) in AllMonthKeys();
    }
  }

  /** The `data` memo, from the log the panel holds (None before the stats
      arrive) and the selected year. */
  function DataFor(log: Option<map<int, MetaValue>>, year: int): (r: Result<seq<int>, PanelError>)
    requires log.Some? && SlotOf(log.value, year).Stored? ==> MonthKeysOnly(SlotOf(log.value, year).counts)
    ensures log.None? ==> r == Ok([])
    ensures log.Some? ==> (r.Err? <==> SlotOf(log.value, year).Primitive?)
  {
    if log.None? then Ok([])
    else match SlotOf(log.value, year)
      case Primitive => Err(TypeError)
      case Fresh => Ok(Densify(map[]))
      case Stored(m) => Ok(Densify(m))
  }

  /** A year the log does not hold, or holds as `''`, shows twelve zeros. */
  lemma AbsentYearShowsZeros(log: map<int, MetaValue>, year: int)
    requires year !in log || log[year] == Missing
    ensures DataFor(Some(log), year) == Ok(seq(12, _ => 0))
  {
    assert DataFor(Some(log), year) == Ok(Densify(map[]));
    DensifyMonthOrder(map[]);
    NoMonthsAreZeros();
  }

  /** With no month stored, every month counts 0. */
  lemma NoMonthsAreZeros()
    ensures MonthList(map[]) == seq(12, _ => 0)
  {
    SameElements(MonthList(map[]), seq(12, _ => 0));
  }

  /** A stored year shows its months in order. */
  lemma StoredYearShowsMonths(log: map<int, MetaValue>, year: int)
    requires year in log && log[year].Months? && MonthKeysOnly(log[year].counts)
    ensures DataFor(Some(log), year) == Ok(MonthList(log[year].counts))
  {
    assert DataFor(Some(log), year) == Ok(Densify(log[year].counts));
    DensifyMonthOrder(log[year].counts);
  }

  /** `data.reduce((acc, curr) => acc + curr, acc)`. */
  function Reduce(acc: int, data: seq<int>): int
    decreases data
  {
    if data == [] then acc else Reduce(acc + data[0], data[1..])
  }

  /** The `total` memo. */
  function Total(data: seq<int>): int {
    Reduce(0, data)
  }

  /** The sum of a list. */
  function Sum(data: seq<int>): int {
    if data == [] then 0 else data[0] + Sum(data[1..])
  }

  lemma {:induction false} ReduceAddsSum(acc: int, data: seq<int>)
    ensures Reduce(acc, data) == acc + Sum(data)
    decreases data
  {
    if data != [] {
      ReduceAddsSum(acc + data[0], data[1..]);
    }
  }

  /** The displayed total is the sum of the displayed values. */
  lemma TotalIsSum(data: seq<int>)
    ensures Total(data) == Sum(data)
  {
    ReduceAddsSum(0, data);
  }

  lemma {:induction false} SumPointUpdate(s: seq<int>, t: seq<int>, i: nat, d: int)
    requires |s| == |t| && i < |s|
    requires forall j :: 0 <= j < |s| && j != i ==> s[j] == t[j]
    requires t[i] == s[i] + d
    ensures Sum(t) == Sum(s) + d
  {
    if i > 0 {
      SumPointUpdate(s[1..], t[1..], i - 1, d);
    } else {
      assert s[1..] == t[1..];
    }
  }

  /** One logged download raises the panel's total for that year by one, or
      by two for the month's first download. */
  lemma DownloadRaisesTotal(stored: MetaValue, month: Month)
    requires stored.Months? ==> MonthKeysOnly(stored.counts)
    ensures MonthKeysOnly(MonthsOf(stored))
    ensures MonthKeysOnly(BumpMonth(stored, month))
    ensures Total(Densify(BumpMonth(stored, month)))
            == Total(Densify(MonthsOf(stored))) + if MonthKey(month) in MonthsOf(stored) then 1 else 2
  {
    LoggerWritesMonthKeysOnly(stored, month);
    TotalOfMonths(MonthsOf(stored));
    TotalOfMonths(BumpMonth(stored, month));
    BumpRaisesMonthSum(stored, month);
  }

  lemma TotalOfMonths(m: map<string, int>)
    requires MonthKeysOnly(m)
    ensures Total(Densify(m)) == Sum(MonthList(m))
  {
    DensifyMonthOrder(m);
    TotalIsSum(MonthList(m));
  }

  lemma BumpRaisesMonthSum(stored: MetaValue, month: Month)
    ensures Sum(MonthList(BumpMonth(stored, month)))
            == Sum(MonthList(MonthsOf(stored))) + if MonthKey(month) in MonthsOf(stored) then 1 else 2
  {
    var before, after := MonthsOf(stored), BumpMonth(stored, month);
    BumpChangesOneMonth(stored, month);
    var s, t := MonthList(before), MonthList(after);
    forall j | 0 <= j < 12 && j != month - 1 ensures s[j] == t[j] {
      var other: Month := j + 1;
      assert s[j] == MonthCount(before, other);
    }
    SumPointUpdate(s, t, month - 1, if MonthKey(month) in before then 1 else 2);
  }

  /** Only the current month's count changes, by one, or by two when the
      month was missing. */
  lemma BumpChangesOneMonth(stored: MetaValue, month: Month)
    ensures forall other: Month :: other != month ==>
              MonthCount(BumpMonth(stored, month), other) == MonthCount(MonthsOf(stored), other)
    ensures MonthCount(BumpMonth(stored, month), month)
            == MonthCount(MonthsOf(stored), month) + if MonthKey(month) in MonthsOf(stored) then 1 else 2
  {
    forall other: Month | other != month
      ensures MonthCount(BumpMonth(stored, month), other) == MonthCount(MonthsOf(stored), other)
    {
      if MonthKey(other) == MonthKey(month) {
        MonthKeyInjective(other, month);
      }
    }
  }

  /** Set extensionality for the empty set. */
  lemma EmptyWithoutMembers(s: set<int>)
    ensures (forall y :: y !in s) ==> s == {}
  {
    if forall y :: y !in s {
      assert forall y :: y in s <==> y in {};
    }
  }

  /** `m` is the least year of `s`. */
  predicate IsLeast(m: int, s: set<int>) {
    m in s && forall y :: y in s ==> m <= y
  }

  lemma {:induction false} HasMinimum(s: set<int>)
    requires s != {}
    ensures exists m :: IsLeast(m, s)
    decreases |s|
  {
    EmptyWithoutMembers(s);
    var x :| x in s;
    if s == {x} {
      assert IsLeast(x, s);
    } else {
      var rest := s - {x};
      HasMinimum(rest);
      var m :| IsLeast(m, rest);
      var least := if x < m then x else m;
      forall y | y in s ensures least <= y {
        if y != x {
          assert y in rest;
        }
      }
      assert IsLeast(least, s);
    }
  }

  lemma LeastIsUnique(s: set<int>)
    ensures forall a, b :: IsLeast(a, s) && IsLeast(b, s) ==> a == b
  {
  }

  /** A set of years in ascending order, the order `Object.keys` lists
      integer keys in. */
  function AscendingYears(s: set<int>): (r: seq<int>)
    ensures forall y :: y in r <==> y in s
    ensures forall i, j :: 0 <= i < j < |r| ==> r[i] < r[j]
    decreases |s|
  {
    if s == {} then []
    else
      HasMinimum(s);
      LeastIsUnique(s);
      var m :| IsLeast(m, s);
      [m] + AscendingYears(s - {m})
  }

  /** The `years` memo: no options before the stats arrive, otherwise exactly
      the years of the log, ascending. */
  function Years(log: Option<map<int, MetaValue>>): (r: seq<int>)
    ensures log.None? ==> r == []
    ensures log.Some? ==> forall y :: y in r <==> y in log.value
    ensures forall i, j :: 0 <= i < j < |r| ==> r[i] < r[j]
  {
    if log.None? then [] else AscendingYears(log.value.Keys)
  }

  /** The year options the fetched stats offer: 2020 to the current UTC year. */
  lemma FetchedYearsOffered(meta: MetaStore, id: int, utcYear: int)
    requires utcYear >= FirstLoggedYear
    ensures var r := Years(Some(StatsOf(meta, id, utcYear).log));
            |r| == utcYear - FirstLoggedYear + 1 && forall y :: y in r <==> FirstLoggedYear <= y <= utcYear
  {
    var log := StatsOf(meta, id, utcYear).log;
    StatsFacts.StatsYears(meta, id, utcYear);
    AscendingYearsLength(log.Keys);
  }

  /** Listing a set of years neither repeats nor drops one. */
  lemma AscendingYearsLength(s: set<int>)
    ensures |AscendingYears(s)| == |s|
  {
    var r := AscendingYears(s);
    StatsFacts.DistinctImageSize(r, |r|);
    assert (set i | 0 <= i < |r| :: r[i]) == s;
  }

  /** The panel state the memos read: `datasetStats?.log`, None until the
      stats have arrived. The `data` memo fills the year object it finds in
      place, so a stored year of this log is changed by it. */
  class Panel {
    var log: Option<map<int, MetaValue>>

    constructor (stats: Option<Stats>)
      ensures log == if stats.Some? then Some(stats.value.log) else None
    {
      log := if stats.Some? then Some(stats.value.log) else None;
    }

    /** The `data` memo for the selected year. */
    method Data(selectedYear: int) returns (r: Result<seq<int>, PanelError>)
      requires log.Some? && SlotOf(log.value, selectedYear).Stored?
               ==> MonthKeysOnly(SlotOf(log.value, selectedYear).counts)
      modifies this
      ensures r == DataFor(old(log), selectedYear)
      ensures old(log).Some? && SlotOf(old(log).value, selectedYear).Stored?
              ==> log == Some(old(log).value[selectedYear :=
                                Months(ZeroFilled(SlotOf(old(log).value, selectedYear).counts))])
      ensures old(log).None? || !SlotOf(old(log).value, selectedYear).Stored? ==> log == old(log)
    {
      if log.None? {
        return Ok([]);
      }
      var slot := SlotOf(log.value, selectedYear);
      if slot.Primitive? {
        return Err(TypeError);
      }
      var dataForYear := if slot.Stored? then slot.counts else map[];
      dataForYear := FillMonths(dataForYear);
      if slot.Stored? {
        log := Some(log.value[selectedYear := Months(dataForYear)]);
      }
      var sortedData := SortedKeys(dataForYear.Keys);
      r := Ok(Project(dataForYear, sortedData));
    }
  }

  /** Filling a stored year in place changes neither the year options nor
      what the next render shows for that year. */
  lemma FillInPlaceIsHarmless(log: map<int, MetaValue>, year: int)
    requires SlotOf(log, year).Stored? && MonthKeysOnly(SlotOf(log, year).counts)
    ensures var filled := log[year := Months(ZeroFilled(SlotOf(log, year).counts))];
            && Years(Some(filled)) == Years(Some(log))
            && MonthKeysOnly(SlotOf(filled, year).counts)
            && DataFor(Some(filled), year) == DataFor(Some(log), year)
  {
    var m := SlotOf(log, year).counts;
    var filled := log[year := Months(ZeroFilled(m))];
    assert filled.Keys == log.Keys;
    forall k | k in ZeroFilled(m) ensures IsMonthKey(k) {
      AllMonthKeysAreMonthKeys(k);
    }
    FillKeepsCounts(m);
    StoredYearShowsMonths(log, year);
    StoredYearShowsMonths(filled, year);
  }

  /** Filling adds zeros only where a month was missing. */
  lemma FillKeepsCounts(m: map<string, int>)
    ensures MonthList(ZeroFilled(m)) == MonthList(m)
  {
    forall month: Month ensures MonthCount(ZeroFilled(m), month) == MonthCount(m, month) {
      assert MonthKey(month) in AllMonthKeys();
    }
  }
}
