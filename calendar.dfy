/** Dates as the core sees them: the clock readings it is given, the zero-padded
    month keys written by `wp_date('m')` and read back by the stats panel's
    `padStart(2, '0')`, and the per-year meta key `_downloads_<year>`. */
module Calendar {
  import opened Decimal

  type Month = m: int | 1 <= m <= 12 witness 1

  /** The clock readings one request uses: `wp_date('Y')` and `wp_date('m')`
      (site time), `gmdate('Y')` (UTC), `current_time('mysql')` and `time()`. */
  datatype Clock = Clock(year: int, month: Month, utcYear: int, mysqlNow: string, unixNow: int)

  /** Two-digit month key, '01' to '12'. */
  function MonthKey(m: Month): (k: string)
    ensures |k| == 2 && AllDigits(k) && DigitsValue(k) == m
  {
    var k := [DigitChar(m / 10), DigitChar(m % 10)];
    TwoDigitsValue(k);
    k
  }

  lemma TwoDigitsValue(k: string)
    requires |k| == 2 && AllDigits(k)
    ensures DigitsValue(k) == 10 * (k[0] as int - '0' as int) + (k[1] as int - '0' as int)
  {
    var first := k[..1];
    assert first[..|first| - 1] == [];
    assert DigitsValue(first) == first[0] as int - '0' as int;
    assert k[..|k| - 1] == first;
  }

  /** A key the month writer can produce: two digits whose value is a month. */
  predicate IsMonthKey(k: string) {
    |k| == 2 && AllDigits(k) && 1 <= DigitsValue(k) <= 12
  }

  /** Every month key is the key of the month it denotes. */
  lemma MonthKeyOfValue(k: string)
    requires IsMonthKey(k)
    ensures MonthKey(DigitsValue(k)) == k
  {
    var m: Month := DigitsValue(k);
    var j := MonthKey(m);
    TwoDigitsValue(k);
    TwoDigitsValue(j);
    assert k[0] == j[0] && k[1] == j[1];
  }

  lemma MonthKeyInjective(a: Month, b: Month)
    requires MonthKey(a) == MonthKey(b)
    ensures a == b
  {
  }

  /** The twelve keys '01'..'12'. */
  function AllMonthKeys(): set<string> {
    set m: Month | 1 <= m <= 12 :: MonthKey(m)
  }

  lemma AllMonthKeysAreMonthKeys(k: string)
    ensures k in AllMonthKeys() <==> IsMonthKey(k)
  {
    if IsMonthKey(k) {
      MonthKeyOfValue(k);
      var m: Month := DigitsValue(k);
      assert MonthKey(m) in AllMonthKeys();
    }
  }

  /** The post-meta key of a year's month map: `'_downloads_' . $year`. */
  function YearKey(year: int): string {
    "_downloads_" + IntToString(year)
  }

  /** Different years use different meta keys. */
  lemma YearKeyInjective(a: int, b: int)
    requires YearKey(a) == YearKey(b)
    ensures a == b
  {
    assert YearKey(a)[11..] == IntToString(a);
    assert YearKey(b)[11..] == IntToString(b);
    IntToStringInjective(a, b);
  }
}
