/** The PHP values the core reads back from WordPress stores, and the PHP
    conversions it applies to them: truthiness, `empty`, `is_numeric`/`intval`,
    the `(int)` cast and `str_replace`. */
module PhpValues {
  import opened Wrappers
  import opened Decimal

  /** A post-meta value as `get_post_meta($id, $key, true)` returns it: a string,
      an integer, or an array of month key => count (the only array shape the
      core stores in post meta). */
  datatype MetaValue = Text(s: string) | Count(n: int) | Months(counts: map<string, int>)

  /** What `get_post_meta(..., true)` returns for a key that was never written. */
  const Missing: MetaValue := Text("")

  /** PHP's `empty()` on a string: the empty string and "0". */
  predicate EmptyString(s: string) {
    s == "" || s == "0"
  }

  /** PHP's conversion to bool (`if ($v)`, `! $v`). */
  predicate Truthy(v: MetaValue) {
    match v
    case Text(s) => !EmptyString(s)
    case Count(n) => n != 0
    case Months(m) => m != map[]
  }

  /** `is_numeric` on a meta value. */
  predicate IsNumeric(v: MetaValue) {
    v.Count? || (v.Text? && IsIntString(v.s))
  }

  /** PHP's `(int)` cast (and `intval`): numeric strings give their value, other
      strings 0, an array 0 when empty and 1 otherwise. */
  function IntVal(v: MetaValue): int {
    match v
    case Text(s) => if IsIntString(s) then ParseInt(s) else 0
    case Count(n) => n
    case Months(m) => if m == map[] then 0 else 1
  }

  /** `is_numeric($value) ? intval($value) : null`. */
  function NumericOrNull(v: MetaValue): (r: Option<int>)
    ensures r.Some? <==> IsNumeric(v)
  {
    if IsNumeric(v) then Some(IntVal(v)) else None
  }

  /** An int stored as its decimal text reads back as that int, whether it is
      parsed by `intval` or checked with `is_numeric` first. */
  lemma StoredIntReadsBack(n: int)
    ensures IntVal(Text(IntToString(n))) == n
    ensures NumericOrNull(Text(IntToString(n))) == Some(n)
  {
    IntToStringRoundTrip(n);
  }

  /** A key never written counts as zero and is falsy. */
  lemma MissingIsZero()
    ensures IntVal(Missing) == 0 && !Truthy(Missing) && NumericOrNull(Missing) == None
  {
  }

  predicate OccursAt(s: string, pattern: string, i: nat) {
    i + |pattern| <= |s| && s[i..i + |pattern|] == pattern
  }

  ghost predicate Occurs(pattern: string, s: string) {
    exists i: nat :: OccursAt(s, pattern, i)
  }

  /** PHP's `str_replace($search, $replace, $subject)` for one search string:
      scans left to right and replaces every non-overlapping occurrence. An empty
      search string leaves the subject unchanged. */
  function StrReplace(search: string, replace: string, subject: string): string
    decreases |subject|
  {
    if search == "" || |subject| < |search| then subject
    else if subject[..|search|] == search then replace + StrReplace(search, replace, subject[|search|..])
    else [subject[0]] + StrReplace(search, replace, subject[1..])
  }

  lemma ShiftedOccurrence(s: string, pattern: string, i: nat)
    requires |s| > 0
    ensures OccursAt(s[1..], pattern, i) <==> OccursAt(s, pattern, i + 1)
  {
    if i + |pattern| <= |s[1..]| {
      assert s[1..][i..i + |pattern|] == s[i + 1..i + 1 + |pattern|];
    }
  }

  /** A subject in which the search string does not occur is returned unchanged. */
  lemma {:induction false} StrReplaceAbsent(search: string, replace: string, subject: string)
    requires !Occurs(search, subject)
    ensures StrReplace(search, replace, subject) == subject
    decreases |subject|
  {
    if search != "" && |subject| >= |search| {
      assert !OccursAt(subject, search, 0);
      assert subject[..|search|] != search;
      forall i: nat ensures !OccursAt(subject[1..], search, i) {
        ShiftedOccurrence(subject, search, i);
      }
      StrReplaceAbsent(search, replace, subject[1..]);
    }
  }

  /** Characters before the first occurrence are copied through unchanged. */
  lemma {:induction false} StrReplaceSkipsPrefix(search: string, replace: string, prefix: string, rest: string)
    requires search != ""
    requires forall i: nat :: i < |prefix| ==> !OccursAt(prefix + rest, search, i)
    ensures StrReplace(search, replace, prefix + rest) == prefix + StrReplace(search, replace, rest)
    decreases |prefix|
  {
    if prefix != [] {
      var s := prefix + rest;
      assert !OccursAt(s, search, 0);
      if |s| >= |search| {
        assert s[..|search|] != search;
        assert s[1..] == prefix[1..] + rest;
        forall i: nat | i < |prefix[1..]|
          ensures !OccursAt(prefix[1..] + rest, search, i)
        {
          ShiftedOccurrence(s, search, i);
        }
        StrReplaceSkipsPrefix(search, replace, prefix[1..], rest);
        calc {
          StrReplace(search, replace, s);
          [s[0]] + StrReplace(search, replace, s[1..]);
          [prefix[0]] + StrReplace(search, replace, prefix[1..] + rest);
          [prefix[0]] + (prefix[1..] + StrReplace(search, replace, rest));
          { assert prefix == [prefix[0]] + prefix[1..]; }
          prefix + StrReplace(search, replace, rest);
        }
      } else {
        assert StrReplace(search, replace, s) == s;
        assert StrReplace(search, replace, rest) == rest;
      }
    } else {
      assert prefix + rest == rest;
    }
  }

  /** The first occurrence is replaced and the scan resumes right after it, so
      every later occurrence is replaced in turn. */
  lemma StrReplaceAtOccurrence(search: string, replace: string, prefix: string, rest: string)
    requires search != ""
    requires forall i: nat :: i < |prefix| ==> !OccursAt(prefix + search + rest, search, i)
    ensures StrReplace(search, replace, prefix + search + rest) == prefix + replace + StrReplace(search, replace, rest)
  {
    assert prefix + search + rest == prefix + (search + rest);
    StrReplaceSkipsPrefix(search, replace, prefix, search + rest);
    assert (search + rest)[..|search|] == search && (search + rest)[|search|..] == rest;
  }

  /** A route whose only occurrence of the search string is at its very end has
      exactly that occurrence substituted. */
  lemma StrReplaceTrailing(search: string, replace: string, prefix: string)
    requires search != ""
    requires forall i: nat :: i < |prefix| ==> !OccursAt(prefix + search, search, i)
    ensures StrReplace(search, replace, prefix + search) == prefix + replace
  {
    StrReplaceSkipsPrefix(search, replace, prefix, search);
    assert search[..|search|] == search && search[|search|..] == "";
  }

  /** Replacing a string by itself changes nothing. */
  lemma {:induction false} StrReplaceSelf(search: string, subject: string)
    ensures StrReplace(search, search, subject) == subject
    decreases |subject|
  {
    if search != "" && |subject| >= |search| {
      if subject[..|search|] == search {
        StrReplaceSelf(search, subject[|search|..]);
        assert subject == subject[..|search|] + subject[|search|..];
      } else {
        StrReplaceSelf(search, subject[1..]);
        assert subject == [subject[0]] + subject[1..];
      }
    }
  }
}
