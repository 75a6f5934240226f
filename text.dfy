/**
 * The few Python string operations the modelled code relies on:
 * `startswith`, the `in` test, `replace`, `rsplit("/", 1)` and `str` of an
 * integer.
 */
module Text {

  /** `s.startswith(prefix)` */
  predicate StartsWith(s: string, prefix: string) {
    |prefix| <= |s| && s[..|prefix|] == prefix
  }

  /** `t` occurs in `s` starting at index `i`. */
  predicate OccursAt(s: string, t: string, i: int) {
    0 <= i && i + |t| <= |s| && s[i..i + |t|] == t
  }

  /** Python's substring test `t in s`. */
  predicate Contains(s: string, t: string)
    decreases |s|
  {
    StartsWith(s, t) || (|s| > 0 && Contains(s[1..], t))
  }

  /** The scan agrees with the definition by positions. */
  lemma {:induction false} ContainsIff(s: string, t: string)
    ensures Contains(s, t) <==> exists i :: OccursAt(s, t, i)
    decreases |s|
  {
    if exists i :: OccursAt(s, t, i) {
      var i :| OccursAt(s, t, i);
      if i == 0 {
        assert StartsWith(s, t);
      } else {
        assert s[1..][i - 1..i - 1 + |t|] == s[i..i + |t|];
        assert OccursAt(s[1..], t, i - 1);
        ContainsIff(s[1..], t);
      }
    }
    if Contains(s, t) && !StartsWith(s, t) {
      ContainsIff(s[1..], t);
      var i :| OccursAt(s[1..], t, i);
      assert s[1..][i..i + |t|] == s[i + 1..i + 1 + |t|];
      assert OccursAt(s, t, i + 1);
    } else if Contains(s, t) {
      assert OccursAt(s, t, 0);
    }
  }

  /**
   * `s.replace(pattern, replacement)` for a non-empty pattern: occurrences are found
   * scanning left to right and never overlap.
   */
  function Replace(s: string, pattern: string, replacement: string): string
    requires |pattern| > 0
    decreases |s|
  {
    if |s| == 0 then s
    else if StartsWith(s, pattern) then replacement + Replace(s[|pattern|..], pattern, replacement)
    else [s[0]] + Replace(s[1..], pattern, replacement)
  }

  /** A string without the pattern is left as it is. */
  lemma {:induction false} ReplaceWithoutOccurrence(s: string, pattern: string, replacement: string)
    requires |pattern| > 0 && !Contains(s, pattern)
    ensures Replace(s, pattern, replacement) == s
    decreases |s|
  {
    if |s| > 0 {
      ReplaceWithoutOccurrence(s[1..], pattern, replacement);
    }
  }

  /** The first occurrence is replaced and the scan resumes right after it. */
  lemma {:induction false} ReplaceFirstOccurrence(p: string, pattern: string, q: string, replacement: string)
    requires |pattern| > 0
    requires forall i :: 0 <= i < |p| ==> !OccursAt(p + pattern + q, pattern, i)
    ensures Replace(p + pattern + q, pattern, replacement) == p + replacement + Replace(q, pattern, replacement)
    decreases |p|
  {
    var s := p + pattern + q;
    if |p| == 0 {
      assert s == pattern + q;
      assert StartsWith(s, pattern);
      assert s[|pattern|..] == q;
    } else {
      assert !OccursAt(s, pattern, 0);
      assert !StartsWith(s, pattern);
      assert s[1..] == p[1..] + pattern + q;
      forall i | 0 <= i < |p[1..]|
        ensures !OccursAt(p[1..] + pattern + q, pattern, i)
      {
        assert !OccursAt(s, pattern, i + 1);
        assert s[1..][i..i + |pattern|] == s[i + 1..i + 1 + |pattern|];
      }
      ReplaceFirstOccurrence(p[1..], pattern, q, replacement);
      assert [s[0]] + p[1..] == p;
    }
  }

  /** A string with exactly one occurrence, at the end of `p`, has just that occurrence replaced. */
  lemma ReplaceSingleOccurrence(p: string, pattern: string, q: string, replacement: string)
    requires |pattern| > 0
    requires forall i :: 0 <= i < |p| ==> !OccursAt(p + pattern + q, pattern, i)
    requires !Contains(q, pattern)
    ensures Replace(p + pattern + q, pattern, replacement) == p + replacement + q
  {
    ReplaceFirstOccurrence(p, pattern, q, replacement);
    ReplaceWithoutOccurrence(q, pattern, replacement);
  }

  /**
   * `s.rsplit("/", 1)[-1]`: the longest suffix of `s` without a "/", which is
   * all of `s` when `s` holds no "/".
   */
  function AfterLastSlash(s: string): (r: string)
    ensures |r| <= |s| && r == s[|s| - |r|..]
    ensures '/' !in r
    ensures |r| < |s| ==> s[|s| - |r| - 1] == '/'
  {
    if |s| == 0 then ""
    else if s[|s| - 1] == '/' then ""
    else AfterLastSlash(s[..|s| - 1]) + [s[|s| - 1]]
  }

  /** A string without "/" is its own last segment. */
  lemma AfterLastSlashWithoutSlash(s: string)
    requires '/' !in s
    ensures AfterLastSlash(s) == s
  {
  }

  /** The segment after an explicit last "/" is what follows it. */
  lemma {:induction false} AfterLastSlashOfJoin(p: string, x: string)
    requires '/' !in x
    ensures AfterLastSlash(p + "/" + x) == x
    decreases |x|
  {
    var s := p + "/" + x;
    if |x| > 0 {
      assert s[..|s| - 1] == p + "/" + x[..|x| - 1];
      assert x[|x| - 1] in x;
      AfterLastSlashOfJoin(p, x[..|x| - 1]);
      assert x[..|x| - 1] + [x[|x| - 1]] == x;
    }
  }

  /** The digit character for `0 <= d < 10`. */
  function DigitChar(d: int): char
    requires 0 <= d < 10
  {
    ('0' as int + d) as char
  }

  /** `str(n)` for a non-negative integer: its decimal digits. */
  function Digits(n: nat): (r: string)
    ensures |r| > 0
    ensures forall i :: 0 <= i < |r| ==> '0' <= r[i] <= '9'
  {
    if n < 10 then [DigitChar(n)] else Digits(n / 10) + [DigitChar(n % 10)]
  }

  /** `str(n)` for any integer. */
  function Decimal(n: int): (r: string)
  {
    if n < 0 then "-" + Digits(-n) else Digits(n)
  }

  /** `int(s)` for a string of decimal digits, read left to right. */
  function ParseDigits(s: string): int
  {
    if s == [] then 0 else 10 * ParseDigits(s[..|s| - 1]) + ((s[|s| - 1] as int) - ('0' as int))
  }

  /** `int(s)` for an optionally signed decimal string. */
  function ParseDecimal(s: string): int
  {
    if |s| > 0 && s[0] == '-' then -ParseDigits(s[1..]) else ParseDigits(s)
  }

  lemma {:induction false} DigitsRoundTrip(n: nat)
    ensures ParseDigits(Digits(n)) == n
  {
    if n >= 10 {
      DigitsRoundTrip(n / 10);
      var s := Digits(n);
      assert s[..|s| - 1] == Digits(n / 10);
    }
  }

  /** `int(str(n)) == n`: the decimal form of an object number loses nothing. */
  lemma DecimalRoundTrip(n: int)
    ensures ParseDecimal(Decimal(n)) == n
  {
    if n < 0 {
      DigitsRoundTrip(-n);
      assert ("-" + Digits(-n))[1..] == Digits(-n);
    } else {
      DigitsRoundTrip(n);
    }
  }
}
