/**
 * Choosing a record's display name (`get_primary_name`): the first Name
 * classified as the primary name wins outright; otherwise the Name with the
 * most languages, the earliest one on ties; no Name at all gives nothing.
 */
module PrimaryNames {
  import opened Outcomes
  import opened LinkedArt

  /** The Getty AAT concept "preferred terms", which marks a primary name. */
  const PRIMARY := "http://vocab.getty.edu/aat/300404670"

  /** The id of the first equivalent of a language or classification entry; no `equivalent` key reads as a null id. */
  function EquivalentId(x: EntityRef): (r: Outcome<Option<string>>)
    ensures r == Ok(None) <==> x.equivalent.None?
    ensures r.Ok? && r.value.Some? ==>
      x.equivalent.Some? && x.equivalent.value != [] && x.equivalent.value[0].id == r.value
    ensures x.equivalent == Some([]) ==> r == Raised(IndexError)
    ensures x.equivalent.Some? && x.equivalent.value != [] && x.equivalent.value[0].id.None? ==> r == Raised(KeyError)
  {
    match x.equivalent
    case None => Ok(None)
    case Some(eqs) =>
      if |eqs| == 0 then Raised(IndexError)
      else if eqs[0].id.None? then Raised(KeyError)
      else Ok(eqs[0].id)
  }

  /** The list comprehension of `EquivalentId` over `xs`. */
  function EquivalentIds(xs: seq<EntityRef>): Outcome<seq<Option<string>>>
  {
    MapAll(EquivalentId, xs)
  }

  /** `len(x.get("language", []))`, the sort key. */
  function LanguageCount(n: Statement): nat {
    |n.language.GetOr([])|
  }

  /** A Name whose language and classification entries can all be read without raising. */
  predicate Readable(n: Statement) {
    n.typeName == "Name" ==>
      EquivalentIds(n.language.GetOr([])).Ok? && EquivalentIds(n.classifiedAs.GetOr([])).Ok?
  }

  /** A readable Name classified as PRIMARY. */
  predicate IsPrimary(n: Statement) {
    && n.typeName == "Name"
    && EquivalentIds(n.classifiedAs.GetOr([])).Ok?
    && Some(PRIMARY) in EquivalentIds(n.classifiedAs.GetOr([])).value
  }

  /** The entries of type Name, in order: the candidate pool. */
  function NameEntries(names: seq<Statement>): (r: seq<Statement>)
    ensures forall x :: x in r ==> x in names && x.typeName == "Name"
  {
    if names == [] then []
    else (if names[0].typeName == "Name" then [names[0]] else []) + NameEntries(names[1..])
  }

  /** What the loop of `get_primary_name` ends with: an early return, or the candidates it collected. */
  datatype Scan = Exact(name: Statement) | Pool(candidates: seq<Statement>)

  /** Puts already collected candidates in front of what the rest of the scan collects. */
  function Resume(candidates: seq<Statement>, rest: Outcome<Scan>): Outcome<Scan>
  {
    match rest
    case Ok(Pool(more)) => Ok(Pool(candidates + more))
    case _ => rest
  }

  /**
   * The loop over `names`: non-Name entries are passed over; each Name has
   * its language and classification ids read (either may raise); a Name
   * classified PRIMARY ends the scan, the others are collected.
   */
  function ScanNames(names: seq<Statement>): (r: Outcome<Scan>)
    ensures r.Ok? && r.value.Exact? ==> r.value.name in names && IsPrimary(r.value.name)
    ensures r.Ok? && r.value.Pool? ==> forall x :: x in r.value.candidates ==> x in names && x.typeName == "Name"
  {
    if names == [] then Ok(Pool([]))
    else if names[0].typeName != "Name" then ScanNames(names[1..])
    else
      var langs :- EquivalentIds(names[0].language.GetOr([]));
      var cxns :- EquivalentIds(names[0].classifiedAs.GetOr([]));
      if Some(PRIMARY) in cxns then Ok(Exact(names[0]))
      else Resume([names[0]], ScanNames(names[1..]))
  }

  /** Stable insertion of `n` (which came first in the input) into a list sorted by decreasing language count. */
  function Insert(n: Statement, sorted: seq<Statement>): (r: seq<Statement>)
    ensures |r| == |sorted| + 1
    ensures multiset(r) == multiset(sorted) + multiset{n}
  {
    if sorted == [] || LanguageCount(sorted[0]) <= LanguageCount(n) then [n] + sorted
    else
      assert sorted == [sorted[0]] + sorted[1..];
      [sorted[0]] + Insert(n, sorted[1..])
  }

  /** The candidates sorted by language count, most first; Python's sort is stable, so ties keep their order. */
  function SortByLanguageCount(c: seq<Statement>): (r: seq<Statement>)
    ensures multiset(r) == multiset(c)
    ensures |r| == |c|
  {
    if c == [] then []
    else
      assert c == [c[0]] + c[1..];
      Insert(c[0], SortByLanguageCount(c[1..]))
  }

  predicate Descending(s: seq<Statement>) {
    forall i, j :: 0 <= i < j < |s| ==> LanguageCount(s[i]) >= LanguageCount(s[j])
  }

  lemma {:induction false} InsertDescending(n: Statement, sorted: seq<Statement>)
    requires Descending(sorted)
    ensures Descending(Insert(n, sorted))
    decreases |sorted|
  {
    if !(sorted == [] || LanguageCount(sorted[0]) <= LanguageCount(n)) {
      var tail := sorted[1..];
      InsertDescending(n, tail);
      forall k | 0 <= k < |tail|
        ensures LanguageCount(tail[k]) <= LanguageCount(sorted[0])
      {
        assert tail[k] == sorted[k + 1];
      }
      InsertBounded(n, tail, LanguageCount(sorted[0]));
      var r := Insert(n, sorted);
      assert r == [sorted[0]] + Insert(n, tail);
      forall i, j | 0 <= i < j < |r|
        ensures LanguageCount(r[i]) >= LanguageCount(r[j])
      {
        if i > 0 {
          assert r[i] == Insert(n, tail)[i - 1];
        }
        assert r[j] == Insert(n, tail)[j - 1];
      }
    }
  }

  /** A bound on the language count of `n` and of every entry holds for every entry after the insertion. */
  lemma {:induction false} InsertBounded(n: Statement, s: seq<Statement>, bound: int)
    requires LanguageCount(n) <= bound
    requires forall k :: 0 <= k < |s| ==> LanguageCount(s[k]) <= bound
    ensures forall k :: 0 <= k < |Insert(n, s)| ==> LanguageCount(Insert(n, s)[k]) <= bound
    decreases |s|
  {
    if !(s == [] || LanguageCount(s[0]) <= LanguageCount(n)) {
      var tail := s[1..];
      forall k | 0 <= k < |tail|
        ensures LanguageCount(tail[k]) <= bound
      {
        assert tail[k] == s[k + 1];
      }
      InsertBounded(n, tail, bound);
      var r := Insert(n, s);
      assert r == [s[0]] + Insert(n, tail);
      forall k | 1 <= k < |r|
        ensures LanguageCount(r[k]) <= bound
      {
        assert r[k] == Insert(n, tail)[k - 1];
      }
    }
  }

  /** The sort leaves the candidates in decreasing order of language count. */
  lemma {:induction false} SortIsDescending(c: seq<Statement>)
    ensures Descending(SortByLanguageCount(c))
  {
    if c != [] {
      SortIsDescending(c[1..]);
      InsertDescending(c[0], SortByLanguageCount(c[1..]));
    }
  }

  /** `c[k]` has the most languages of `c`, and every entry before it has strictly fewer. */
  predicate IsFirstMost(c: seq<Statement>, k: int) {
    && 0 <= k < |c|
    && (forall j :: 0 <= j < |c| ==> LanguageCount(c[j]) <= LanguageCount(c[k]))
    && (forall j :: 0 <= j < k ==> LanguageCount(c[j]) < LanguageCount(c[k]))
  }

  /** Inserting into a non-empty list puts `n` first only when the old head has no more languages. */
  lemma InsertHead(n: Statement, sorted: seq<Statement>)
    requires sorted != []
    ensures Insert(n, sorted)[0] == if LanguageCount(sorted[0]) <= LanguageCount(n) then n else sorted[0]
  {
  }

  /** Stability at the head: the sorted list starts with the earliest candidate of greatest language count. */
  lemma {:induction false} SortedHead(c: seq<Statement>) returns (k: int)
    requires c != []
    ensures IsFirstMost(c, k) && SortByLanguageCount(c)[0] == c[k]
  {
    var rest := c[1..];
    if rest == [] {
      k := 0;
    } else {
      var k' := SortedHead(rest);
      var t := SortByLanguageCount(rest);
      InsertHead(c[0], t);
      assert SortByLanguageCount(c)[0] == Insert(c[0], t)[0];
      if LanguageCount(rest[k']) <= LanguageCount(c[0]) {
        k := 0;
        FirstMostAtHead(c, k');
      } else {
        k := k' + 1;
        FirstMostInRest(c, k');
      }
    }
  }

  /** The head wins when the tail's first most has no more languages than it. */
  lemma FirstMostAtHead(c: seq<Statement>, k': int)
    requires |c| > 1 && IsFirstMost(c[1..], k') && LanguageCount(c[1..][k']) <= LanguageCount(c[0])
    ensures IsFirstMost(c, 0)
  {
    forall j | 1 <= j < |c|
      ensures LanguageCount(c[j]) <= LanguageCount(c[0])
    {
      assert c[j] == c[1..][j - 1];
    }
  }

  /** Otherwise the tail's first most is the first most of the whole list. */
  lemma FirstMostInRest(c: seq<Statement>, k': int)
    requires |c| > 1 && IsFirstMost(c[1..], k') && LanguageCount(c[1..][k']) > LanguageCount(c[0])
    ensures IsFirstMost(c, k' + 1)
  {
    forall j | 1 <= j < |c|
      ensures LanguageCount(c[j]) <= LanguageCount(c[k' + 1]) && (j < k' + 1 ==> LanguageCount(c[j]) < LanguageCount(c[k' + 1]))
    {
      assert c[j] == c[1..][j - 1];
    }
  }

  /** `get_primary_name(names)`: `Ok(None)` stands for Python's `None`. */
  function PrimaryNameOf(names: seq<Statement>): (r: Outcome<Option<Statement>>)
    ensures r == Ok(None) <==> forall j :: 0 <= j < |names| ==> names[j].typeName != "Name"
    ensures r.Ok? && r.value.Some? ==> r.value.value.typeName == "Name" && r.value.value in names
  {
    ScanWithoutNames(names);
    var scan :- ScanNames(names);
    assert scan.Pool? && scan.candidates != [] ==> SortByLanguageCount(scan.candidates)[0] in multiset(scan.candidates);
    match scan
    case Exact(n) => Ok(Some(n))
    case Pool(c) =>
      var sorted := SortByLanguageCount(c);
      if sorted == [] then Ok(None) else Ok(Some(sorted[0]))
  }

  /** The scan collects nothing, and raises nothing, exactly when there is no Name entry. */
  lemma {:induction false} ScanWithoutNames(names: seq<Statement>)
    ensures ScanNames(names) == Ok(Pool([])) <==> forall j :: 0 <= j < |names| ==> names[j].typeName != "Name"
  {
    if names != [] {
      ScanWithoutNames(names[1..]);
      assert forall j :: 1 <= j < |names| ==> names[j] == names[1..][j - 1];
      if names[0].typeName == "Name" {
        var rest := ScanNames(names[1..]);
        assert ScanNames(names).Ok? && ScanNames(names).value.Pool? ==> names[0] in ScanNames(names).value.candidates;
      }
    }
  }

  /** The chosen entry is always one of the Name entries of the input. */
  lemma ChosenIsName(names: seq<Statement>)
    ensures PrimaryNameOf(names).Ok? && PrimaryNameOf(names).value.Some? ==>
      PrimaryNameOf(names).value.value in names && PrimaryNameOf(names).value.value.typeName == "Name"
  {
    var scan := ScanNames(names);
    if scan.Ok? && scan.value.Pool? && scan.value.candidates != [] {
      var sorted := SortByLanguageCount(scan.value.candidates);
      assert sorted[0] in multiset(sorted);
    }
  }

  lemma {:induction false} ScanFindsPrimary(names: seq<Statement>, i: int)
    requires 0 <= i < |names| && IsPrimary(names[i]) && Readable(names[i])
    requires forall j :: 0 <= j < i ==> Readable(names[j]) && !IsPrimary(names[j])
    ensures ScanNames(names) == Ok(Exact(names[i]))
    decreases i
  {
    if i > 0 {
      ScanFindsPrimary(names[1..], i - 1);
    }
  }

  /** The first Name classified PRIMARY is returned, whatever its language count. */
  lemma FirstPrimaryWins(names: seq<Statement>, i: int)
    requires 0 <= i < |names| && IsPrimary(names[i]) && Readable(names[i])
    requires forall j :: 0 <= j < i ==> Readable(names[j]) && !IsPrimary(names[j])
    ensures PrimaryNameOf(names) == Ok(Some(names[i]))
  {
    ScanFindsPrimary(names, i);
  }

  lemma {:induction false} ScanWithoutPrimary(names: seq<Statement>)
    requires forall j :: 0 <= j < |names| ==> Readable(names[j]) && !IsPrimary(names[j])
    ensures ScanNames(names) == Ok(Pool(NameEntries(names)))
  {
    if names != [] {
      assert forall j :: 1 <= j < |names| ==> names[j] == names[1..][j - 1];
      ScanWithoutPrimary(names[1..]);
      if names[0].typeName == "Name" {
        assert Readable(names[0]) && !IsPrimary(names[0]);
        var cxns := EquivalentIds(names[0].classifiedAs.GetOr([]));
        assert Some(PRIMARY) !in cxns.value;
        assert ScanNames(names) == Resume([names[0]], ScanNames(names[1..]));
        assert ScanNames(names) == Ok(Pool([names[0]] + NameEntries(names[1..])));
      } else {
        AppendNothing(NameEntries(names[1..]));
      }
    }
  }

  /**
   * Without a PRIMARY Name, the Name with the most languages is returned,
   * the earliest one on ties; with no Name at all, nothing is.
   */
  lemma MostLanguagesWins(names: seq<Statement>) returns (k: int)
    requires forall j :: 0 <= j < |names| ==> Readable(names[j]) && !IsPrimary(names[j])
    ensures NameEntries(names) == [] ==> PrimaryNameOf(names) == Ok(None)
    ensures NameEntries(names) != [] ==>
      IsFirstMost(NameEntries(names), k) && PrimaryNameOf(names) == Ok(Some(NameEntries(names)[k]))
  {
    ScanWithoutPrimary(names);
    k := 0;
    if NameEntries(names) != [] {
      k := SortedHead(NameEntries(names));
    }
  }

  lemma ResumeTwice(a: seq<Statement>, b: seq<Statement>, rest: Outcome<Scan>)
    ensures Resume(a, Resume(b, rest)) == Resume(a + b, rest)
  {
    if rest.Ok? && rest.value.Pool? {
      assert a + (b + rest.value.candidates) == (a + b) + rest.value.candidates;
    }
  }

  /** One step of the scan at a Name entry. */
  lemma ScanAtName(rest: seq<Statement>)
    requires rest != [] && rest[0].typeName == "Name"
    ensures
      var langs := EquivalentIds(rest[0].language.GetOr([]));
      var cxns := EquivalentIds(rest[0].classifiedAs.GetOr([]));
      ScanNames(rest) ==
        if langs.Raised? then Raised(langs.error)
        else if cxns.Raised? then Raised(cxns.error)
        else if Some(PRIMARY) in cxns.value then Ok(Exact(rest[0]))
        else Resume([rest[0]], ScanNames(rest[1..]))
  {
  }

  /** The loop of `get_primary_name`, followed by the sort and the pick of its first element. */
  method GetPrimaryName(names: seq<Statement>) returns (r: Outcome<Option<Statement>>)
    ensures r == PrimaryNameOf(names)
  {
    var candidates: seq<Statement> := [];
    var i := 0;
    assert names[0..] == names;
    if ScanNames(names).Ok? && ScanNames(names).value.Pool? {
      AppendNothing(ScanNames(names).value.candidates);
    }
    while i < |names|
      invariant 0 <= i <= |names|
      invariant ScanNames(names) == Resume(candidates, ScanNames(names[i..]))
    {
      var name := names[i];
      assert names[i..][0] == name && names[i..][1..] == names[i + 1..];
      if name.typeName == "Name" {
        ScanAtName(names[i..]);
        var langs := EquivalentIds(name.language.GetOr([]));
        if langs.Raised? {
          return Raised(langs.error);
        }
        var cxns := EquivalentIds(name.classifiedAs.GetOr([]));
        if cxns.Raised? {
          return Raised(cxns.error);
        }
        if Some(PRIMARY) in cxns.value {
          return Ok(Some(name));
        }
        ResumeTwice(candidates, [name], ScanNames(names[i + 1..]));
        candidates := candidates + [name];
      }
      i := i + 1;
    }
    assert names[i..] == [];
    AppendNothing(candidates);
    assert ScanNames(names) == Ok(Pool(candidates));
    candidates := SortByLanguageCount(candidates);
    if candidates != [] {
      r := Ok(Some(candidates[0]));
    } else {
      r := Ok(None);
    }
  }
}
