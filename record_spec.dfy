/**
 * What `make_simple_record` computes, stated as functions over the canonical
 * record: the flattened record, or `Ok(None)` when the record itself cannot
 * be referenced, or the exception that escapes it. The loops of the Python
 * code are implemented and proved equal to these functions in module Notebook.
 */
module RecordSpec {
  import opened Outcomes
  import opened LinkedArt
  import opened PrimaryNames
  import opened References

  /** The body of a loop inside `try/except: continue`: the reference, or nothing when it raised. */
  function Kept(o: Outcome<Reference>): seq<Reference> {
    if o.Ok? then [o.value] else []
  }

  /**
   * The loops over `classified_as`, `part_of`, `broader` and `member_of`: the
   * references of the entries, in order, entries whose reference raises
   * passed over.
   */
  function Contained(resolve: Resolver, xs: seq<EntityRef>): (r: seq<Reference>)
    ensures |r| <= |xs|
  {
    if xs == [] then []
    else Kept(resolve(xs[0])) + Contained(resolve, xs[1..])
  }

  /** Every kept reference is the reference of one of the entries. */
  lemma {:induction false} ContainedFromEntries(resolve: Resolver, xs: seq<EntityRef>)
    ensures forall ref :: ref in Contained(resolve, xs) ==> exists x :: x in xs && resolve(x) == Ok(ref)
  {
    if xs != [] {
      ContainedFromEntries(resolve, xs[1..]);
      assert forall x :: x in xs[1..] ==> x in xs;
    }
  }

  /** A contained loop over a key that may be absent. */
  function ContainedField(resolve: Resolver, xs: Option<seq<EntityRef>>): Option<seq<Reference>>
  {
    if xs.Some? then Some(Contained(resolve, xs.value)) else None
  }

  /** The loop over a concatenation is the two loops one after the other. */
  lemma {:induction false} ContainedAppend(resolve: Resolver, a: seq<EntityRef>, b: seq<EntityRef>)
    ensures Contained(resolve, a + b) == Contained(resolve, a) + Contained(resolve, b)
  {
    if a != [] {
      assert (a + b)[0] == a[0];
      assert (a + b)[1..] == a[1..] + b;
      ContainedAppend(resolve, a[1..], b);
    } else {
      assert a + b == b;
    }
  }

  /** An entry whose reference raises leaves no trace; one that resolves is kept in its place. */
  lemma ContainedAroundEntry(resolve: Resolver, a: seq<EntityRef>, x: EntityRef, b: seq<EntityRef>)
    ensures resolve(x).Raised? ==>
      Contained(resolve, a + [x] + b) == Contained(resolve, a) + Contained(resolve, b)
    ensures resolve(x).Ok? ==>
      Contained(resolve, a + [x] + b)
        == Contained(resolve, a) + [resolve(x).value] + Contained(resolve, b)
  {
    ContainedSingle(resolve, x);
    ContainedAppend(resolve, a + [x], b);
    ContainedAppend(resolve, a, [x]);
    if resolve(x).Raised? {
      var left, nothing := Contained(resolve, a), Kept(resolve(x));
      assert left + nothing == left;
    }
  }

  /** The loop over one entry keeps that entry's reference, if any. */
  lemma ContainedSingle(resolve: Resolver, x: EntityRef)
    ensures Contained(resolve, [x]) == Kept(resolve(x))
  {
    assert [x][1..] == [];
    var kept, nothing := Kept(resolve(x)), Contained(resolve, [x][1..]);
    assert kept + nothing == kept;
  }

  /** When no entry raises, the contained loop and the plain list comprehension agree. */
  lemma {:induction false} ContainedWithoutFailures(resolve: Resolver, xs: seq<EntityRef>)
    requires MapAll(resolve, xs).Ok?
    ensures Contained(resolve, xs) == MapAll(resolve, xs).value
  {
    if xs != [] {
      assert forall i :: 1 <= i < |xs| ==> xs[i] == xs[1..][i - 1];
      assert resolve(xs[0]).Ok?;
      ContainedWithoutFailures(resolve, xs[1..]);
      var all := MapAll(resolve, xs).value;
      assert all == [all[0]] + all[1..];
    }
  }

  /** `part_of` is filled from `part_of` when the record has one, otherwise from `broader`. */
  function PartOfField(resolve: Resolver, rec: Record): (r: Option<seq<Reference>>)
    ensures r.Some? <==> rec.partOf.Some? || rec.broader.Some?
    ensures rec.partOf.Some? ==> r == Some(Contained(resolve, rec.partOf.value))
    ensures rec.partOf.None? && rec.broader.Some? ==> r == Some(Contained(resolve, rec.broader.value))
  {
    if rec.partOf.Some? then ContainedField(resolve, rec.partOf) else ContainedField(resolve, rec.broader)
  }

  /**
   * One statement of `referred_to_by`: `Ok(None)` when it names languages and
   * English is not among them; otherwise its content (KeyError without one)
   * and its contained classifications.
   */
  function DescriptionOf(resolve: Resolver, english: string, stmt: Statement)
    : Outcome<Option<Description>>
  {
    var langs :- EquivalentIds(stmt.language.GetOr([]));
    if stmt.language.Some? && Some(english) !in langs then Ok(None)
    else if stmt.content.None? then Raised(KeyError)
    else Ok(Some(Description(stmt.content.value, ContainedField(resolve, stmt.classifiedAs))))
  }

  /** A statement English may be read from: it names no language, or names English. */
  predicate InEnglish(english: string, stmt: Statement) {
    stmt.language.None?
    || (EquivalentIds(stmt.language.value).Ok? && Some(english) in EquivalentIds(stmt.language.value).value)
  }

  /**
   * The descriptions the loop over `referred_to_by` collects before the cut
   * to five. Every one comes from a statement in English.
   */
  function KeptDescriptions(resolve: Resolver, english: string, stmts: seq<Statement>)
    : (r: Outcome<seq<Description>>)
    ensures r.Ok? ==> |r.value| <= |stmts|
    ensures r.Ok? ==> forall d :: d in r.value ==>
      exists s :: s in stmts && InEnglish(english, s) && s.content == Some(d.content)
  {
    if stmts == [] then Ok([])
    else
      var d :- DescriptionOf(resolve, english, stmts[0]);
      var rest := KeptDescriptions(resolve, english, stmts[1..]);
      assert forall s :: s in stmts[1..] ==> s in stmts;
      Prepend(if d.Some? then [d.value] else [], rest)
  }

  /** One step of `KeptDescriptions` at position `i`. */
  lemma KeptDescriptionsStep(resolve: Resolver, english: string, stmts: seq<Statement>, i: int)
    requires 0 <= i < |stmts|
    ensures KeptDescriptions(resolve, english, stmts[i..])
      == match DescriptionOf(resolve, english, stmts[i])
         case Raised(e) => Raised(e)
         case Ok(d) => Prepend(if d.Some? then [d.value] else [], KeptDescriptions(resolve, english, stmts[i + 1..]))
  {
    assert stmts[i..][0] == stmts[i] && stmts[i..][1..] == stmts[i + 1..];
  }

  /** The statements the loop describes, in order: those in English or naming no language. */
  function EnglishStatements(english: string, stmts: seq<Statement>): (r: seq<Statement>)
    ensures |r| <= |stmts|
    ensures forall s :: s in r ==> s in stmts && InEnglish(english, s)
  {
    if stmts == [] then []
    else (if InEnglish(english, stmts[0]) then [stmts[0]] else []) + EnglishStatements(english, stmts[1..])
  }

  /** A statement the loop raises at: its language ids cannot be read, or it is in English without `content`. */
  predicate DescriptionFails(english: string, stmt: Statement) {
    EquivalentIds(stmt.language.GetOr([])).Raised? || (InEnglish(english, stmt) && stmt.content.None?)
  }

  /** One statement is skipped, described or raised at, as its language and content say. */
  lemma DescriptionOfCases(resolve: Resolver, english: string, stmt: Statement)
    ensures DescriptionOf(resolve, english, stmt).Raised? <==> DescriptionFails(english, stmt)
    ensures DescriptionOf(resolve, english, stmt) == Ok(None) <==> !InEnglish(english, stmt) && !DescriptionFails(english, stmt)
    ensures DescriptionOf(resolve, english, stmt).Ok? && DescriptionOf(resolve, english, stmt).value.Some? ==>
      InEnglish(english, stmt) && stmt.content.Some?
      && DescriptionOf(resolve, english, stmt).value.value == Description(stmt.content.value, ContainedField(resolve, stmt.classifiedAs))
  {
  }

  /** `d` is what the loop makes of statement `s`: its content and its contained classifications. */
  predicate Describes(resolve: Resolver, s: Statement, d: Description) {
    s.content == Some(d.content) && d.classifications == ContainedField(resolve, s.classifiedAs)
  }

  /** One description per statement, position by position. */
  predicate DescribesAll(resolve: Resolver, stmts: seq<Statement>, ds: seq<Description>) {
    |ds| == |stmts| && forall i :: 0 <= i < |stmts| ==> Describes(resolve, stmts[i], ds[i])
  }

  lemma DescribesAllCons(resolve: Resolver, s: Statement, d: Description, stmts: seq<Statement>, ds: seq<Description>)
    requires Describes(resolve, s, d) && DescribesAll(resolve, stmts, ds)
    ensures DescribesAll(resolve, [s] + stmts, [d] + ds)
  {
    forall i | 1 <= i < |stmts| + 1
      ensures Describes(resolve, ([s] + stmts)[i], ([d] + ds)[i])
    {
      assert ([s] + stmts)[i] == stmts[i - 1] && ([d] + ds)[i] == ds[i - 1];
    }
  }

  /**
   * Without an exception, the loop describes every English or language-free
   * statement, one description each, in the statements' order.
   */
  lemma {:induction false} KeptDescriptionsInOrder(resolve: Resolver, english: string, stmts: seq<Statement>)
    requires KeptDescriptions(resolve, english, stmts).Ok?
    ensures DescribesAll(resolve, EnglishStatements(english, stmts), KeptDescriptions(resolve, english, stmts).value)
  {
    if stmts != [] {
      var s0 := stmts[0];
      DescriptionOfCases(resolve, english, s0);
      var d := DescriptionOf(resolve, english, s0).value;
      var rest := KeptDescriptions(resolve, english, stmts[1..]);
      KeptDescriptionsInOrder(resolve, english, stmts[1..]);
      var tail := EnglishStatements(english, stmts[1..]);
      if d.Some? {
        assert KeptDescriptions(resolve, english, stmts).value == [d.value] + rest.value;
        assert EnglishStatements(english, stmts) == [s0] + tail;
        DescribesAllCons(resolve, s0, d.value, tail, rest.value);
      } else {
        AppendNothing(rest.value);
        AppendNothing(tail);
        assert KeptDescriptions(resolve, english, stmts).value == rest.value;
        assert EnglishStatements(english, stmts) == tail;
      }
    }
  }

  /** The loop raises at the first statement that fails, with that statement's exception. */
  lemma {:induction false} KeptDescriptionsRaiseAt(resolve: Resolver, english: string, stmts: seq<Statement>, k: int)
    requires 0 <= k < |stmts| && DescriptionFails(english, stmts[k])
    requires forall j :: 0 <= j < k ==> !DescriptionFails(english, stmts[j])
    ensures KeptDescriptions(resolve, english, stmts) == Raised(DescriptionOf(resolve, english, stmts[k]).error)
    decreases k
  {
    DescriptionOfCases(resolve, english, stmts[0]);
    if k > 0 {
      assert forall j :: 0 <= j < k - 1 ==> stmts[1..][j] == stmts[j + 1];
      KeptDescriptionsRaiseAt(resolve, english, stmts[1..], k - 1);
      assert stmts[1..][k - 1] == stmts[k];
    }
  }

  /** When no statement fails, the loop does not raise. */
  lemma {:induction false} KeptDescriptionsSucceed(resolve: Resolver, english: string, stmts: seq<Statement>)
    requires forall j :: 0 <= j < |stmts| ==> !DescriptionFails(english, stmts[j])
    ensures KeptDescriptions(resolve, english, stmts).Ok?
  {
    if stmts != [] {
      DescriptionOfCases(resolve, english, stmts[0]);
      assert forall j :: 0 <= j < |stmts| - 1 ==> stmts[1..][j] == stmts[j + 1];
      KeptDescriptionsSucceed(resolve, english, stmts[1..]);
    }
  }

  /** At most this many descriptions are kept. */
  const MaxDescriptions := 5

  /** `descriptions`: the first five of the descriptions kept, all of them when there are fewer. */
  function DescriptionsOf(resolve: Resolver, english: string, stmts: seq<Statement>)
    : (r: Outcome<seq<Description>>)
    ensures r.Ok? <==> KeptDescriptions(resolve, english, stmts).Ok?
    ensures r.Ok? ==>
      var kept := KeptDescriptions(resolve, english, stmts).value;
      && |r.value| <= MaxDescriptions
      && r.value <= kept
      && (|r.value| < MaxDescriptions ==> r.value == kept)
  {
    var kept :- KeptDescriptions(resolve, english, stmts);
    Ok(if |kept| > MaxDescriptions then kept[..MaxDescriptions] else kept)
  }

  /** `begin_of_the_begin` of an event's timespan, as birth, death, founding and dissolution dates read it. */
  function BeginDate(e: Option<Event>): Option<string> {
    if e.Some? && e.value.timespan.Some? then e.value.timespan.value.beginOfTheBegin else None
  }

  /** `begin_of_the_begin`, else `end_of_the_end`, as creation and discovery dates read it. */
  function BeginOrEndDate(e: Option<Event>): Option<string> {
    if e.None? || e.value.timespan.None? then None
    else if e.value.timespan.value.beginOfTheBegin.Some? then e.value.timespan.value.beginOfTheBegin
    else e.value.timespan.value.endOfTheEnd
  }

  /**
   * A place key as the events fill it: present exactly when the event and its
   * `took_place_at` are, and then the reference of the first entry.
   */
  predicate PlaceFrom(resolve: Resolver, e: Option<Event>, place: Option<Reference>) {
    && (place.Some? <==> e.Some? && e.value.tookPlaceAt.Some?)
    && (place.Some? ==> e.value.tookPlaceAt.value != [] && resolve(e.value.tookPlaceAt.value[0]) == Ok(place.value))
  }

  /** The reference of an event's first `took_place_at` entry; IndexError when that list is empty. */
  function PlaceOf(resolve: Resolver, e: Option<Event>): (r: Outcome<Option<Reference>>)
    ensures r.Ok? ==> PlaceFrom(resolve, e, r.value)
    ensures e.Some? && e.value.tookPlaceAt == Some([]) ==> r == Raised(IndexError)
    ensures (e.Some? && e.value.tookPlaceAt.Some? && e.value.tookPlaceAt.value != []
             && resolve(e.value.tookPlaceAt.value[0]).Raised?)
      ==> r == Raised(resolve(e.value.tookPlaceAt.value[0]).error)
  {
    if e.None? || e.value.tookPlaceAt.None? then Ok(None)
    else
      var place :- FirstRef(resolve, e.value.tookPlaceAt.value);
      Ok(Some(place))
  }

  /** A list of references as the comprehensions fill it: present exactly when the key is, one reference per entry. */
  predicate RefsFrom(resolve: Resolver, xs: Option<seq<EntityRef>>, refs: Option<seq<Reference>>) {
    && (refs.Some? <==> xs.Some?)
    && (refs.Some? ==>
         |refs.value| == |xs.value| && forall i :: 0 <= i < |xs.value| ==> resolve(xs.value[i]) == Ok(refs.value[i]))
  }

  /** A list comprehension of references over a key that may be absent. */
  function RefsField(resolve: Resolver, xs: Option<seq<EntityRef>>): (r: Outcome<Option<seq<Reference>>>)
    ensures r.Ok? ==> RefsFrom(resolve, xs, r.value)
    ensures r.Raised? <==> xs.Some? && MapAll(resolve, xs.value).Raised?
  {
    if xs.None? then Ok(None)
    else
      var refs :- MapAll(resolve, xs.value);
      Ok(Some(refs))
  }

  /**
   * Birth and death date and place of a Person: the dates are the events'
   * `begin_of_the_begin` only, the places their first `took_place_at`.
   */
  function PersonFieldsOf(resolve: Resolver, rec: Record): (r: Outcome<Derived>)
    ensures r.Ok? ==> r.value.PersonFields?
    ensures r.Ok? && rec.born.Some? && rec.born.value.timespan.Some? ==>
      r.value.birthDate == rec.born.value.timespan.value.beginOfTheBegin
    ensures r.Ok? && (rec.born.None? || rec.born.value.timespan.None?) ==> r.value.birthDate.None?
    ensures r.Ok? && rec.died.Some? && rec.died.value.timespan.Some? ==>
      r.value.deathDate == rec.died.value.timespan.value.beginOfTheBegin
    ensures r.Ok? && (rec.died.None? || rec.died.value.timespan.None?) ==> r.value.deathDate.None?
    ensures r.Ok? ==> PlaceFrom(resolve, rec.born, r.value.birthPlace) && PlaceFrom(resolve, rec.died, r.value.deathPlace)
    ensures r.Raised? <==> PlaceOf(resolve, rec.born).Raised? || PlaceOf(resolve, rec.died).Raised?
  {
    var birthPlace :- PlaceOf(resolve, rec.born);
    var deathPlace :- PlaceOf(resolve, rec.died);
    Ok(PersonFields(BeginDate(rec.born), birthPlace, BeginDate(rec.died), deathPlace))
  }

  /** Founding and dissolution of a Group: every founder, but only the first dissolver. */
  function GroupFieldsOf(resolve: Resolver, rec: Record): (r: Outcome<Derived>)
    ensures r.Ok? ==> r.value.GroupFields?
    ensures r.Ok? && rec.formedBy.Some? && rec.formedBy.value.timespan.Some? ==>
      r.value.foundingDate == rec.formedBy.value.timespan.value.beginOfTheBegin
    ensures r.Ok? && (rec.formedBy.None? || rec.formedBy.value.timespan.None?) ==> r.value.foundingDate.None?
    ensures r.Ok? && rec.dissolvedBy.Some? && rec.dissolvedBy.value.timespan.Some? ==>
      r.value.dissolutionDate == rec.dissolvedBy.value.timespan.value.beginOfTheBegin
    ensures r.Ok? && (rec.dissolvedBy.None? || rec.dissolvedBy.value.timespan.None?) ==> r.value.dissolutionDate.None?
    ensures r.Ok? ==>
      PlaceFrom(resolve, rec.formedBy, r.value.foundingPlace) && PlaceFrom(resolve, rec.dissolvedBy, r.value.dissolutionPlace)
    ensures r.Ok? ==> RefsFrom(resolve, if rec.formedBy.Some? then rec.formedBy.value.carriedOutBy else None, r.value.founder)
    ensures r.Ok? ==> (r.value.dissolver.Some? <==> rec.dissolvedBy.Some? && rec.dissolvedBy.value.carriedOutBy.Some?)
    ensures r.Ok? && r.value.dissolver.Some? ==>
      rec.dissolvedBy.value.carriedOutBy.value != []
      && resolve(rec.dissolvedBy.value.carriedOutBy.value[0]) == Ok(r.value.dissolver.value)
  {
    var foundingPlace :- PlaceOf(resolve, rec.formedBy);
    var founder :- if rec.formedBy.None? then Ok(None) else RefsField(resolve, rec.formedBy.value.carriedOutBy);
    var dissolutionPlace :- PlaceOf(resolve, rec.dissolvedBy);
    var dissolver :-
      if rec.dissolvedBy.None? || rec.dissolvedBy.value.carriedOutBy.None? then Ok(None)
      else
        var first :- FirstRef(resolve, rec.dissolvedBy.value.carriedOutBy.value);
        Ok(Some(first));
    Ok(GroupFields(BeginDate(rec.formedBy), foundingPlace, founder, BeginDate(rec.dissolvedBy), dissolutionPlace, dissolver))
  }

  /** The founder list holds one resolved reference per actor of the formation, in order. */
  lemma FounderIsEveryActor(resolve: Resolver, rec: Record)
    requires rec.formedBy.Some? && rec.formedBy.value.carriedOutBy.Some?
    requires GroupFieldsOf(resolve, rec).Ok?
    ensures
      var actors := rec.formedBy.value.carriedOutBy.value;
      var founder := GroupFieldsOf(resolve, rec).value.founder;
      && founder.Some? && |founder.value| == |actors|
      && forall i :: 0 <= i < |actors| ==> resolve(actors[i]) == Ok(founder.value[i])
  {
  }

  /** The dissolver is the first actor of the dissolution; the actors after it are never looked at. */
  lemma DissolverIsFirstActor(resolve: Resolver, rec: Record, first: EntityRef, others: seq<EntityRef>)
    requires rec.dissolvedBy.Some? && rec.dissolvedBy.value.carriedOutBy == Some([first] + others)
    ensures
      var alone := rec.(dissolvedBy := Some(rec.dissolvedBy.value.(carriedOutBy := Some([first]))));
      GroupFieldsOf(resolve, rec) == GroupFieldsOf(resolve, alone)
  {
  }

  /** `who` after the loop over a production's parts: the actors of the last part that has any. */
  function LastActors(resolve: Resolver, parts: seq<Event>, who: seq<Reference>): Outcome<seq<Reference>>
  {
    if parts == [] then Ok(who)
    else if parts[0].carriedOutBy.None? then LastActors(resolve, parts[1..], who)
    else
      var actors :- MapAll(resolve, parts[0].carriedOutBy.value);
      LastActors(resolve, parts[1..], actors)
  }

  /**
   * When every part's actors resolve, the loop ends with the actors of the
   * last part that has any, or with what it started from when none has.
   */
  lemma {:induction false} LastPartWins(resolve: Resolver, parts: seq<Event>, who: seq<Reference>, k: int)
    requires forall j :: 0 <= j < |parts| && parts[j].carriedOutBy.Some? ==>
      MapAll(resolve, parts[j].carriedOutBy.value).Ok?
    requires -1 <= k < |parts|
    requires k >= 0 ==> parts[k].carriedOutBy.Some?
    requires forall j :: k < j < |parts| ==> parts[j].carriedOutBy.None?
    ensures k == -1 ==> LastActors(resolve, parts, who) == Ok(who)
    ensures k >= 0 ==> LastActors(resolve, parts, who) == MapAll(resolve, parts[k].carriedOutBy.value)
    decreases |parts|
  {
    if parts != [] {
      assert forall j :: 1 <= j < |parts| ==> parts[j] == parts[1..][j - 1];
      if parts[0].carriedOutBy.None? {
        LastPartWins(resolve, parts[1..], who, if k == -1 then -1 else k - 1);
      } else {
        var actors := MapAll(resolve, parts[0].carriedOutBy.value).value;
        LastPartWins(resolve, parts[1..], actors, k - 1);
      }
    }
  }

  /**
   * `creator`: the production's own actors followed by the last part's; only
   * the part's when the production names none; absent when both are empty.
   */
  function CreatorOf(resolve: Resolver, cre: Event): (r: Outcome<Option<seq<Reference>>>)
    ensures r.Ok? && cre.carriedOutBy.Some? ==>
      && r.value.Some? && |cre.carriedOutBy.value| <= |r.value.value|
      && MapAll(resolve, cre.carriedOutBy.value) == Ok(r.value.value[..|cre.carriedOutBy.value|])
    ensures r.Ok? && cre.carriedOutBy.None? && cre.part.None? ==> r.value.None?
    ensures r.Ok? && cre.carriedOutBy.None? && r.value.Some? ==> r.value.value != []
    ensures cre.carriedOutBy.Some? && MapAll(resolve, cre.carriedOutBy.value).Raised? ==> r.Raised?
  {
    var top :- RefsField(resolve, cre.carriedOutBy);
    assert top.Some? ==> top.value[..|top.value|] == top.value;
    if cre.part.None? then Ok(top)
    else
      var who :- LastActors(resolve, cre.part.value, []);
      assert top.Some? ==> (top.value + who)[..|top.value|] == top.value;
      if top.Some? then Ok(Some(top.value + who))
      else if who != [] then Ok(Some(who))
      else Ok(None)
  }

  /**
   * The whole creator rule: the production's actors followed by those of the
   * last part `k` that has any (none when `k` is -1); with no production
   * actors, only that part's, and no creator when they are empty too.
   */
  lemma CreatorIsProductionThenLastPart(resolve: Resolver, cre: Event, k: int)
    requires cre.carriedOutBy.Some? ==> MapAll(resolve, cre.carriedOutBy.value).Ok?
    requires var parts := cre.part.GetOr([]);
      && (forall j :: 0 <= j < |parts| && parts[j].carriedOutBy.Some? ==>
            MapAll(resolve, parts[j].carriedOutBy.value).Ok?)
      && -1 <= k < |parts|
      && (k >= 0 ==> parts[k].carriedOutBy.Some?)
      && (forall j :: k < j < |parts| ==> parts[j].carriedOutBy.None?)
    ensures
      var last := if k == -1 then [] else MapAll(resolve, cre.part.value[k].carriedOutBy.value).value;
      CreatorOf(resolve, cre) ==
        if cre.carriedOutBy.Some? then Ok(Some(MapAll(resolve, cre.carriedOutBy.value).value + last))
        else if last == [] then Ok(None)
        else Ok(Some(last))
  {
    if cre.carriedOutBy.Some? {
      AppendNothing(MapAll(resolve, cre.carriedOutBy.value).value);
    }
    if cre.part.Some? {
      LastPartWins(resolve, cre.part.value, [], k);
    }
  }

  /** A production by A with one part by B has creators A then B. */
  lemma CreatorsOfProductionAndPart(resolve: Resolver, a: EntityRef, b: EntityRef, ra: Reference, rb: Reference)
    requires resolve(a) == Ok(ra) && resolve(b) == Ok(rb)
    ensures
      var part := Event(None, None, Some([b]), None);
      CreatorOf(resolve, Event(None, None, Some([a]), Some([part]))) == Ok(Some([ra, rb]))
  {
    var part := Event(None, None, Some([b]), None);
    assert [part][1..] == [];
    MapAllSingle(resolve, b);
    MapAllSingle(resolve, a);
    assert LastActors(resolve, [part], []) == Ok([rb]);
    assert RefsField(resolve, Some([a])) == Ok(Some([ra]));
    assert [ra] + [rb] == [ra, rb];
  }

  /** What the loop over `encountered_by` has written so far. */
  datatype Discovery = Discovery(date: Option<string>, place: Option<Reference>, discoverer: Option<seq<Reference>>)

  const NothingFound := Discovery(None, None, None)

  /**
   * `who` after the loop over an encounter's parts. The loop body tests and
   * reads the encounter's own `carried_out_by`, not the part's.
   */
  function RepeatedOwnActors(resolve: Resolver, parts: seq<Event>, cre: Event, who: seq<Reference>)
    : Outcome<seq<Reference>>
  {
    if parts == [] then Ok(who)
    else if cre.carriedOutBy.None? then RepeatedOwnActors(resolve, parts[1..], cre, who)
    else
      var actors :- MapAll(resolve, cre.carriedOutBy.value);
      RepeatedOwnActors(resolve, parts[1..], cre, actors)
  }

  /** Whatever the parts say, the loop gives the encounter's own actors once it has run at all. */
  lemma {:induction false} PartsIgnored(resolve: Resolver, parts: seq<Event>, cre: Event, who: seq<Reference>)
    ensures RepeatedOwnActors(resolve, parts, cre, who) ==
      if parts == [] || cre.carriedOutBy.None? then Ok(who) else MapAll(resolve, cre.carriedOutBy.value)
    decreases |parts|
  {
    if parts != [] {
      if cre.carriedOutBy.None? {
        PartsIgnored(resolve, parts[1..], cre, who);
      } else if MapAll(resolve, cre.carriedOutBy.value).Ok? {
        PartsIgnored(resolve, parts[1..], cre, MapAll(resolve, cre.carriedOutBy.value).value);
      }
    }
  }

  /**
   * One encounter: its date, place and actors overwrite what earlier
   * encounters wrote; with parts, the discoverer list is extended by the
   * loop over the parts.
   */
  function Encounter(resolve: Resolver, found: Discovery, cre: Event): (r: Outcome<Discovery>)
    ensures r.Ok? && (cre.timespan.None? || (cre.timespan.value.beginOfTheBegin.None? && cre.timespan.value.endOfTheEnd.None?))
      ==> r.value.date == found.date
    ensures r.Ok? && cre.timespan.Some? && cre.timespan.value.beginOfTheBegin.Some? ==>
      r.value.date == cre.timespan.value.beginOfTheBegin
    ensures r.Ok? && cre.timespan.Some? && cre.timespan.value.beginOfTheBegin.None? && cre.timespan.value.endOfTheEnd.Some? ==>
      r.value.date == cre.timespan.value.endOfTheEnd
    ensures r.Ok? && cre.tookPlaceAt.None? ==> r.value.place == found.place
    ensures r.Ok? && cre.tookPlaceAt.Some? ==> PlaceFrom(resolve, Some(cre), r.value.place)
    ensures r.Ok? && cre.carriedOutBy.None? && cre.part.None? ==> r.value.discoverer == found.discoverer
    ensures r.Ok? && cre.part.None? && cre.carriedOutBy.Some? ==> RefsFrom(resolve, cre.carriedOutBy, r.value.discoverer)
  {
    var date := if BeginOrEndDate(Some(cre)).Some? then BeginOrEndDate(Some(cre)) else found.date;
    var place :- if cre.tookPlaceAt.Some? then PlaceOf(resolve, Some(cre)) else Ok(found.place);
    var discoverer :- if cre.carriedOutBy.Some? then RefsField(resolve, cre.carriedOutBy) else Ok(found.discoverer);
    if cre.part.None? then Ok(Discovery(date, place, discoverer))
    else
      var who :- RepeatedOwnActors(resolve, cre.part.value, cre, []);
      Ok(Discovery(date, place, Some(discoverer.GetOr([]) + who)))
  }

  /**
   * An encounter with parts but no actors still writes `discoverer`: the
   * earlier list, or an empty one when none was written before.
   */
  lemma PartsWithoutActors(resolve: Resolver, found: Discovery, cre: Event)
    requires cre.carriedOutBy.None? && cre.part.Some?
    requires Encounter(resolve, found, cre).Ok?
    ensures Encounter(resolve, found, cre).value.discoverer == Some(found.discoverer.GetOr([]))
  {
    PartsIgnored(resolve, cre.part.value, cre, []);
    AppendNothing(found.discoverer.GetOr([]));
  }

  /** The loop over `encountered_by`, from the first encounter to the last. */
  function Encounters(resolve: Resolver, events: seq<Event>, found: Discovery): (r: Outcome<Discovery>)
    ensures r.Ok? && (forall k :: 0 <= k < |events| ==> events[k].tookPlaceAt.None?) ==> r.value.place == found.place
    ensures r.Ok? && (forall k :: 0 <= k < |events| ==> events[k].timespan.None?) ==> r.value.date == found.date
    ensures r.Ok? && (forall k :: 0 <= k < |events| ==> events[k].carriedOutBy.None? && events[k].part.None?) ==>
      r.value.discoverer == found.discoverer
  {
    if events == [] then Ok(found)
    else
      var next :- Encounter(resolve, found, events[0]);
      Encounters(resolve, events[1..], next)
  }

  lemma {:induction false} EncountersAppend(resolve: Resolver, events: seq<Event>, last: Event, found: Discovery)
    ensures Encounters(resolve, events + [last], found) ==
      var before :- Encounters(resolve, events, found);
      Encounter(resolve, before, last)
    decreases |events|
  {
    if events == [] {
      assert [last][1..] == [];
    } else {
      assert (events + [last])[1..] == events[1..] + [last];
      var next := Encounter(resolve, found, events[0]);
      if next.Ok? {
        EncountersAppend(resolve, events[1..], last, next.value);
      }
    }
  }

  /**
   * The last encounter that names actors and has no parts decides the
   * discoverer: earlier encounters' discoverers are overwritten, not merged.
   */
  lemma LastEncounterDecidesDiscoverer(resolve: Resolver, events: seq<Event>, last: Event, found: Discovery)
    requires last.carriedOutBy.Some? && last.part.None?
    requires Encounters(resolve, events + [last], found).Ok?
    ensures
      var discoverer := Encounters(resolve, events + [last], found).value.discoverer;
      discoverer.Some? && MapAll(resolve, last.carriedOutBy.value) == Ok(discoverer.value)
  {
    EncountersAppend(resolve, events, last, found);
  }

  /** An encounter with actors and parts lists its own actors twice. */
  lemma PartsRepeatDiscoverer(resolve: Resolver, found: Discovery, cre: Event)
    requires cre.carriedOutBy.Some? && cre.part.Some? && cre.part.value != []
    requires Encounter(resolve, found, cre).Ok?
    ensures
      var own := MapAll(resolve, cre.carriedOutBy.value).value;
      Encounter(resolve, found, cre).value.discoverer == Some(own + own)
  {
    PartsIgnored(resolve, cre.part.value, cre, []);
  }

  /** The Derived kind the record's type selects. */
  predicate FitsType(typeName: string, d: Derived) {
    && (d.PersonFields? <==> typeName == "Person")
    && (d.GroupFields? <==> typeName == "Group")
    && (d.ObjectFields? <==> typeName == "HumanMadeObject")
    && (d.WorkFields? <==> typeName == "LinguisticObject" || typeName == "VisualItem")
  }

  /**
   * `make_simple_record`: `Ok(None)` when the record cannot even be
   * referenced, else the flattened record or the exception that escapes.
   * Embedded records go `depth` levels deep at most.
   */
  function SimpleRecordOf(reg: Registry, dataset: string, uri: string, entityType: string, english: string, depth: nat)
    : (r: Outcome<Option<SimpleRecord>>)
    ensures MakeSimpleReference(reg, dataset, uri, entityType).Raised? ==> r == Ok(None)
    decreases depth, 5, 0
  {
    var top := MakeSimpleReference(reg, dataset, uri, entityType);
    if !(top.Ok? && top.value.Some?) then Ok(None)
    else FlattenRecord(reg, dataset, top.value.value.0, top.value.value.1, english, depth)
  }

  /** The flattened record built around a reference and the record it was made from. */
  function FlattenRecord(reg: Registry, dataset: string, ref: Reference, rec: Record, english: string, depth: nat)
    : (r: Outcome<Option<SimpleRecord>>)
    ensures r.Ok? ==> r.value.Some? && r.value.value.reference == ref
    ensures r.Ok? ==> FitsType(rec.typeName, r.value.value.derived)
    ensures r.Ok? ==> (r.value.value.descriptions.Some? <==> rec.referredToBy.Some?)
    ensures r.Ok? && r.value.value.descriptions.Some? ==> |r.value.value.descriptions.value| <= MaxDescriptions
    decreases depth, 4, 0
  {
    var resolve := EntryResolver(reg, dataset);
    var descriptions :-
      if rec.referredToBy.None? then Ok(None)
      else
        var d :- DescriptionsOf(resolve, english, rec.referredToBy.value);
        Ok(Some(d));
    var derived :- DerivedOf(reg, dataset, english, rec, depth);
    Ok(Some(SimpleRecord(
      ref,
      ContainedField(resolve, rec.classifiedAs),
      descriptions,
      PartOfField(resolve, rec),
      derived,
      ContainedField(resolve, rec.memberOf))))
  }

  /** The keys only the record's type gets. */
  function DerivedOf(reg: Registry, dataset: string, english: string, rec: Record, depth: nat): (r: Outcome<Derived>)
    ensures r.Ok? ==> FitsType(rec.typeName, r.value)
    decreases depth, 3, 0
  {
    var resolve := EntryResolver(reg, dataset);
    if rec.typeName == "Person" then PersonFieldsOf(resolve, rec)
    else if rec.typeName == "Group" then GroupFieldsOf(resolve, rec)
    else if rec.typeName == "HumanMadeObject" then ObjectFieldsOf(reg, dataset, english, rec, depth)
    else if rec.typeName == "LinguisticObject" || rec.typeName == "VisualItem" then WorkFieldsOf(resolve, rec)
    else Ok(NoFields)
  }

  /** `about` and `represents` of a LinguisticObject or VisualItem. */
  function WorkFieldsOf(resolve: Resolver, rec: Record): (r: Outcome<Derived>)
    ensures r.Ok? ==>
      r.value.WorkFields? && RefsFrom(resolve, rec.about, r.value.about) && RefsFrom(resolve, rec.represents, r.value.represents)
    ensures r.Raised? <==> RefsField(resolve, rec.about).Raised? || RefsField(resolve, rec.represents).Raised?
  {
    var about :- RefsField(resolve, rec.about);
    var represents :- RefsField(resolve, rec.represents);
    Ok(WorkFields(about, represents))
  }

  /** Production, discovery, material and the embedded records of a HumanMadeObject. */
  function ObjectFieldsOf(reg: Registry, dataset: string, english: string, rec: Record, depth: nat): (r: Outcome<Derived>)
    ensures r.Ok? ==> r.value.ObjectFields?
    ensures (r.Ok? && rec.producedBy.Some? && rec.producedBy.value.timespan.Some?
             && rec.producedBy.value.timespan.value.beginOfTheBegin.Some?)
      ==> r.value.creationDate == rec.producedBy.value.timespan.value.beginOfTheBegin
    ensures (r.Ok? && rec.producedBy.Some? && rec.producedBy.value.timespan.Some?
             && rec.producedBy.value.timespan.value.beginOfTheBegin.None?)
      ==> r.value.creationDate == rec.producedBy.value.timespan.value.endOfTheEnd
    ensures r.Ok? && (rec.producedBy.None? || rec.producedBy.value.timespan.None?) ==> r.value.creationDate.None?
    ensures r.Ok? ==> PlaceFrom(EntryResolver(reg, dataset), rec.producedBy, r.value.creationPlace)
    ensures r.Ok? ==> RefsFrom(EntryResolver(reg, dataset), rec.madeOf, r.value.material)
    ensures r.Ok? ==> (r.value.carries.Some? <==> rec.carries.Some?) && (r.value.shows.Some? <==> rec.shows.Some?)
    ensures r.Ok? && rec.encounteredBy.GetOr([]) == [] ==>
      r.value.discoveryDate.None? && r.value.discoveryPlace.None? && r.value.discoverer.None?
    ensures PlaceOf(EntryResolver(reg, dataset), rec.producedBy).Raised? || RefsField(EntryResolver(reg, dataset), rec.madeOf).Raised?
      ==> r.Raised?
    decreases depth, 2, 0
  {
    var resolve := EntryResolver(reg, dataset);
    var creationPlace :- PlaceOf(resolve, rec.producedBy);
    var creator :- if rec.producedBy.None? then Ok(None) else CreatorOf(resolve, rec.producedBy.value);
    var found :- Encounters(resolve, rec.encounteredBy.GetOr([]), NothingFound);
    var material :- RefsField(resolve, rec.madeOf);
    var carries :- EmbedField(reg, dataset, english, rec.carries, depth);
    var shows :- EmbedField(reg, dataset, english, rec.shows, depth);
    Ok(ObjectFields(
      BeginOrEndDate(rec.producedBy), creationPlace, creator,
      found.date, found.place, found.discoverer,
      material, carries, shows))
  }

  /** `carries` or `shows`, a key that may be absent. */
  function EmbedField(reg: Registry, dataset: string, english: string, xs: Option<seq<EntityRef>>, depth: nat)
    : (r: Outcome<Option<seq<Option<SimpleRecord>>>>)
    ensures r.Ok? ==> (r.value.Some? <==> xs.Some?)
    ensures r.Ok? && xs.Some? ==> |r.value.value| == |xs.value|
    decreases depth, 1, 0
  {
    if xs.None? then Ok(None)
    else
      var embedded :- EmbedAll(reg, dataset, english, xs.value, depth);
      Ok(Some(embedded))
  }

  /**
   * `[make_simple_record(dataset, x["id"]) for x in xs]`: one entry per
   * element, `None` kept for a record that could not be referenced. Past the
   * nesting bound, a non-empty list raises DepthExceeded.
   */
  function EmbedAll(reg: Registry, dataset: string, english: string, xs: seq<EntityRef>, depth: nat)
    : (r: Outcome<seq<Option<SimpleRecord>>>)
    ensures r.Ok? ==> |r.value| == |xs|
    ensures depth == 0 && xs != [] ==> r.Raised?
    ensures xs != [] && xs[0].id.None? ==> r == Raised(KeyError)
    decreases depth, 0, |xs|
  {
    if xs == [] then Ok([])
    else if xs[0].id.None? then Raised(KeyError)
    else if depth == 0 then Raised(DepthExceeded)
    else
      var first :- SimpleRecordOf(reg, dataset, xs[0].id.value, "", english, depth - 1);
      Prepend([first], EmbedAll(reg, dataset, english, xs[1..], depth))
  }

  /** `e` is the simplified record of the element `x`, one level deeper. */
  predicate Embeds(reg: Registry, dataset: string, english: string, depth: nat, x: EntityRef, e: Option<SimpleRecord>) {
    x.id.Some? && depth > 0 && SimpleRecordOf(reg, dataset, x.id.value, "", english, depth - 1) == Ok(e)
  }

  /** Each entry of `es` embeds the element of `xs` at the same position. */
  predicate EmbedsEach(reg: Registry, dataset: string, english: string, depth: nat, xs: seq<EntityRef>, es: seq<Option<SimpleRecord>>) {
    |es| == |xs| && forall i :: 0 <= i < |xs| ==> Embeds(reg, dataset, english, depth, xs[i], es[i])
  }

  lemma EmbedsEachCons(reg: Registry, dataset: string, english: string, depth: nat,
                       xs: seq<EntityRef>, e: Option<SimpleRecord>, es: seq<Option<SimpleRecord>>)
    requires xs != [] && Embeds(reg, dataset, english, depth, xs[0], e)
    requires EmbedsEach(reg, dataset, english, depth, xs[1..], es)
    ensures EmbedsEach(reg, dataset, english, depth, xs, [e] + es)
  {
    forall i | 0 <= i < |xs|
      ensures Embeds(reg, dataset, english, depth, xs[i], ([e] + es)[i])
    {
      if i > 0 {
        assert xs[i] == xs[1..][i - 1] && ([e] + es)[i] == es[i - 1];
      }
    }
  }

  /**
   * An embedded list has one entry per element, each the simplified record of
   * that element's `id` one level deeper, `None` included; at the nesting
   * bound a non-empty list raises.
   */
  lemma {:induction false} EmbeddedOnePerEntry(reg: Registry, dataset: string, english: string, xs: seq<EntityRef>, depth: nat)
    ensures var r := EmbedAll(reg, dataset, english, xs, depth);
      && (r.Ok? ==> EmbedsEach(reg, dataset, english, depth, xs, r.value))
      && (depth == 0 && xs != [] ==> r.Raised?)
    decreases |xs|
  {
    if xs != [] && xs[0].id.Some? && depth > 0 {
      var first := SimpleRecordOf(reg, dataset, xs[0].id.value, "", english, depth - 1);
      var rest := EmbedAll(reg, dataset, english, xs[1..], depth);
      EmbeddedOnePerEntry(reg, dataset, english, xs[1..], depth);
      if first.Ok? && rest.Ok? {
        assert EmbedAll(reg, dataset, english, xs, depth) == Ok([first.value] + rest.value);
        EmbedsEachCons(reg, dataset, english, depth, xs, first.value, rest.value);
      }
    }
  }

  /**
   * The simplified record is `None` exactly when its own reference fails;
   * otherwise it carries that reference, the fields its type selects and at
   * most five descriptions.
   */
  lemma SimpleRecordShape(reg: Registry, dataset: string, uri: string, entityType: string, english: string, depth: nat)
    ensures var r := SimpleRecordOf(reg, dataset, uri, entityType, english, depth);
      var top := MakeSimpleReference(reg, dataset, uri, entityType);
      && (r == Ok(None) <==> !(top.Ok? && top.value.Some?))
      && (r.Ok? && r.value.Some? ==>
           && r.value.value.reference == top.value.value.0
           && FitsType(top.value.value.1.typeName, r.value.value.derived)
           && (r.value.value.descriptions.Some? <==> top.value.value.1.referredToBy.Some?)
           && (r.value.value.descriptions.Some? ==> |r.value.value.descriptions.value| <= MaxDescriptions))
  {
  }

  /** A full URI and the bare local identifier give the same simplified record. */
  lemma RecordSpellingsAgree(reg: Registry, dataset: string, uri: string, entityType: string, english: string, depth: nat)
    ensures SimpleRecordOf(reg, dataset, LocalForm(uri), entityType, english, depth)
         == SimpleRecordOf(reg, dataset, uri, entityType, english, depth)
  {
    SpellingsAgree(reg, dataset, uri, entityType);
    SameReferenceSameRecord(reg, dataset, LocalForm(uri), uri, entityType, english, depth);
  }

  /** The simplified record depends on the URI only through the top-level reference and record. */
  lemma SameReferenceSameRecord(reg: Registry, dataset: string, u1: string, u2: string, entityType: string, english: string, depth: nat)
    requires MakeSimpleReference(reg, dataset, u1, entityType) == MakeSimpleReference(reg, dataset, u2, entityType)
    ensures SimpleRecordOf(reg, dataset, u1, entityType, english, depth)
         == SimpleRecordOf(reg, dataset, u2, entityType, english, depth)
  {
  }
}
