/**
 * `make_simple_record` as the Python code runs it: loops that append to the
 * output lists, overwrite keys as later events are read, and return as soon
 * as a call raises. Each method is proved to compute the function of module
 * RecordSpec that states what it means.
 */
module Notebook {
  import opened Outcomes
  import opened LinkedArt
  import opened PrimaryNames
  import opened References
  import opened RecordSpec

  /** A loop over `classified_as`, `part_of`, `broader` or `member_of`: raising entries are skipped. */
  method ResolveContained(resolve: Resolver, xs: seq<EntityRef>) returns (refs: seq<Reference>)
    ensures refs == Contained(resolve, xs)
  {
    refs := [];
    var i := 0;
    while i < |xs|
      invariant 0 <= i <= |xs|
      invariant Contained(resolve, xs) == refs + Contained(resolve, xs[i..])
    {
      assert xs[i..][1..] == xs[i + 1..];
      var ref := resolve(xs[i]);
      if ref.Ok? {
        refs := refs + [ref.value];
      }
      i := i + 1;
    }
    assert xs[i..] == [];
  }

  /** `ResolveContained` over a key that may be absent. */
  method ResolveContainedField(resolve: Resolver, xs: Option<seq<EntityRef>>) returns (refs: Option<seq<Reference>>)
    ensures refs == ContainedField(resolve, xs)
  {
    refs := None;
    if xs.Some? {
      var found := ResolveContained(resolve, xs.value);
      refs := Some(found);
    }
  }

  /** The loop over `referred_to_by`, then the cut to five. */
  method CollectDescriptions(resolve: Resolver, english: string, stmts: seq<Statement>)
    returns (r: Outcome<seq<Description>>)
    ensures r == DescriptionsOf(resolve, english, stmts)
  {
    var kept := KeepDescriptions(resolve, english, stmts);
    if kept.Raised? {
      return kept;
    }
    var descriptions := kept.value;
    if |descriptions| > MaxDescriptions {
      descriptions := descriptions[..MaxDescriptions];
    }
    return Ok(descriptions);
  }

  /** The loop over `referred_to_by`: statements in another language are skipped, a raise ends it. */
  method KeepDescriptions(resolve: Resolver, english: string, stmts: seq<Statement>)
    returns (r: Outcome<seq<Description>>)
    ensures r == KeptDescriptions(resolve, english, stmts)
  {
    var descriptions: seq<Description> := [];
    var i := 0;
    assert stmts[i..] == stmts;
    PrependNothing(KeptDescriptions(resolve, english, stmts));
    while i < |stmts|
      invariant 0 <= i <= |stmts|
      invariant KeptDescriptions(resolve, english, stmts)
             == Prepend(descriptions, KeptDescriptions(resolve, english, stmts[i..]))
    {
      var stmt := stmts[i];
      KeptDescriptionsStep(resolve, english, stmts, i);
      var langs := EquivalentIds(stmt.language.GetOr([]));
      if langs.Raised? {
        return Raised(langs.error);
      }
      if stmt.language.Some? && Some(english) !in langs.value {
        PrependNothing(KeptDescriptions(resolve, english, stmts[i + 1..]));
        i := i + 1;
        continue;
      }
      if stmt.content.None? {
        return Raised(KeyError);
      }
      var classifications := ResolveContainedField(resolve, stmt.classifiedAs);
      var description := Description(stmt.content.value, classifications);
      PrependStep(descriptions, description, KeptDescriptions(resolve, english, stmts[i + 1..]));
      descriptions := descriptions + [description];
      i := i + 1;
    }
    assert stmts[i..] == [];
    AppendNothing(descriptions);
    return Ok(descriptions);
  }

  /** The loop over a production's parts: each part with actors replaces `who`. */
  method LastPartActors(resolve: Resolver, parts: seq<Event>) returns (r: Outcome<seq<Reference>>)
    ensures r == LastActors(resolve, parts, [])
  {
    var who: seq<Reference> := [];
    var i := 0;
    while i < |parts|
      invariant 0 <= i <= |parts|
      invariant LastActors(resolve, parts, []) == LastActors(resolve, parts[i..], who)
    {
      assert parts[i..][0] == parts[i] && parts[i..][1..] == parts[i + 1..];
      if parts[i].carriedOutBy.Some? {
        var actors := MapAll(resolve, parts[i].carriedOutBy.value);
        if actors.Raised? {
          return Raised(actors.error);
        }
        who := actors.value;
      }
      i := i + 1;
    }
    assert parts[i..] == [];
    return Ok(who);
  }

  /** `creator` of a production: its own actors, extended by the last part's. */
  method CollectCreator(resolve: Resolver, cre: Event) returns (r: Outcome<Option<seq<Reference>>>)
    ensures r == CreatorOf(resolve, cre)
  {
    var creator := RefsField(resolve, cre.carriedOutBy);
    if creator.Raised? || cre.part.None? {
      return creator;
    }
    var who := LastPartActors(resolve, cre.part.value);
    if who.Raised? {
      return Raised(who.error);
    }
    if creator.value.Some? {
      return Ok(Some(creator.value.value + who.value));
    } else if who.value != [] {
      return Ok(Some(who.value));
    }
    return Ok(None);
  }

  /** The loop over an encounter's parts, which reads the encounter's own actors on every turn. */
  method OwnActorsPerPart(resolve: Resolver, parts: seq<Event>, cre: Event) returns (r: Outcome<seq<Reference>>)
    ensures r == RepeatedOwnActors(resolve, parts, cre, [])
  {
    var who: seq<Reference> := [];
    var i := 0;
    while i < |parts|
      invariant 0 <= i <= |parts|
      invariant RepeatedOwnActors(resolve, parts, cre, []) == RepeatedOwnActors(resolve, parts[i..], cre, who)
    {
      assert parts[i..][1..] == parts[i + 1..];
      if cre.carriedOutBy.Some? {
        var actors := MapAll(resolve, cre.carriedOutBy.value);
        if actors.Raised? {
          return Raised(actors.error);
        }
        who := actors.value;
      }
      i := i + 1;
    }
    assert parts[i..] == [];
    return Ok(who);
  }

  /** The loop over `encountered_by`: each encounter overwrites date, place and discoverer. */
  method CollectDiscovery(resolve: Resolver, events: seq<Event>) returns (r: Outcome<Discovery>)
    ensures r == Encounters(resolve, events, NothingFound)
  {
    var date, place, discoverer := None, None, None;
    var i := 0;
    while i < |events|
      invariant 0 <= i <= |events|
      invariant Encounters(resolve, events, NothingFound)
             == Encounters(resolve, events[i..], Discovery(date, place, discoverer))
    {
      var cre := events[i];
      assert events[i..][0] == cre && events[i..][1..] == events[i + 1..];
      if BeginOrEndDate(Some(cre)).Some? {
        date := BeginOrEndDate(Some(cre));
      }
      if cre.tookPlaceAt.Some? {
        var where := PlaceOf(resolve, Some(cre));
        if where.Raised? {
          return Raised(where.error);
        }
        place := where.value;
      }
      if cre.carriedOutBy.Some? {
        var actors := RefsField(resolve, cre.carriedOutBy);
        if actors.Raised? {
          return Raised(actors.error);
        }
        discoverer := actors.value;
      }
      if cre.part.Some? {
        var who := OwnActorsPerPart(resolve, cre.part.value, cre);
        if who.Raised? {
          return Raised(who.error);
        }
        discoverer := Some(discoverer.GetOr([]) + who.value);
      }
      i := i + 1;
    }
    assert events[i..] == [];
    return Ok(Discovery(date, place, discoverer));
  }

  /** The HumanMadeObject branch: production, encounters, material, then the embedded records. */
  method DeriveObjectFields(reg: Registry, dataset: string, english: string, rec: Record, depth: nat)
    returns (r: Outcome<Derived>)
    ensures r == ObjectFieldsOf(reg, dataset, english, rec, depth)
  {
    var resolve := EntryResolver(reg, dataset);
    var creationPlace := PlaceOf(resolve, rec.producedBy);
    if creationPlace.Raised? {
      return Raised(creationPlace.error);
    }
    var creator: Outcome<Option<seq<Reference>>> := Ok(None);
    if rec.producedBy.Some? {
      creator := CollectCreator(resolve, rec.producedBy.value);
      if creator.Raised? {
        return Raised(creator.error);
      }
    }
    var found := CollectDiscovery(resolve, rec.encounteredBy.GetOr([]));
    if found.Raised? {
      return Raised(found.error);
    }
    var material := RefsField(resolve, rec.madeOf);
    if material.Raised? {
      return Raised(material.error);
    }
    var carries := EmbedField(reg, dataset, english, rec.carries, depth);
    if carries.Raised? {
      return Raised(carries.error);
    }
    var shows := EmbedField(reg, dataset, english, rec.shows, depth);
    if shows.Raised? {
      return Raised(shows.error);
    }
    return Ok(ObjectFields(
      BeginOrEndDate(rec.producedBy), creationPlace.value, creator.value,
      found.value.date, found.value.place, found.value.discoverer,
      material.value, carries.value, shows.value));
  }

  /** The branch on the record's `type`. */
  method DeriveFields(reg: Registry, dataset: string, english: string, rec: Record, depth: nat)
    returns (r: Outcome<Derived>)
    ensures r == DerivedOf(reg, dataset, english, rec, depth)
  {
    var resolve := EntryResolver(reg, dataset);
    if rec.typeName == "Person" {
      r := PersonFieldsOf(resolve, rec);
    } else if rec.typeName == "Group" {
      r := GroupFieldsOf(resolve, rec);
    } else if rec.typeName == "HumanMadeObject" {
      r := DeriveObjectFields(reg, dataset, english, rec, depth);
    } else if rec.typeName == "LinguisticObject" || rec.typeName == "VisualItem" {
      r := WorkFieldsOf(resolve, rec);
    } else {
      r := Ok(NoFields);
    }
  }

  /** `make_simple_record(dataset, uri, entity_type)` */
  method MakeSimpleRecord(reg: Registry, dataset: string, uri: string, entityType: string, english: string, depth: nat)
    returns (r: Outcome<Option<SimpleRecord>>)
    ensures r == SimpleRecordOf(reg, dataset, uri, entityType, english, depth)
  {
    var top := MakeSimpleReference(reg, dataset, uri, entityType);
    if !(top.Ok? && top.value.Some?) {
      return Ok(None);
    }
    var (ref, rec) := top.value.value;
    var resolve := EntryResolver(reg, dataset);
    var classifications := ResolveContainedField(resolve, rec.classifiedAs);
    var descriptions: Option<seq<Description>> := None;
    if rec.referredToBy.Some? {
      var collected := CollectDescriptions(resolve, english, rec.referredToBy.value);
      if collected.Raised? {
        return Raised(collected.error);
      }
      descriptions := Some(collected.value);
    }
    var partOf := ResolveContainedField(resolve, if rec.partOf.Some? then rec.partOf else rec.broader);
    var derived := DeriveFields(reg, dataset, english, rec, depth);
    if derived.Raised? {
      return Raised(derived.error);
    }
    var memberOf := ResolveContainedField(resolve, rec.memberOf);
    return Ok(Some(SimpleRecord(ref, classifications, descriptions, partOf, derived.value, memberOf)));
  }
}
