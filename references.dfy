/**
 * Fetching one record through the dataset registry (`fetch_record`) and
 * turning it into the `{id, type, name}` reference that other records embed
 * (`make_simple_reference`).
 */
module References {
  import opened Outcomes
  import opened Text
  import opened LinkedArt
  import opened PrimaryNames

  /**
   * The identifier a dataset is asked for: one that starts with "http" is cut
   * to its last path segment, any other is used as given.
   */
  function LocalForm(identifier: string): (local: string)
    ensures |local| <= |identifier| && local == identifier[|identifier| - |local|..]
    ensures StartsWith(identifier, "http") ==> '/' !in local
    ensures !StartsWith(identifier, "http") ==> local == identifier
  {
    if StartsWith(identifier, "http") then AfterLastSlash(identifier) else identifier
  }

  /** Cutting an identifier twice gives what cutting it once gave. */
  lemma LocalFormIdempotent(identifier: string)
    ensures LocalForm(LocalForm(identifier)) == LocalForm(identifier)
  {
    var local := LocalForm(identifier);
    if StartsWith(local, "http") {
      assert StartsWith(identifier, "http");
      AfterLastSlashWithoutSlash(local);
    }
  }

  /** A full URI and its bare last segment name the same record. */
  lemma LocalFormOfUri(base: string, local: string)
    requires StartsWith(base, "http") && '/' !in local
    ensures LocalForm(base + "/" + local) == local
  {
    assert (base + "/" + local)[..4] == base[..4];
    AfterLastSlashOfJoin(base, local);
  }

  /**
   * `fetch_record`: an unknown dataset raises ValueError; a known one runs its
   * fetcher and mapper, which give the record's data, nothing, or an exception.
   */
  function FetchRecord(reg: Registry, dataset: string, identifier: string, entityType: string)
    : (r: Outcome<Option<Record>>)
    ensures dataset !in reg ==> r == Raised(ValueError)
  {
    if dataset !in reg then Raised(ValueError) else reg[dataset](identifier, entityType)
  }

  /**
   * `make_simple_reference`: `Ok(None)` when the mapper gave nothing, else the
   * reference and the record it was made from. A record without `identified_by`
   * raises KeyError, one without any Name TypeError, a chosen Name without
   * `content` KeyError.
   */
  function MakeSimpleReference(reg: Registry, dataset: string, identifier: string, entityType: string)
    : (r: Outcome<Option<(Reference, Record)>>)
    ensures r == Ok(None) <==> FetchRecord(reg, dataset, LocalForm(identifier), entityType) == Ok(None)
    ensures r.Ok? && r.value.Some? ==>
      var (ref, rec) := r.value.value;
      && FetchRecord(reg, dataset, LocalForm(identifier), entityType) == Ok(Some(rec))
      && ref.id == LocalForm(identifier)
      && ref.typeName == rec.typeName
      && rec.identifiedBy.Some?
      && PrimaryNameOf(rec.identifiedBy.value).Ok?
      && PrimaryNameOf(rec.identifiedBy.value).value.Some?
      && PrimaryNameOf(rec.identifiedBy.value).value.value.content == Some(ref.name)
    ensures FetchRecord(reg, dataset, LocalForm(identifier), entityType).Raised? ==>
      r == Raised(FetchRecord(reg, dataset, LocalForm(identifier), entityType).error)
    ensures var f := FetchRecord(reg, dataset, LocalForm(identifier), entityType);
      f.Ok? && f.value.Some? && f.value.value.identifiedBy.None? ==> r == Raised(KeyError)
    ensures var f := FetchRecord(reg, dataset, LocalForm(identifier), entityType);
      f.Ok? && f.value.Some? && f.value.value.identifiedBy.Some? ==>
        var name := PrimaryNameOf(f.value.value.identifiedBy.value);
        && (name.Raised? ==> r == Raised(name.error))
        && (name == Ok(None) ==> r == Raised(TypeError))
        && (name.Ok? && name.value.Some? && name.value.value.content.None? ==> r == Raised(KeyError))
        && (name.Ok? && name.value.Some? && name.value.value.content.Some? ==> r.Ok? && r.value.Some?)
  {
    var local := LocalForm(identifier);
    var fetched :- FetchRecord(reg, dataset, local, entityType);
    match fetched
    case None => Ok(None)
    case Some(rec) =>
      if rec.identifiedBy.None? then Raised(KeyError)
      else
        var name :- PrimaryNameOf(rec.identifiedBy.value);
        if name.None? then Raised(TypeError)
        else if name.value.content.None? then Raised(KeyError)
        else Ok(Some((Reference(local, rec.typeName, name.value.content.value), rec)))
  }

  /** `make_simple_reference(dataset, identifier)[0]`: indexing a missing reference raises TypeError. */
  function RefOf(reg: Registry, dataset: string, identifier: string): (r: Outcome<Reference>)
    ensures r.Ok? <==>
      MakeSimpleReference(reg, dataset, identifier, "").Ok? && MakeSimpleReference(reg, dataset, identifier, "").value.Some?
    ensures MakeSimpleReference(reg, dataset, identifier, "") == Ok(None) ==> r == Raised(TypeError)
    ensures r.Ok? ==> r.value == MakeSimpleReference(reg, dataset, identifier, "").value.value.0
  {
    var made :- MakeSimpleReference(reg, dataset, identifier, "");
    if made.None? then Raised(TypeError) else Ok(made.value.0)
  }

  /** `make_simple_reference(dataset, x["id"])[0]` for an entry `x` of a record. */
  function RefOfEntry(reg: Registry, dataset: string, x: EntityRef): Outcome<Reference>
  {
    if x.id.None? then Raised(KeyError) else RefOf(reg, dataset, x.id.value)
  }

  /** How an entry of a record becomes a reference; failures are the exceptions the call raises. */
  type Resolver = EntityRef -> Outcome<Reference>

  /** `make_simple_reference(dataset, x["id"])[0]` as a function of the entry `x`. */
  function EntryResolver(reg: Registry, dataset: string): Resolver
  {
    (x: EntityRef) => RefOfEntry(reg, dataset, x)
  }

  /** `make_simple_reference(dataset, xs[0]["id"])[0]`: an empty list raises IndexError. */
  function FirstRef(resolve: Resolver, xs: seq<EntityRef>): Outcome<Reference>
  {
    if xs == [] then Raised(IndexError) else resolve(xs[0])
  }

  /**
   * The reference depends only on the identifier's last segment: the full URI
   * and the bare local identifier give the same answer.
   */
  lemma SpellingsAgree(reg: Registry, dataset: string, identifier: string, entityType: string)
    ensures MakeSimpleReference(reg, dataset, LocalForm(identifier), entityType)
         == MakeSimpleReference(reg, dataset, identifier, entityType)
  {
    var local := LocalForm(identifier);
    LocalFormIdempotent(identifier);
    assert LocalForm(local) == local;
  }

  /** A fetched record whose `identified_by` holds no Name has no name to read: TypeError. */
  lemma NamelessRecordRaises(reg: Registry, dataset: string, identifier: string, entityType: string, rec: Record)
    requires FetchRecord(reg, dataset, LocalForm(identifier), entityType) == Ok(Some(rec))
    requires rec.identifiedBy.Some? && forall j :: 0 <= j < |rec.identifiedBy.value| ==> rec.identifiedBy.value[j].typeName != "Name"
    ensures MakeSimpleReference(reg, dataset, identifier, entityType) == Raised(TypeError)
  {
  }

  /** An unknown dataset makes every reference into it raise ValueError. */
  lemma UnknownDatasetRaises(reg: Registry, dataset: string, identifier: string, entityType: string)
    requires dataset !in reg
    ensures MakeSimpleReference(reg, dataset, identifier, entityType) == Raised(ValueError)
    ensures RefOf(reg, dataset, identifier) == Raised(ValueError)
  {
  }
}
