/**
 * The shapes the record simplifier reads and writes.
 *
 * A canonical record is the Linked Art JSON a mapper produces. Every key the
 * simplifier tests with `in` or reads with `.get` is an `Option`; absent keys
 * are `None`. A simplified record is the flattened dictionary the simplifier
 * returns; its optional keys are `Option`s too, and the fields that depend on
 * the record's `type` are grouped in `Derived`.
 */
module LinkedArt {
  import opened Outcomes

  /**
   * An entry of `classified_as`, `language`, `part_of`, `carried_out_by`,
   * `took_place_at`, ...: a JSON object with an optional `id` and an optional
   * `equivalent` list of further entries.
   */
  datatype EntityRef = EntityRef(id: Option<string>, equivalent: Option<seq<EntityRef>>)

  datatype TimeSpan = TimeSpan(beginOfTheBegin: Option<string>, endOfTheEnd: Option<string>)

  /** A Birth, Death, Formation, Dissolution, Production or Encounter event, or one of its parts. */
  datatype Event = Event(
    timespan: Option<TimeSpan>,
    tookPlaceAt: Option<seq<EntityRef>>,
    carriedOutBy: Option<seq<EntityRef>>,
    part: Option<seq<Event>>)

  /**
   * A member of `identified_by` (a Name or another identifier, told apart by
   * `typeName`) or of `referred_to_by` (a textual statement).
   */
  datatype Statement = Statement(
    typeName: string,
    content: Option<string>,
    language: Option<seq<EntityRef>>,
    classifiedAs: Option<seq<EntityRef>>)

  /** The canonical record of one entity: the `data` part of a mapper's result. */
  datatype Record = Record(
    typeName: string,
    identifiedBy: Option<seq<Statement>>,
    classifiedAs: Option<seq<EntityRef>>,
    referredToBy: Option<seq<Statement>>,
    partOf: Option<seq<EntityRef>>,
    broader: Option<seq<EntityRef>>,
    memberOf: Option<seq<EntityRef>>,
    born: Option<Event>,
    died: Option<Event>,
    formedBy: Option<Event>,
    dissolvedBy: Option<Event>,
    producedBy: Option<Event>,
    encounteredBy: Option<seq<Event>>,
    madeOf: Option<seq<EntityRef>>,
    carries: Option<seq<EntityRef>>,
    shows: Option<seq<EntityRef>>,
    about: Option<seq<EntityRef>>,
    represents: Option<seq<EntityRef>>)

  /** The `{id, type, name}` reference that stands in for a full record. */
  datatype Reference = Reference(id: string, typeName: string, name: string)

  /** One kept entry of `descriptions`. */
  datatype Description = Description(content: string, classifications: Option<seq<Reference>>)

  /** The simplifier's output; `None` fields are keys the output dictionary does not have. */
  datatype SimpleRecord = SimpleRecord(
    reference: Reference,
    classifications: Option<seq<Reference>>,
    descriptions: Option<seq<Description>>,
    partOf: Option<seq<Reference>>,
    derived: Derived,
    memberOf: Option<seq<Reference>>)

  /** The keys that only one record type gets. */
  datatype Derived =
    | PersonFields(
        birthDate: Option<string>, birthPlace: Option<Reference>,
        deathDate: Option<string>, deathPlace: Option<Reference>)
    | GroupFields(
        foundingDate: Option<string>, foundingPlace: Option<Reference>, founder: Option<seq<Reference>>,
        dissolutionDate: Option<string>, dissolutionPlace: Option<Reference>, dissolver: Option<Reference>)
    | ObjectFields(
        creationDate: Option<string>, creationPlace: Option<Reference>, creator: Option<seq<Reference>>,
        discoveryDate: Option<string>, discoveryPlace: Option<Reference>, discoverer: Option<seq<Reference>>,
        material: Option<seq<Reference>>,
        carries: Option<seq<Option<SimpleRecord>>>,
        shows: Option<seq<Option<SimpleRecord>>>)
    | WorkFields(about: Option<seq<Reference>>, represents: Option<seq<Reference>>)
    | NoFields

  /**
   * A dataset's fetcher followed by its mapper: given a local identifier and
   * an entity-type hint, the canonical record, `None` when the mapper gives
   * nothing, or whatever either of them raises.
   */
  type Source = (string, string) -> Outcome<Option<Record>>

  /** The dataset registry: dataset name to its fetcher and mapper. */
  type Registry = map<string, Source>
}
