/**
 * The Met Museum mapper: `canonicalize`, which rewrites Getty and Wikidata
 * page links into entity URIs, and `transform`, which turns one object of the
 * Met collection API into a Linked Art HumanMadeObject. The cromulent objects
 * the Python code builds are abstracted to the values below; what is kept is
 * which identifiers, statements, dimensions, production data and subjects
 * appear, and which source field wins.
 */
module MetMapper {
  import opened Outcomes
  import opened Text

  /** The mapper's namespace: every id it mints starts with it. */
  const Namespace := "https://collectionapi.metmuseum.org/public/collection/v1/objects/"

  const GettyHost := "vocab.getty.edu"
  const WikidataMark := "wikidata"
  const WikidataEntity := "http://www.wikidata.org/entity/"

  /**
   * `canonicalize`: a Getty link loses every "/page" (checked first); any
   * other link mentioning wikidata becomes the entity URI of its last path
   * segment, which raises IndexError when the link has no "/"; any other
   * link is returned unchanged.
   */
  function Canonicalize(uri: string): (r: Outcome<string>)
    ensures r.Raised? <==> !Contains(uri, GettyHost) && Contains(uri, WikidataMark) && '/' !in uri
    ensures r.Raised? ==> r.error == IndexError
    ensures Contains(uri, GettyHost) ==> r == Ok(Replace(uri, "/page", ""))
    ensures !Contains(uri, GettyHost) && !Contains(uri, WikidataMark) ==> r == Ok(uri)
    ensures r.Ok? && !Contains(uri, GettyHost) && Contains(uri, WikidataMark) ==>
      && StartsWith(r.value, WikidataEntity)
      && var qid := r.value[|WikidataEntity|..];
      && '/' !in qid && |qid| < |uri|
      && uri[|uri| - |qid|..] == qid && uri[|uri| - |qid| - 1] == '/'
  {
    if Contains(uri, GettyHost) then Ok(Replace(uri, "/page", ""))
    else if Contains(uri, WikidataMark) then
      if '/' !in uri then Raised(IndexError)
      else
        assert (WikidataEntity + AfterLastSlash(uri))[..|WikidataEntity|] == WikidataEntity;
        assert (WikidataEntity + AfterLastSlash(uri))[|WikidataEntity|..] == AfterLastSlash(uri);
        Ok(WikidataEntity + AfterLastSlash(uri))
  else Ok(uri)
  }

  /**
   * A Getty page link: the first "/page" is dropped and the rest is scanned
   * again, so every later "/page" goes too; with no later one, the rest is kept.
   */
  lemma GettyPageStripped(p: string, q: string)
    requires Contains(p + "/page" + q, GettyHost)
    requires forall i :: 0 <= i < |p| ==> !OccursAt(p + "/page" + q, "/page", i)
    ensures Canonicalize(p + "/page" + q) == Ok(p + Replace(q, "/page", ""))
    ensures !Contains(q, "/page") ==> Canonicalize(p + "/page" + q) == Ok(p + q)
  {
    ReplaceFirstOccurrence(p, "/page", q, "");
    var nothing: string := [];
    assert p + nothing == p;
    if !Contains(q, "/page") {
      ReplaceWithoutOccurrence(q, "/page", "");
    }
  }

  /** A Wikidata page link becomes the entity URI of its identifier. */
  lemma WikidataPageToEntity(p: string, qid: string)
    requires !Contains(p + "/" + qid, GettyHost) && Contains(p + "/" + qid, WikidataMark)
    requires '/' !in qid
    ensures Canonicalize(p + "/" + qid) == Ok(WikidataEntity + qid)
  {
    assert (p + "/" + qid)[|p|] == '/';
    AfterLastSlashOfJoin(p, qid);
  }

  /** One element of `measurements`; a missing or null size is `None`. */
  datatype Measurement = Measurement(elementName: string, height: Option<real>, width: Option<real>, depth: Option<real>)

  /** One element of `tags`. */
  datatype Tag = Tag(term: Option<string>, aatUrl: Option<string>, wikidataUrl: Option<string>)

  /**
   * The `data` object of a Met API answer. The keys the mapper reads with
   * `data[...]` are plain fields; the keys it reads with `.get` or tests with
   * `in` are `Option`s.
   */
  datatype MetObject = MetObject(
    objectID: int,
    title: string,
    accessionNumber: string,
    classification: Option<string>,
    objectName: Option<string>,
    medium: string,
    dimensions: string,
    creditLine: string,
    measurements: seq<Measurement>,
    objectWikidataUrl: Option<string>,
    primaryImage: Option<string>,
    objectBeginDate: Option<int>,
    objectEndDate: Option<int>,
    objectDate: Option<string>,
    artistDisplayName: Option<string>,
    artistWikidataUrl: Option<string>,
    artistUlanUrl: Option<string>,
    period: Option<string>,
    galleryNumber: Option<string>,
    tags: Option<seq<Tag>>)

  datatype ObjectClass = Painting | Coin | HumanMadeObject
  datatype IdentifierKind = PrimaryName | AccessionNumber | LocalNumber
  datatype Identifier = Identifier(kind: IdentifierKind, content: string)
  datatype NoteKind = MaterialStatement | DimensionStatement | CreditStatement
  datatype Note = Note(kind: NoteKind, content: string)
  datatype DimensionKind = Height | Width | Depth
  datatype Dimension = Dimension(kind: DimensionKind, value: real, unit: Option<string>)
  /** The artist: a Person with an id when a ULAN or Wikidata link was given. */
  datatype Person = Person(id: Option<string>, name: string)
  /** The production timespan: which bounds are set and whether it has a display name. */
  datatype Span = Span(begin: Option<string>, end: Option<string>, displayName: bool)
  datatype Production = Production(timespan: Option<Span>, carriedOutBy: Option<Person>, during: Option<string>)
  datatype Gallery = Gallery(id: string, name: string)
  /** A `Type` the shown visual item is about. */
  datatype Subject = Subject(id: string, name: string)
  datatype VisualItem = VisualItem(id: string, about: seq<Subject>)

  /** The HumanMadeObject `transform` builds, before serialization. */
  datatype MappedObject = MappedObject(
    id: string,
    name: string,
    cls: ObjectClass,
    identifiedBy: seq<Identifier>,
    referredToBy: seq<Note>,
    dimension: seq<Dimension>,
    equivalent: Option<string>,
    representation: bool,
    producedBy: Option<Production>,
    currentLocation: Option<Gallery>,
    shows: Option<VisualItem>)

  /** `{"data": ..., "identifier": ..., "source": "met"}` */
  datatype Mapped = Mapped(data: MappedObject, identifier: string, source: string)

  /** Python truth of an optional string: present and not empty. */
  predicate Truthy(s: Option<string>) {
    s.Some? && s.value != ""
  }

  /** Python truth of an optional number: present and not zero. */
  predicate NonZero(x: Option<real>) {
    x.Some? && x.value != 0.0
  }

  /** The classification, falling back to the object name only when the classification key is absent. */
  function ClassificationKey(rec: MetObject): string {
    if rec.classification.Some? then rec.classification.value else rec.objectName.GetOr("")
  }

  /** The class `classification_lookup` gives; anything but "Painting" and "Coins" is a plain HumanMadeObject. */
  function ClassOf(rec: MetObject): (c: ObjectClass)
    ensures c == Painting <==> ClassificationKey(rec) == "Painting"
    ensures c == Coin <==> ClassificationKey(rec) == "Coins"
  {
    var key := ClassificationKey(rec);
    if key == "Painting" then Painting else if key == "Coins" then Coin else HumanMadeObject
  }

  /** The three identifiers, in order: title, accession number, object number. */
  function IdentifiersOf(rec: MetObject): seq<Identifier> {
    [Identifier(PrimaryName, rec.title), Identifier(AccessionNumber, rec.accessionNumber),
     Identifier(LocalNumber, Decimal(rec.objectID))]
  }

  /** The statements: medium, dimensions and credit line, each only when not empty. */
  function NotesOf(rec: MetObject): (r: seq<Note>)
    ensures forall n :: n in r ==> n.content != ""
    ensures forall n :: n in r ==>
      n == Note(MaterialStatement, rec.medium) || n == Note(DimensionStatement, rec.dimensions)
      || n == Note(CreditStatement, rec.creditLine)
    ensures Note(MaterialStatement, rec.medium) in r <==> rec.medium != ""
    ensures Note(DimensionStatement, rec.dimensions) in r <==> rec.dimensions != ""
    ensures Note(CreditStatement, rec.creditLine) in r <==> rec.creditLine != ""
    ensures forall i, j :: 0 <= i < j < |r| ==> r[i].kind != r[j].kind && NoteRank(r[i].kind) < NoteRank(r[j].kind)
  {
    (if rec.medium != "" then [Note(MaterialStatement, rec.medium)] else [])
    + (if rec.dimensions != "" then [Note(DimensionStatement, rec.dimensions)] else [])
    + (if rec.creditLine != "" then [Note(CreditStatement, rec.creditLine)] else [])
  }

  /** The order in which the statements are added. */
  function NoteRank(k: NoteKind): int {
    match k
    case MaterialStatement => 0
    case DimensionStatement => 1
    case CreditStatement => 2
  }

  /** The unit every dimension gets. */
  const Centimetres := "cm"

  /** The size of one kind an element gives. */
  function SizeOf(m: Measurement, kind: DimensionKind): Option<real> {
    match kind
    case Height => m.height
    case Width => m.width
    case Depth => m.depth
  }

  /** The order in which the sizes are read. */
  function DimensionRank(k: DimensionKind): int {
    match k
    case Height => 0
    case Width => 1
    case Depth => 2
  }

  /**
   * The dimensions one "Overall" element adds, without a unit yet: each
   * non-zero size of height, width and depth becomes its dimension, in that
   * order; a size that is missing or zero is skipped.
   */
  function SizesOf(m: Measurement): (r: seq<Dimension>)
    ensures |r| <= 3
    ensures forall d :: d in r ==> d.unit.None? && d.value != 0.0
    ensures forall d :: d in r ==> NonZero(SizeOf(m, d.kind)) && d.value == SizeOf(m, d.kind).value
    ensures NonZero(m.height) <==> exists d :: d in r && d.kind == Height
    ensures NonZero(m.width) <==> exists d :: d in r && d.kind == Width
    ensures NonZero(m.depth) <==> exists d :: d in r && d.kind == Depth
    ensures forall i, j :: 0 <= i < j < |r| ==> DimensionRank(r[i].kind) < DimensionRank(r[j].kind)
  {
    (if NonZero(m.height) then [Dimension(Height, m.height.value, None)] else [])
    + (if NonZero(m.width) then [Dimension(Width, m.width.value, None)] else [])
    + (if NonZero(m.depth) then [Dimension(Depth, m.depth.value, None)] else [])
  }

  /** The inner loop's effect: every dimension collected so far is given the unit cm. */
  function InCentimetres(ds: seq<Dimension>): (r: seq<Dimension>)
    ensures |r| == |ds|
    ensures forall k :: 0 <= k < |ds| ==> r[k] == ds[k].(unit := Some(Centimetres))
  {
    seq(|ds|, k requires 0 <= k < |ds| => ds[k].(unit := Some(Centimetres)))
  }

  /** The loop over `measurements`: each "Overall" element adds its sizes, then every dimension so far is set to cm. */
  function Measure(ms: seq<Measurement>, dims: seq<Dimension>): seq<Dimension>
  {
    if ms == [] then dims
    else if ms[0].elementName == "Overall" then Measure(ms[1..], InCentimetres(dims + SizesOf(ms[0])))
    else Measure(ms[1..], dims)
  }

  /** The sizes of the "Overall" elements, in order, without units: what `Measure` collects. */
  function OverallSizes(ms: seq<Measurement>): (r: seq<Dimension>)
    ensures forall d :: d in r ==> d.value != 0.0 && d.unit.None?
  {
    if ms == [] then []
    else (if ms[0].elementName == "Overall" then SizesOf(ms[0]) else []) + OverallSizes(ms[1..])
  }

  /** Some element of the measurements is an "Overall" one. */
  predicate HasOverall(ms: seq<Measurement>) {
    ms != [] && (ms[0].elementName == "Overall" || HasOverall(ms[1..]))
  }

  lemma InCentimetresAppend(a: seq<Dimension>, b: seq<Dimension>)
    ensures InCentimetres(InCentimetres(a) + b) == InCentimetres(a + b)
  {
  }

  /** Without an "Overall" element the loop changes nothing and there are no sizes. */
  lemma {:induction false} MeasureWithoutOverall(ms: seq<Measurement>, dims: seq<Dimension>)
    requires !HasOverall(ms)
    ensures Measure(ms, dims) == dims && OverallSizes(ms) == []
  {
    if ms != [] {
      MeasureWithoutOverall(ms[1..], dims);
    }
  }

  /**
   * With an "Overall" element, `Measure` collects exactly the sizes of the
   * "Overall" elements after the dimensions it started from, all in cm.
   */
  lemma {:induction false} MeasureCollectsOverall(ms: seq<Measurement>, dims: seq<Dimension>)
    requires HasOverall(ms)
    ensures Measure(ms, dims) == InCentimetres(dims + OverallSizes(ms))
  {
    var rest := ms[1..];
    if ms[0].elementName != "Overall" {
      assert Measure(ms, dims) == Measure(rest, dims);
      assert OverallSizes(ms) == OverallSizes(rest);
      MeasureCollectsOverall(rest, dims);
    } else {
      var own := SizesOf(ms[0]);
      var next := InCentimetres(dims + own);
      assert Measure(ms, dims) == Measure(rest, next);
      assert OverallSizes(ms) == own + OverallSizes(rest);
      if HasOverall(rest) {
        MeasureCollectsOverall(rest, next);
        InCentimetresAppend(dims + own, OverallSizes(rest));
        assert dims + own + OverallSizes(rest) == dims + OverallSizes(ms);
      } else {
        MeasureWithoutOverall(rest, next);
        AppendNothing(own);
      }
    }
  }

  /**
   * Every dimension of the object is in cm and not zero, and they are the
   * sizes of the "Overall" elements, in order.
   */
  lemma DimensionsInCentimetres(ms: seq<Measurement>)
    ensures |Measure(ms, [])| == |OverallSizes(ms)|
    ensures forall k :: 0 <= k < |Measure(ms, [])| ==>
      && Measure(ms, [])[k] == OverallSizes(ms)[k].(unit := Some(Centimetres))
      && Measure(ms, [])[k].value != 0.0
  {
    if HasOverall(ms) {
      MeasureCollectsOverall(ms, []);
      AppendNothing(OverallSizes(ms));
    } else {
      MeasureWithoutOverall(ms, []);
    }
    assert forall k :: 0 <= k < |OverallSizes(ms)| ==> OverallSizes(ms)[k] in OverallSizes(ms);
  }

  /**
   * The date tests of `transform` bind the result of `is not None` (walrus
   * precedence), a boolean: each date key says only whether it is present.
   */
  datatype DateKeys = DateKeys(begin: bool, end: bool, display: bool)

  function DateKeysOf(rec: MetObject): DateKeys {
    DateKeys(rec.objectBeginDate.Some?, rec.objectEndDate.Some?, rec.objectDate.Some?)
  }

  /** The begin and end strings formatted from `True`. */
  const BeginFromFlag := "True-01-01T00:00:00"
  const EndFromFlag := "True-12-31T23:59:59"

  /**
   * The production timespan. `parsed` is what `make_datetime(True)` gives
   * (the walrus binds the boolean, not the display date), `None` when it
   * raises; it is asked only when the display date is the only date key.
   */
  function SpanOf(keys: DateKeys, parsed: Option<(string, string)>): (r: Option<Span>)
    ensures r.Some? <==> keys.begin || keys.end || keys.display
    ensures r.Some? ==> (r.value.begin.Some? <==> keys.begin || (keys.display && !keys.end && parsed.Some?))
    ensures r.Some? ==> (r.value.end.Some? <==> keys.end || (keys.display && !keys.begin && parsed.Some?))
    ensures r.Some? ==> r.value.displayName == keys.display
  {
    var begin := if keys.begin then Some(BeginFromFlag) else None;
    var end := if keys.end then Some(EndFromFlag) else None;
    var (begin', end') :=
      if keys.display && !keys.begin && !keys.end && parsed.Some? then (Some(parsed.value.0), Some(parsed.value.1))
      else (begin, end);
    if keys.begin || keys.end || keys.display then Some(Span(begin', end', keys.display)) else None
  }

  /**
   * The artist: the ULAN link when it is not empty, else the Wikidata link
   * (even an empty one), canonicalized; no id when the ULAN link is empty and
   * the Wikidata key is absent.
   */
  function ArtistOf(rec: MetObject): (r: Outcome<Option<Person>>)
    ensures r == Ok(None) <==> !Truthy(rec.artistDisplayName)
    ensures r.Ok? && r.value.Some? ==> r.value.value.name == rec.artistDisplayName.value
    ensures Truthy(rec.artistDisplayName) && Truthy(rec.artistUlanUrl) ==>
      (r.Ok? <==> Canonicalize(rec.artistUlanUrl.value).Ok?)
      && (r.Ok? ==> r.value.value.id == Some(Canonicalize(rec.artistUlanUrl.value).value))
    ensures Truthy(rec.artistDisplayName) && !Truthy(rec.artistUlanUrl) && rec.artistWikidataUrl.Some? ==>
      (r.Ok? <==> Canonicalize(rec.artistWikidataUrl.value).Ok?)
      && (r.Ok? ==> r.value.value.id == Some(Canonicalize(rec.artistWikidataUrl.value).value))
    ensures Truthy(rec.artistDisplayName) && !Truthy(rec.artistUlanUrl) && rec.artistWikidataUrl.None? ==>
      r == Ok(Some(Person(None, rec.artistDisplayName.value)))
  {
    if !Truthy(rec.artistDisplayName) then Ok(None)
    else
      var ident := if Truthy(rec.artistUlanUrl) then rec.artistUlanUrl else rec.artistWikidataUrl;
      if ident.None? then Ok(Some(Person(None, rec.artistDisplayName.value)))
      else
        var id :- Canonicalize(ident.value);
        Ok(Some(Person(Some(id), rec.artistDisplayName.value)))
  }

  /** `produced_by`: attached only when there is an artist name or a date key. */
  function ProductionOf(rec: MetObject, artist: Option<Person>, parsed: Option<(string, string)>): (r: Option<Production>)
    ensures r.Some? <==>
      Truthy(rec.artistDisplayName) || rec.objectBeginDate.Some? || rec.objectEndDate.Some? || rec.objectDate.Some?
    ensures r.Some? ==> r.value.carriedOutBy == artist
    ensures r.Some? ==> (r.value.during.Some? <==> Truthy(rec.period)) && (r.value.during.Some? ==> r.value.during == rec.period)
    ensures r.Some? ==>
      (r.value.timespan.Some? <==> rec.objectBeginDate.Some? || rec.objectEndDate.Some? || rec.objectDate.Some?)
  {
    var keys := DateKeysOf(rec);
    var during := if Truthy(rec.period) then rec.period else None;
    if Truthy(rec.artistDisplayName) || keys.begin || keys.end || keys.display then
      Some(Production(SpanOf(keys, parsed), artist, during))
    else None
  }

  /** The gallery, when `GalleryNumber` is not empty. */
  function GalleryOf(rec: MetObject): Option<Gallery> {
    if Truthy(rec.galleryNumber) then Some(Gallery(Namespace + "gallery/" + rec.galleryNumber.value, rec.galleryNumber.value))
    else None
  }

  /** The link a tag is identified by: its AAT link when not empty, else its Wikidata link. */
  function TagLink(t: Tag): Option<string> {
    if Truthy(t.aatUrl) then t.aatUrl else t.wikidataUrl
  }

  /** The loop over `tags`: one subject per tag with a link, in tag order. */
  function SubjectsOf(tags: seq<Tag>): (r: Outcome<seq<Subject>>)
    ensures r.Ok? ==> |r.value| <= |tags|
  {
    if tags == [] then Ok([])
    else if TagLink(tags[0]).None? then SubjectsOf(tags[1..])
    else
      var id :- Canonicalize(TagLink(tags[0]).value);
      if tags[0].term.None? then Raised(KeyError)
      else Prepend([Subject(id, tags[0].term.value)], SubjectsOf(tags[1..]))
  }

  /** The tags that have a link, in order. */
  function LinkedTags(tags: seq<Tag>): (r: seq<Tag>)
    ensures forall t :: t in r ==> t in tags && TagLink(t).Some?
  {
    if tags == [] then []
    else (if TagLink(tags[0]).Some? then [tags[0]] else []) + LinkedTags(tags[1..])
  }

  /** `s` is what a tag becomes: its link canonicalized and its term. */
  predicate SubjectOfTag(t: Tag, s: Subject) {
    TagLink(t).Some? && Canonicalize(TagLink(t).value) == Ok(s.id) && t.term == Some(s.name)
  }

  /**
   * With no exception, there is one subject per tag with a link, in order:
   * its id is the tag's link canonicalized and its name the tag's term.
   */
  lemma {:induction false} SubjectsPerLinkedTag(tags: seq<Tag>)
    requires SubjectsOf(tags).Ok?
    ensures |SubjectsOf(tags).value| == |LinkedTags(tags)|
    ensures forall k :: 0 <= k < |LinkedTags(tags)| ==> SubjectOfTag(LinkedTags(tags)[k], SubjectsOf(tags).value[k])
  {
    if tags != [] {
      SubjectsPerLinkedTag(tags[1..]);
      if TagLink(tags[0]).Some? {
        var rest := SubjectsOf(tags[1..]).value;
        var id := Canonicalize(TagLink(tags[0]).value).value;
        var head := Subject(id, tags[0].term.value);
        assert SubjectsOf(tags).value == [head] + rest;
        assert LinkedTags(tags) == [tags[0]] + LinkedTags(tags[1..]);
      } else {
        AppendNothing(LinkedTags(tags[1..]));
      }
    }
  }

  /** A tag that makes the loop raise: it has a link, and the link does not canonicalize or the tag has no term. */
  predicate TagFails(t: Tag) {
    TagLink(t).Some? && (Canonicalize(TagLink(t).value).Raised? || t.term.None?)
  }

  /** The tags raise exactly when one of them fails. */
  lemma {:induction false} SubjectsRaiseIff(tags: seq<Tag>)
    ensures SubjectsOf(tags).Raised? <==> exists k :: 0 <= k < |tags| && TagFails(tags[k])
  {
    if tags != [] {
      SubjectsRaiseIff(tags[1..]);
      if TagFails(tags[0]) {
        assert SubjectsOf(tags).Raised?;
      } else {
        if exists k :: 0 <= k < |tags| && TagFails(tags[k]) {
          var k :| 0 <= k < |tags| && TagFails(tags[k]);
          assert tags[1..][k - 1] == tags[k];
        }
        if SubjectsOf(tags).Raised? {
          var k :| 0 <= k < |tags[1..]| && TagFails(tags[1..][k]);
          assert tags[k + 1] == tags[1..][k];
        }
      }
    }
  }

  /** `shows`: present exactly when the object has a `tags` key. */
  function ShownOf(rec: MetObject): (r: Outcome<Option<VisualItem>>)
    ensures r.Raised? <==> rec.tags.Some? && SubjectsOf(rec.tags.value).Raised?
    ensures r.Ok? ==> (r.value.Some? <==> rec.tags.Some?)
    ensures r.Ok? && r.value.Some? ==>
      r.value.value.id == Namespace + "vi/" + Decimal(rec.objectID) && Ok(r.value.value.about) == SubjectsOf(rec.tags.value)
  {
    if rec.tags.None? then Ok(None)
    else
      var about :- SubjectsOf(rec.tags.value);
      Ok(Some(VisualItem(Namespace + "vi/" + Decimal(rec.objectID), about)))
  }

  /** `equivalent`: the object's Wikidata link, canonicalized, when it is not empty. */
  function EquivalentOf(rec: MetObject): (r: Outcome<Option<string>>)
    ensures r == Ok(None) <==> !Truthy(rec.objectWikidataUrl)
    ensures r.Ok? && r.value.Some? ==> Canonicalize(rec.objectWikidataUrl.value) == Ok(r.value.value)
    ensures r.Raised? ==> Truthy(rec.objectWikidataUrl) && Canonicalize(rec.objectWikidataUrl.value).Raised?
  {
    if !Truthy(rec.objectWikidataUrl) then Ok(None)
    else
      var eq :- Canonicalize(rec.objectWikidataUrl.value);
      Ok(Some(eq))
  }

  /** `transform(record)`: the mapped object, or the exception a link rewrite or a tag raises. */
  function MapObject(rec: MetObject, parsed: Option<(string, string)>): (r: Outcome<Mapped>)
    ensures r.Raised? <==> EquivalentOf(rec).Raised? || ArtistOf(rec).Raised? || ShownOf(rec).Raised?
    ensures r.Ok? ==> r.value.data.name == rec.title && r.value.data.cls == ClassOf(rec)
    ensures r.Ok? ==> (r.value.data.representation <==> Truthy(rec.primaryImage))
    ensures r.Ok? ==> (r.value.data.currentLocation.Some? <==> Truthy(rec.galleryNumber))
    ensures r.Ok? ==> (r.value.data.shows.Some? <==> rec.tags.Some?)
    ensures r.Ok? ==> (r.value.data.equivalent.Some? <==> Truthy(rec.objectWikidataUrl))
  {
    var equivalent :- EquivalentOf(rec);
    var artist :- ArtistOf(rec);
    var shows :- ShownOf(rec);
    Ok(Mapped(
      MappedObject(
        Namespace + Decimal(rec.objectID), rec.title, ClassOf(rec), IdentifiersOf(rec), NotesOf(rec),
        Measure(rec.measurements, []), equivalent, Truthy(rec.primaryImage),
        ProductionOf(rec, artist, parsed), GalleryOf(rec), shows),
      Decimal(rec.objectID),
      "met"))
  }

  /**
   * The object's id is the namespace followed by its identifier, which reads
   * back as the object number; its identifiers are title, accession number
   * and object number in that order; the source is "met".
   */
  lemma MappedIdentity(rec: MetObject, parsed: Option<(string, string)>)
    requires MapObject(rec, parsed).Ok?
    ensures var m := MapObject(rec, parsed).value;
      && m.data.id == Namespace + m.identifier
      && ParseDecimal(m.identifier) == rec.objectID
      && m.source == "met"
      && |m.data.identifiedBy| == 3
      && m.data.identifiedBy[0] == Identifier(PrimaryName, rec.title)
      && m.data.identifiedBy[1] == Identifier(AccessionNumber, rec.accessionNumber)
      && m.data.identifiedBy[2].kind == LocalNumber
      && ParseDecimal(m.data.identifiedBy[2].content) == rec.objectID
  {
    DecimalRoundTrip(rec.objectID);
  }

  /** `produced_by` is there exactly when the artist name is not empty or a date key is present. */
  lemma ProductionPresence(rec: MetObject, parsed: Option<(string, string)>)
    requires MapObject(rec, parsed).Ok?
    ensures MapObject(rec, parsed).value.data.producedBy.Some? <==>
      Truthy(rec.artistDisplayName) || rec.objectBeginDate.Some? || rec.objectEndDate.Some? || rec.objectDate.Some?
    ensures !Truthy(rec.artistDisplayName) && rec.objectBeginDate.None? && rec.objectEndDate.None? && rec.objectDate.None?
      ==> MapObject(rec, parsed).value.data.producedBy.None?
  {
  }

  /** A ULAN link wins over a Wikidata link for the artist's id. */
  lemma UlanPreferred(rec: MetObject, parsed: Option<(string, string)>)
    requires Truthy(rec.artistDisplayName) && Truthy(rec.artistUlanUrl)
    requires MapObject(rec, parsed).Ok?
    ensures var p := MapObject(rec, parsed).value.data.producedBy;
      && p.Some? && p.value.carriedOutBy.Some? && p.value.carriedOutBy.value.id.Some?
      && Canonicalize(rec.artistUlanUrl.value) == Ok(p.value.carriedOutBy.value.id.value)
  {
  }

  /**
   * "Paintings", the Met's own classification for paintings, is not in the
   * lookup table, and an object name "Painting" is not consulted when a
   * classification is present: such an object is a plain HumanMadeObject.
   */
  lemma PaintingsIsPlainObject(rec: MetObject)
    requires rec.classification == Some("Paintings") && rec.objectName == Some("Painting")
    ensures ClassOf(rec) == HumanMadeObject
    ensures ClassOf(rec.(classification := None)) == Painting
  {
  }

  /**
   * `transform` step by step: the item's lists are built in order, the
   * measurement loop sets every dimension so far to cm after each "Overall"
   * element, and the tag loop collects the subjects.
   */
  method Transform(rec: MetObject, parsed: Option<(string, string)>) returns (r: Outcome<Mapped>)
    ensures r == MapObject(rec, parsed)
  {
    var myid := rec.objectID;
    var cls := ClassOf(rec);
    var identifiedBy := [Identifier(PrimaryName, rec.title)];
    identifiedBy := identifiedBy + [Identifier(AccessionNumber, rec.accessionNumber)];
    identifiedBy := identifiedBy + [Identifier(LocalNumber, Decimal(myid))];

    var referredToBy := CollectNotes(rec);

    var dimension := MeasureAll(rec.measurements);

    var equivalent: Option<string> := None;
    if Truthy(rec.objectWikidataUrl) {
      var eq := Canonicalize(rec.objectWikidataUrl.value);
      if eq.Raised? {
        return Raised(eq.error);
      }
      equivalent := Some(eq.value);
    }
    assert EquivalentOf(rec) == Ok(equivalent);
    var representation := Truthy(rec.primaryImage);

    var artist := ArtistOf(rec);
    if artist.Raised? {
      return Raised(artist.error);
    }
    var producedBy := ProductionOf(rec, artist.value, parsed);
    var currentLocation := GalleryOf(rec);

    var shows := CollectShown(rec);
    if shows.Raised? {
      return Raised(shows.error);
    }
    assert identifiedBy == IdentifiersOf(rec);
    return Ok(Mapped(
      MappedObject(
        Namespace + Decimal(myid), rec.title, cls, identifiedBy, referredToBy, dimension,
        equivalent, representation, producedBy, currentLocation, shows.value),
      Decimal(myid),
      "met"));
  }

  /** The statements, appended one `if` at a time. */
  method CollectNotes(rec: MetObject) returns (notes: seq<Note>)
    ensures notes == NotesOf(rec)
  {
    notes := [];
    if rec.medium != "" {
      notes := notes + [Note(MaterialStatement, rec.medium)];
    }
    if rec.dimensions != "" {
      notes := notes + [Note(DimensionStatement, rec.dimensions)];
    }
    if rec.creditLine != "" {
      notes := notes + [Note(CreditStatement, rec.creditLine)];
    }
  }

  /** The visual item, made only when the record has `tags`. */
  method CollectShown(rec: MetObject) returns (r: Outcome<Option<VisualItem>>)
    ensures r == ShownOf(rec)
  {
    if rec.tags.None? {
      return Ok(None);
    }
    var about := CollectSubjects(rec.tags.value);
    if about.Raised? {
      return Raised(about.error);
    }
    return Ok(Some(VisualItem(Namespace + "vi/" + Decimal(rec.objectID), about.value)));
  }

  /** The loop over `measurements`. */
  method MeasureAll(ms: seq<Measurement>) returns (dims: seq<Dimension>)
    ensures dims == Measure(ms, [])
  {
    dims := [];
    var i := 0;
    while i < |ms|
      invariant 0 <= i <= |ms|
      invariant Measure(ms, []) == Measure(ms[i..], dims)
    {
      assert ms[i..][0] == ms[i] && ms[i..][1..] == ms[i + 1..];
      var m := ms[i];
      ghost var before := dims;
      if m.elementName == "Overall" {
        if NonZero(m.height) {
          dims := dims + [Dimension(Height, m.height.value, None)];
        }
        if NonZero(m.width) {
          dims := dims + [Dimension(Width, m.width.value, None)];
        }
        if NonZero(m.depth) {
          dims := dims + [Dimension(Depth, m.depth.value, None)];
        }
        assert dims == before + SizesOf(m);
        dims := SetCentimetres(dims);
      }
      i := i + 1;
    }
    assert ms[i..] == [];
  }

  /** The inner loop that gives every dimension so far the unit cm. */
  method SetCentimetres(ds: seq<Dimension>) returns (dims: seq<Dimension>)
    ensures dims == InCentimetres(ds)
  {
    dims := ds;
    var j := 0;
    while j < |dims|
      invariant 0 <= j <= |dims| == |ds|
      invariant forall k :: 0 <= k < j ==> dims[k] == ds[k].(unit := Some(Centimetres))
      invariant forall k :: j <= k < |ds| ==> dims[k] == ds[k]
    {
      dims := dims[j := dims[j].(unit := Some(Centimetres))];
      j := j + 1;
    }
    assert forall k :: 0 <= k < |ds| ==> dims[k] == InCentimetres(ds)[k];
  }

  /** The loop over `tags`. */
  method CollectSubjects(tags: seq<Tag>) returns (r: Outcome<seq<Subject>>)
    ensures r == SubjectsOf(tags)
  {
    var about: seq<Subject> := [];
    var i := 0;
    assert tags[i..] == tags;
    PrependNothing(SubjectsOf(tags));
    while i < |tags|
      invariant 0 <= i <= |tags|
      invariant SubjectsOf(tags) == Prepend(about, SubjectsOf(tags[i..]))
    {
      var tag := tags[i];
      assert tags[i..][0] == tag && tags[i..][1..] == tags[i + 1..];
      var tagid := TagLink(tag);
      if tagid.Some? {
        var id := Canonicalize(tagid.value);
        if id.Raised? {
          return Raised(id.error);
        }
        if tag.term.None? {
          return Raised(KeyError);
        }
        PrependStep(about, Subject(id.value, tag.term.value), SubjectsOf(tags[i + 1..]));
        about := about + [Subject(id.value, tag.term.value)];
      }
      i := i + 1;
    }
    assert tags[i..] == [];
    PrependNothing(SubjectsOf(tags[i..]));
    AppendNothing(about);
    return Ok(about);
  }
}
