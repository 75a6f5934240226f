# Linked Art MCP proxy: record flattening, the Met mapper and the searchers

The proxy answers questions about cultural heritage records. Each record
comes from one of several datasets, and is first mapped to Linked Art
JSON-LD. It is then flattened into a small JSON object that a language
model can read. This project models in Dafny the three parts of that work
that decide what the answers contain. Each part is checked against a
specification:

- **`get_primary_name`, `fetch_record`, `make_simple_reference` and
  `make_simple_record`**, the flattening in `lamcp/notebook.py`. Module
  `PrimaryNames` picks a record's name. Module `References` fetches a
  record through the dataset registry and turns it into an `{id, type,
  name}` reference. Module `RecordSpec` states, as functions, what the
  flattened record holds: classifications, English descriptions cut to
  five, `part_of`, the fields of each record type (people, groups,
  objects, works), membership, and the embedded records of `carries` and
  `shows`. Module `Notebook` holds the loops as the Python code runs them.
  Each loop is proved equal to its `RecordSpec` function.
- **The Met Museum mapper** (`MetMapper`). `canonicalize` rewrites Getty
  and Wikidata page links. `transform` turns one Met collection object
  into a Linked Art HumanMadeObject.
- **The searchers** (`WikidataSearch`, `GettySearch`, `LuxSearch`). Each
  builds its query or scope from the entity type and reduces the service's
  answer to a list of ids.

Python exceptions are values: `Outcome<T>` is `Ok(value)` or
`Raised(error)`. `error` is ValueError, KeyError, IndexError, TypeError or
UnboundLocalError for the Python classes of those names. Three values are
not Python classes: `RequestFailed(status)` is the bare `Exception` the
searchers raise for a status other than 200, `CollaboratorError` is
whatever a dataset's fetcher or mapper raises, and `DepthExceeded`
ends the nesting bound of embedded records. Each dataset's fetcher and
mapper are a parameter (`Registry`), and so are the HTTP and SPARQL
services. The model therefore holds for every answer those services give
when the request itself succeeds. The model follows the code as written.
In particular:

- The Met date keys are checked with a walrus expression that binds a
  boolean. The timespan bounds are therefore formatted from `True`.
- `discoverer` is overwritten by each encounter that has actors.
- An encounter's parts repeat the encounter's own actors.

## Model

| member | source | states |
|---|---|---|
| Outcomes.MapAll | lamcp/notebook.py:210 | A list comprehension over calls: it succeeds iff every call succeeds, then holds the values in order; otherwise it raises the first failing call's exception |
| Text.AfterLastSlash | lamcp/notebook.py:94-95 | The last segment after `rsplit("/", 1)`: a suffix with no "/", preceded by "/" unless it is the whole string |
| Text.ReplaceFirstOccurrence | lamcp/sources/met/mapper.py:117 | `str.replace`: the first occurrence is replaced and the scan resumes after it |
| Text.ReplaceWithoutOccurrence | lamcp/sources/met/mapper.py:117 | `str.replace` leaves a string without the pattern unchanged |
| Text.DecimalRoundTrip | lamcp/sources/met/mapper.py:137 | `str` of an integer reads back as that integer |
| PrimaryNames.NameEntries | lamcp/notebook.py:60-61 | Only entries of type Name are candidates |
| PrimaryNames.ScanNames | lamcp/notebook.py:59-67 | The scan returns a primary Name taken from the input, or a pool of Name entries from the input |
| PrimaryNames.Insert | lamcp/notebook.py:69 | One insertion step of the sort adds exactly the new entry (multiset) |
| PrimaryNames.SortByLanguageCount | lamcp/notebook.py:69 | The sort is a permutation of the candidates |
| PrimaryNames.InsertDescending | lamcp/notebook.py:69 | Insertion keeps the candidates in descending language count |
| PrimaryNames.SortIsDescending | lamcp/notebook.py:69 | The sorted candidates are in descending language count |
| PrimaryNames.SortedHead | lamcp/notebook.py:69-70 | The head of the stable descending sort is the first candidate with the most languages |
| PrimaryNames.FirstPrimaryWins | lamcp/notebook.py:64-65 | The first Name classified as primary is returned, whatever comes after it |
| PrimaryNames.ScanWithoutPrimary | lamcp/notebook.py:59-67 | Without a primary Name, the pool is every Name entry, in order |
| PrimaryNames.MostLanguagesWins | lamcp/notebook.py:69-70 | Without a primary Name: no Name gives None; otherwise the first Name with the most languages is chosen |
| PrimaryNames.EquivalentId | lamcp/notebook.py:62-63 | No `equivalent` key reads as a null id; an empty `equivalent` raises IndexError, a first entry without `id` KeyError; otherwise the first entry's id |
| PrimaryNames.ScanWithoutNames | lamcp/notebook.py:59-67 | The scan ends with an empty pool, without raising, iff no entry has type Name |
| PrimaryNames.PrimaryNameOf | lamcp/notebook.py:58-70 | None iff no entry has type Name; any chosen entry is a Name entry of the input |
| PrimaryNames.ChosenIsName | lamcp/notebook.py:58-70 | Any chosen entry is one of the names and has type Name |
| PrimaryNames.GetPrimaryName | lamcp/notebook.py:58-70 | The loop with its early return computes the specified choice |
| References.LocalForm | lamcp/notebook.py:94-95 | An http identifier is cut to its last segment, which has no "/"; any other identifier is kept unchanged |
| References.LocalFormIdempotent | lamcp/notebook.py:94-95 | Cutting twice gives what cutting once gave |
| References.LocalFormOfUri | lamcp/notebook.py:94-95 | `base/local` with an http base becomes `local` |
| References.FetchRecord | lamcp/notebook.py:73-90 | An unknown dataset raises ValueError before any fetch |
| References.MakeSimpleReference | lamcp/notebook.py:93-103 | None iff the mapper gave nothing. A fetched record gives a reference exactly when it has `identified_by` and a primary name with content: the id is the local form, the type the record's type, the name that content. No `identified_by` raises KeyError; no Name raises TypeError; a chosen name without content raises KeyError; fetch and name-lookup errors propagate |
| References.NamelessRecordRaises | lamcp/notebook.py:101-102 | A fetched record whose `identified_by` holds no Name raises TypeError |
| References.RefOf | lamcp/notebook.py:116 | Indexing `[0]` succeeds iff a reference was made, and yields it; a missing reference raises TypeError |
| References.SpellingsAgree | lamcp/notebook.py:93-96 | A full URI and its last segment give the same reference |
| References.UnknownDatasetRaises | lamcp/notebook.py:76-77 | Every reference into an unknown dataset raises ValueError |
| RecordSpec.Contained | lamcp/notebook.py:111-118 | A try/continue loop keeps at most one reference per entry |
| RecordSpec.ContainedFromEntries | lamcp/notebook.py:113-118 | Every kept reference is the reference of some entry |
| RecordSpec.ContainedAppend | lamcp/notebook.py:139-145 | The loop over a concatenation is the two loops in sequence |
| RecordSpec.ContainedAroundEntry | lamcp/notebook.py:142-145 | A raising entry is skipped without trace; a resolving one is kept in its place |
| RecordSpec.ContainedWithoutFailures | lamcp/notebook.py:257-263 | When nothing raises, the loop equals the plain comprehension |
| RecordSpec.PartOfField | lamcp/notebook.py:139-152 | `part_of` is present iff `part_of` or `broader` is; `part_of` takes precedence |
| RecordSpec.KeptDescriptions | lamcp/notebook.py:119-135 | At most one description per statement, each from a statement in English or without a language, with the same content |
| RecordSpec.EnglishStatements | lamcp/notebook.py:121-125 | The statements the loop does not skip, in order: each is in the input and is in English or names no language |
| RecordSpec.DescriptionOfCases | lamcp/notebook.py:122-135 | One statement raises iff its language ids cannot be read or it is in English without content; it is skipped iff it names languages without English; otherwise it is described by its content and classifications |
| RecordSpec.KeptDescriptionsInOrder | lamcp/notebook.py:119-135 | Without an exception, the i-th description is built from the i-th English or language-free statement, and there is one per such statement |
| RecordSpec.KeptDescriptionsRaiseAt | lamcp/notebook.py:121-126 | The loop raises the exception of the first statement that fails |
| RecordSpec.KeptDescriptionsSucceed | lamcp/notebook.py:121-135 | When no statement fails, the loop does not raise |
| RecordSpec.DescriptionsOf | lamcp/notebook.py:136-138 | The descriptions are the first five kept, or all of them when there are fewer than five |
| RecordSpec.PlaceOf | lamcp/notebook.py:159-160 | A place key is present iff the event has `took_place_at`, and is the first entry's reference; an empty list raises IndexError; a failing first entry raises its exception |
| RecordSpec.RefsField | lamcp/notebook.py:179-181 | A comprehension over a key that may be absent: present iff the key is, one reference per entry in order; raises iff some entry raises |
| RecordSpec.PersonFieldsOf | lamcp/notebook.py:153-167 | Birth and death dates are the events' `begin_of_the_begin` only (absent without a timespan); birth and death places are the first `took_place_at` entry; raises iff a place lookup raises |
| RecordSpec.GroupFieldsOf | lamcp/notebook.py:168-195 | Founding and dissolution dates are `begin_of_the_begin`; places are the first `took_place_at`; the founders resolve every formation actor in order; the dissolver is the first dissolution actor |
| RecordSpec.FounderIsEveryActor | lamcp/notebook.py:178-181 | The founder list resolves every actor of the formation, in order |
| RecordSpec.DissolverIsFirstActor | lamcp/notebook.py:192-195 | Only the first actor of a dissolution is looked at |
| RecordSpec.LastPartWins | lamcp/notebook.py:211-215 | After the parts loop, `who` holds the actors of the last part that has any |
| RecordSpec.CreatorOf | lamcp/notebook.py:209-219 | With production actors, the creator list starts with them, resolved in order; without actors or parts there is no creator; a creator taken from parts alone is never empty; a failing production actor raises |
| RecordSpec.CreatorIsProductionThenLastPart | lamcp/notebook.py:209-219 | When every actor resolves, the creators are the production's actors followed by those of the last part that has any; without production actors, only that part's actors, and no creator when they are empty too |
| RecordSpec.CreatorsOfProductionAndPart | lamcp/notebook.py:209-219 | A production by A with one part by B has creators [A, B] |
| RecordSpec.PartsIgnored | lamcp/notebook.py:232-236 | An encounter's parts loop yields the encounter's own actors, whatever the parts say |
| RecordSpec.Encounter | lamcp/notebook.py:223-240 | One encounter sets the date to its `begin_of_the_begin`, else its `end_of_the_end`, and keeps the earlier date when it has neither; a place or actors overwrite the earlier ones; without a place the earlier place stays, and without actors or parts the earlier discoverer stays |
| RecordSpec.PartsWithoutActors | lamcp/notebook.py:232-240 | An encounter with parts but no actors still writes the discoverer: the earlier list, or an empty one when none was written |
| RecordSpec.Encounters | lamcp/notebook.py:221-240 | No encounter with a place leaves the place; none with a timespan leaves the date; none with actors or parts leaves the discoverer |
| RecordSpec.EncountersAppend | lamcp/notebook.py:221-240 | The encounters loop reads the encounters first to last |
| RecordSpec.LastEncounterDecidesDiscoverer | lamcp/notebook.py:230-231 | A last encounter with actors and no parts replaces the discoverer with its own actors |
| RecordSpec.PartsRepeatDiscoverer | lamcp/notebook.py:230-240 | An encounter with actors and parts lists its actors twice |
| RecordSpec.DerivedOf | lamcp/notebook.py:153-255 | The type-specific keys match the record's type: Person, Group, HumanMadeObject or a work |
| RecordSpec.WorkFieldsOf | lamcp/notebook.py:249-255 | `about` and `represents` are present iff the record has them, one resolved reference per entry in order; raises iff one of them raises |
| RecordSpec.ObjectFieldsOf | lamcp/notebook.py:196-247 | creationDate is the production's `begin_of_the_begin`, else its `end_of_the_end`; creationPlace is the first `took_place_at`; material resolves every `made_of` entry in order; `carries`/`shows` are present iff the record has them; no encounters leave no discovery keys; a failing place or material raises |
| RecordSpec.EmbedField | lamcp/notebook.py:244-247 | Present iff the key is, one entry per element |
| RecordSpec.EmbedAll | lamcp/notebook.py:245 | One embedded record per element; an element without `id` raises KeyError; at the nesting bound a non-empty list raises |
| RecordSpec.EmbeddedOnePerEntry | lamcp/notebook.py:244-247 | `carries`/`shows` hold one embedded record per entry, each flattened from the entry's id; an entry without id raises KeyError |
| RecordSpec.SimpleRecordOf | lamcp/notebook.py:106-110 | When the record's own reference raises, the exception is swallowed and the result is None |
| RecordSpec.FlattenRecord | lamcp/notebook.py:111-265 | The flattened record carries the given reference, the keys of the record's type, and descriptions iff `referred_to_by`, at most five |
| RecordSpec.SimpleRecordShape | lamcp/notebook.py:106-265 | None iff the record cannot be referenced; otherwise the record has the reference, keys of its type, descriptions iff `referred_to_by`, at most five |
| RecordSpec.RecordSpellingsAgree | lamcp/notebook.py:106-108 | Flattening a full URI and its last segment give the same record |
| RecordSpec.SameReferenceSameRecord | lamcp/notebook.py:106-108 | Two URIs with the same top-level reference and record flatten to the same record |
| Notebook.ResolveContained | lamcp/notebook.py:113-118 | The loop computes the specified kept references |
| Notebook.ResolveContainedField | lamcp/notebook.py:111-118 | The same for a key that may be absent |
| Notebook.CollectDescriptions | lamcp/notebook.py:119-138 | The loop and the cut compute the specified descriptions, or the exception that escapes |
| Notebook.KeepDescriptions | lamcp/notebook.py:121-135 | The loop over the statements collects exactly the specified English descriptions, or the exception that escapes |
| Notebook.LastPartActors | lamcp/notebook.py:211-215 | The parts loop computes the specified `who` |
| Notebook.CollectCreator | lamcp/notebook.py:209-219 | The creator logic computes the specified creator list |
| Notebook.OwnActorsPerPart | lamcp/notebook.py:232-236 | The encounter's parts loop computes the specified actors |
| Notebook.CollectDiscovery | lamcp/notebook.py:221-240 | The encounters loop computes the specified date, place and discoverer |
| Notebook.DeriveObjectFields | lamcp/notebook.py:201-247 | The HumanMadeObject branch computes the specified keys |
| Notebook.DeriveFields | lamcp/notebook.py:153-255 | The dispatch on the type computes the specified keys |
| Notebook.MakeSimpleRecord | lamcp/notebook.py:106-265 | The whole procedure computes the specified flattened record |
| MetMapper.Canonicalize | lamcp/sources/met/mapper.py:115-123 | Raises IndexError iff a non-Getty Wikidata link has no "/". A Getty link is `replace("/page", "")` of itself. A Wikidata link becomes the entity URI of a "/"-free final segment. A link that is neither Getty nor Wikidata is unchanged |
| MetMapper.GettyPageStripped | lamcp/sources/met/mapper.py:116-117 | A Getty link loses its first "/page" and the rest is rewritten the same way, so every later "/page" goes too; with no later one the rest is kept |
| MetMapper.WikidataPageToEntity | lamcp/sources/met/mapper.py:118-121 | A Wikidata page link `.../Q` becomes `http://www.wikidata.org/entity/Q` |
| MetMapper.ClassOf | lamcp/sources/met/mapper.py:132-133 | Painting iff the classification key is "Painting", Coin iff "Coins", else HumanMadeObject |
| MetMapper.PaintingsIsPlainObject | lamcp/sources/met/mapper.py:132-133 | An object classified "Paintings" with object name "Painting", as in the sample record, is a plain HumanMadeObject; without the classification key it would be a Painting |
| MetMapper.NotesOf | lamcp/sources/met/mapper.py:141-146 | One statement for each non-empty medium, dimensions and credit line, in that order and nothing else |
| MetMapper.SizesOf | lamcp/sources/met/mapper.py:152-157 | Each non-zero height, width and depth becomes a dimension of that kind with that value, in the order height, width, depth; a missing or zero size gives none |
| MetMapper.InCentimetres | lamcp/sources/met/mapper.py:158-159 | Every dimension so far gets the unit cm, nothing else changes |
| MetMapper.MeasureWithoutOverall | lamcp/sources/met/mapper.py:150-159 | Without an Overall measurement element the dimensions are left as they were and no size is collected |
| MetMapper.MeasureCollectsOverall | lamcp/sources/met/mapper.py:150-159 | The measurements loop collects exactly the sizes of the Overall elements, in order, all in cm |
| MetMapper.DimensionsInCentimetres | lamcp/sources/met/mapper.py:150-159 | Every dimension of the object is in cm, and they are the Overall sizes in order |
| MetMapper.SpanOf | lamcp/sources/met/mapper.py:176-192 | A timespan exists iff a date key is present. Each bound comes from its own key, or from the result of `make_datetime(True)` when the display date is the only key. The display name is attached iff the display date key is present |
| MetMapper.EquivalentOf | lamcp/sources/met/mapper.py:162-163 | `equivalent` exists iff the Wikidata link is non-empty, and is its canonical form |
| MetMapper.LinkedTags | lamcp/sources/met/mapper.py:222-226 | The tags that count are those with a link |
| MetMapper.SubjectsPerLinkedTag | lamcp/sources/met/mapper.py:220-227 | One subject per linked tag, in order: the link canonicalized (AAT before Wikidata), labelled with the term |
| MetMapper.SubjectsRaiseIff | lamcp/sources/met/mapper.py:222-227 | The tags raise iff some linked tag fails to canonicalize or has no term |
| MetMapper.MappedIdentity | lamcp/sources/met/mapper.py:130-137 | The id is the namespace plus the identifier, and the identifier reads back as the objectID. The identifiers are title, accession number and object number. The source is "met" |
| MetMapper.ProductionPresence | lamcp/sources/met/mapper.py:195-213 | `produced_by` exists iff there is an artist name or a date key; a period alone is dropped |
| MetMapper.ArtistOf | lamcp/sources/met/mapper.py:195-204 | No artist iff the name is empty. The id is the ULAN link canonicalized when that link is not empty, else the Wikidata link canonicalized; no id when the ULAN link is empty and the Wikidata key absent; raises iff the chosen link fails to canonicalize |
| MetMapper.ProductionOf | lamcp/sources/met/mapper.py:172-213 | Present iff there is an artist name or a date key; it carries the artist, the period iff not empty, and a timespan iff a date key is present |
| MetMapper.SubjectsOf | lamcp/sources/met/mapper.py:222-227 | At most one subject per tag |
| MetMapper.ShownOf | lamcp/sources/met/mapper.py:220-228 | The visual item is present iff the record has `tags`, with id `vi/` plus the object id and the tags' subjects; raises iff the subjects raise |
| MetMapper.MapObject | lamcp/sources/met/mapper.py:125-231 | Raises iff the equivalent, the artist or the subjects raise. The label is the title and the class the classification's; representation iff a primary image; location iff a gallery number; `shows` iff tags; `equivalent` iff a Wikidata link |
| MetMapper.UlanPreferred | lamcp/sources/met/mapper.py:195-204 | A ULAN link wins over a Wikidata link for the artist id |
| MetMapper.Transform | lamcp/sources/met/mapper.py:125-231 | The step-by-step transform computes the specified mapped object, or the exception it raises |
| MetMapper.CollectNotes | lamcp/sources/met/mapper.py:141-146 | The three `if`s compute the specified statements |
| MetMapper.CollectShown | lamcp/sources/met/mapper.py:220-228 | The visual item exists iff the record has tags, with the specified subjects |
| MetMapper.MeasureAll | lamcp/sources/met/mapper.py:150-159 | The measurements loop computes the specified dimensions |
| MetMapper.SetCentimetres | lamcp/sources/met/mapper.py:158-159 | The inner loop gives every dimension the unit cm |
| MetMapper.CollectSubjects | lamcp/sources/met/mapper.py:222-227 | The tags loop computes the specified subjects |
| WikidataSearch.IdsOf | lamcp/sources/wikidata/searcher.py:15-16 | One id per hit, in hit order |
| WikidataSearch.Dedup | lamcp/sources/wikidata/searcher.py:14-18 | The keys hold no duplicates, exactly the hit ids, and no more of them than hits |
| WikidataSearch.DedupKeepsFirstOccurrenceOrder | lamcp/sources/wikidata/searcher.py:16-18 | Keys are ordered by first occurrence among the hits |
| WikidataSearch.Results | lamcp/sources/wikidata/searcher.py:11-18 | A status other than 200 raises with that status, and a hit without id raises |
| WikidataSearch.ResultsAreDistinctHitIds | lamcp/sources/wikidata/searcher.py:14-18 | Every hit id is in the results, every result is a hit id, none twice, at most one per hit |
| WikidataSearch.Search | lamcp/sources/wikidata/searcher.py:14-18 | The dictionary loop computes the specified results |
| GettySearch.ConceptClass | lamcp/sources/getty/searcher.py:32 | Person, Group and Place map to their gvp concept class; any other type raises KeyError |
| GettySearch.QueryTextParts | lamcp/sources/getty/searcher.py:33 | The term sits unescaped right after the opening quote, and the query ends with the class |
| GettySearch.QueryTextInjective | lamcp/sources/getty/searcher.py:33 | Different terms give different queries |
| GettySearch.Results | lamcp/sources/getty/searcher.py:30-42 | An unknown type raises KeyError; a known type succeeds iff every binding has a subject value, and KeyError is the only exception; every result is the subject value of a binding of the answer |
| GettySearch.UnknownTypeRaisesBeforeRequest | lamcp/sources/getty/searcher.py:32-38 | An unknown type raises KeyError whatever the endpoint would answer |
| GettySearch.ResultsPerBinding | lamcp/sources/getty/searcher.py:39-42 | One result per binding, its subject value, in binding order |
| GettySearch.SampleAnswer | lamcp/sources/getty/searcher.py:10-23 | The sample answer yields seven ULAN URIs, 500019484 first |
| GettySearch.Search | lamcp/sources/getty/searcher.py:30-42 | Lookup, request and loop compute the specified results |
| GettySearch.Subjects | lamcp/sources/getty/searcher.py:39-41 | The bindings loop is the comprehension over subject values |
| LuxSearch.ScopeAndQuery | lamcp/sources/lux/searcher.py:13-21 | Succeeds iff the type is Person, Group or Place, and raises UnboundLocalError otherwise. Person and Group go to the agent scope with a record type; Place is exactly the place scope with `AND[name(term)]`. Every query names the term |
| LuxSearch.Results | lamcp/sources/lux/searcher.py:12-36 | An unknown type raises UnboundLocalError; a known type succeeds iff the status is 200 and every item has an id; every result is the id of an item of the answer |
| LuxSearch.PersonAndGroupDifferInRecordType | lamcp/sources/lux/searcher.py:13-18 | Person and Group queries differ only in record type "person"/"group" |
| LuxSearch.UnknownTypeRaises | lamcp/sources/lux/searcher.py:13-24 | An unknown type fails whatever the service would answer |
| LuxSearch.ResultsFromAnswer | lamcp/sources/lux/searcher.py:29-36 | A non-200 status raises with that status; a 200 answer succeeds iff every item has an id, yielding one id per item in order, and otherwise raises KeyError |
| LuxSearch.Search | lamcp/sources/lux/searcher.py:12-36 | Dispatch, request and loop compute the specified results |
| LuxSearch.ItemIds | lamcp/sources/lux/searcher.py:31-32 | The items loop is the comprehension over item ids |

## Left out

- Network I/O and the collaborators. The dataset fetchers and mappers, the HTTP requests and the SPARQL endpoint are parameters, so no cache is modelled. `print` calls are dropped.
- The FastAPI/MCP server plumbing.
- `do_basic_name_search`. It reads an undefined `res` and calls `make_simple_record` with the wrong number of arguments, so it has no behaviour to model.
- `ENGLISH` is not defined in `lamcp/notebook.py`. There, reading a statement that names languages raises NameError. The model takes the English language id as the parameter `english`.
- RecordSpec.SimpleRecordOf: Python's recursion limit for `carries`/`shows` is replaced by the `depth` parameter. At depth 0 a nested record raises DepthExceeded.
- The carries/shows comprehension (`lamcp/notebook.py:244-247`) is modelled by the function `EmbedAll`; there is no loop method for it.
- JSON `null` values are not modelled: a key with a null value is treated as an absent key.
- An empty mapped record is treated like any other record. Python's `not rec` would also treat it as missing.
- Unexpected JSON shapes are not modelled: keys of the wrong type, and mandatory keys missing from a Met object or a service answer (`objectID`, `results.bindings`, `orderedItems` and the like). The same holds for Linked Art records: `type` is mandatory on a record and on each `identified_by` entry, although a missing `type` raises KeyError at `lamcp/notebook.py:61`, `:101` and `:153`.
- Failing requests are not modelled. The services are total functions, so a request that raises, or `resp.json()` on a body that is not JSON (`lamcp/sources/lux/searcher.py:30`, `lamcp/sources/getty/searcher.py:38`), has no counterpart.
- Every service and every dataset source is a function: asking for the same id twice gives the same answer. The code asks twice for the same actors, for example at `lamcp/notebook.py:231` and `:236`, and the model does not capture answers that change between the two requests.
- MetMapper.MapObject: `make_datetime` is a parameter. It is called with the boolean `True`, and its result is `Some((begin, end))`, or `None` when it raises.
- MetMapper.MapObject: the cromulent objects are abstracted to their ids, labels and kinds. The JSON serialization by `model.factory.toJSON` is not modelled. Neither are the contents of the representation image (only whether it exists) or the equivalent's label.
- MetMapper.MeasureAll: reading an unset `dimension` list is assumed to give an empty list.
- LuxSearch: the JSON and URL encoding of the query is not modelled; the service receives the scope URL and the query structure.
- The Wikidata request URL, built in the base searcher, is not modelled; the answer is a parameter.
- `lamcp/sources/base/mapper.py`, the Pleiades searcher, the Met fetcher, harvester and searcher, the Getty fetcher, and the configuration in `lamcp/sources/__init__.py` (represented only by the `Registry` map) are not part of this model.
- `discoverer` is overwritten by each encounter that has actors. No coordinates are added to places, and records are not cached.
