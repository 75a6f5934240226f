/**
 * `LuxSearcher.search`: the entity type chooses the LUX search scope and the
 * structure of the query; the answer's `orderedItems` give the result ids.
 * The HTTP request is a parameter: a function from the scope URL and the
 * query structure to the status and the items. The JSON and URL encoding of
 * the query between them are not modelled.
 */
module LuxSearch {
  import opened Outcomes

  const Endpoint := "https://lux.collections.yale.edu/api/search/"

  /** One conjunct of the query: `{"recordType": ...}` or `{"name": ...}`. */
  datatype Term = RecordType(recordType: string) | Name(name: string)

  /** `{"AND": [...]}` */
  datatype Query = And(terms: seq<Term>)

  /** One element of `orderedItems`; `None` when it has no `id`. */
  datatype Item = Item(id: Option<string>)

  datatype Answer = Answer(status: int, orderedItems: seq<Item>)

  /** The LUX search service, as the scope URL and query it is sent and what it answers. */
  type Lux = (string, Query) -> Answer

  /**
   * The dispatch on the entity type: people and groups are searched in the
   * agent scope with their record type, places in the place scope by name.
   * Any other type leaves `q` and `qurl` unassigned, and reading them raises
   * UnboundLocalError.
   */
  function ScopeAndQuery(term: string, entityType: string): (r: Outcome<(string, Query)>)
    ensures r.Ok? <==> entityType in {"Person", "Group", "Place"}
    ensures r.Raised? ==> r.error == UnboundLocalError
    ensures r.Ok? ==> Name(term) in r.value.1.terms && |r.value.1.terms| <= 2
    ensures r.Ok? ==> (r.value.0 == Endpoint + "agent?" <==> entityType != "Place")
    ensures r.Ok? ==> (r.value.0 == Endpoint + "place?" <==> entityType == "Place")
    ensures r.Ok? ==> (r.value.1.terms[0].RecordType? <==> entityType != "Place")
    ensures entityType == "Place" ==> r == Ok((Endpoint + "place?", And([Name(term)])))
  {
    assert Endpoint + "agent?" != Endpoint + "place?" by {
      assert (Endpoint + "agent?")[|Endpoint|] == 'a' && (Endpoint + "place?")[|Endpoint|] == 'p';
    }
    if entityType == "Person" then Ok((Endpoint + "agent?", And([RecordType("person"), Name(term)])))
    else if entityType == "Group" then Ok((Endpoint + "agent?", And([RecordType("group"), Name(term)])))
    else if entityType == "Place" then Ok((Endpoint + "place?", And([Name(term)])))
    else Raised(UnboundLocalError)
  }

  function IdOf(item: Item): Outcome<string> {
    if item.id.None? then Raised(KeyError) else Ok(item.id.value)
  }

  /** `search(query, lang, entity_type)`: dispatch, request, then the ids or the failed status. */
  function Results(lux: Lux, term: string, entityType: string): (r: Outcome<seq<string>>)
    ensures entityType !in {"Person", "Group", "Place"} ==> r == Raised(UnboundLocalError)
    ensures entityType in {"Person", "Group", "Place"} ==>
      var (url, q) := ScopeAndQuery(term, entityType).value;
      var answer := lux(url, q);
      && (r.Ok? <==> answer.status == 200 && forall k :: 0 <= k < |answer.orderedItems| ==> answer.orderedItems[k].id.Some?)
      && (answer.status == 200 && r.Raised? ==> r.error == KeyError)
    ensures r.Ok? ==>
      var (url, q) := ScopeAndQuery(term, entityType).value;
      forall k :: 0 <= k < |r.value| ==> Item(Some(r.value[k])) in lux(url, q).orderedItems
  {
    var (url, q) :- ScopeAndQuery(term, entityType);
    var answer := lux(url, q);
    if answer.status == 200 then MapAll(IdOf, answer.orderedItems)
    else Raised(RequestFailed(answer.status))
  }

  /** An unknown entity type fails before any request, whatever the service would answer. */
  lemma UnknownTypeRaises(l1: Lux, l2: Lux, term: string, entityType: string)
    requires entityType !in {"Person", "Group", "Place"}
    ensures Results(l1, term, entityType) == Results(l2, term, entityType) == Raised(UnboundLocalError)
  {
  }

  /**
   * For a known type, a status other than 200 raises with that status; a
   * 200 answer succeeds iff every item has an id, and then yields the ids in
   * order, one per item; otherwise it raises KeyError.
   */
  lemma ResultsFromAnswer(lux: Lux, term: string, entityType: string)
    requires entityType in {"Person", "Group", "Place"}
    ensures var (url, q) := ScopeAndQuery(term, entityType).value;
      var answer := lux(url, q);
      var r := Results(lux, term, entityType);
      && (answer.status != 200 ==> r == Raised(RequestFailed(answer.status)))
      && (answer.status == 200 ==>
            (r.Ok? <==> forall k :: 0 <= k < |answer.orderedItems| ==> answer.orderedItems[k].id.Some?))
      && (answer.status == 200 && r.Raised? ==> r.error == KeyError)
      && (answer.status == 200 && r.Ok? ==>
            |r.value| == |answer.orderedItems|
            && forall k :: 0 <= k < |r.value| ==> answer.orderedItems[k].id == Some(r.value[k]))
  {
  }

  /** A Person search and a Group search send the same name to the same scope and differ only in the record type. */
  lemma PersonAndGroupDifferInRecordType(term: string)
    ensures var p := ScopeAndQuery(term, "Person").value;
      var g := ScopeAndQuery(term, "Group").value;
      && p.0 == g.0
      && |p.1.terms| == |g.1.terms| == 2
      && p.1.terms[1] == g.1.terms[1] == Name(term)
      && p.1.terms[0] == RecordType("person") && g.1.terms[0] == RecordType("group")
  {
  }

  /** The method as the source runs it. */
  method Search(lux: Lux, term: string, entityType: string) returns (r: Outcome<seq<string>>)
    ensures r == Results(lux, term, entityType)
  {
    var target := ScopeAndQuery(term, entityType);
    if target.Raised? {
      return Raised(target.error);
    }
    var (url, q) := target.value;
    var answer := lux(url, q);
    if answer.status != 200 {
      return Raised(RequestFailed(answer.status));
    }
    r := ItemIds(answer.orderedItems);
  }

  /** The loop that appends each item's id. */
  method ItemIds(items: seq<Item>) returns (r: Outcome<seq<string>>)
    ensures r == MapAll(IdOf, items)
  {
    var recs: seq<string> := [];
    var i := 0;
    while i < |items|
      invariant 0 <= i <= |items|
      invariant |recs| == i && forall k :: 0 <= k < i ==> items[k].id == Some(recs[k])
    {
      if items[i].id.None? {
        return Raised(KeyError);
      }
      recs := recs + [items[i].id.value];
      i := i + 1;
    }
    assert forall k :: 0 <= k < |items| ==> IdOf(items[k]) == Ok(recs[k]);
    assert MapAll(IdOf, items).value == recs;
    return Ok(recs);
  }
}
