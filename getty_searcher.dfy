/**
 * `GettySearcher.search`: a SPARQL full-text query for one kind of Getty
 * concept, and the subject URIs of the bindings it returns. The SPARQL
 * service is a parameter: a function from the query text to the bindings.
 */
module GettySearch {
  import opened Outcomes

  /** One element of `results.bindings`; `None` when it has no `subject.value`. */
  datatype Binding = Binding(subjectValue: Option<string>)

  /** The SPARQL endpoint, as the query text it is sent and the bindings it answers. */
  type Sparql = string -> seq<Binding>

  /** The `ets` table: the Getty concept class searched for each entity type. */
  function ConceptClass(entityType: string): (r: Outcome<string>)
    ensures r.Ok? <==> entityType in {"Person", "Group", "Place"}
    ensures r.Raised? ==> r.error == KeyError
    ensures r.Ok? ==> r.value == "gvp:" + entityType + "Concept"
  {
    if entityType == "Person" then Ok("gvp:PersonConcept")
    else if entityType == "Group" then Ok("gvp:GroupConcept")
    else if entityType == "Place" then Ok("gvp:PlaceConcept")
    else Raised(KeyError)
  }

  const QueryHead := "SELECT ?subject WHERE { ?subject luc:term \""
  const QueryMiddle := "\" ; a "
  const QueryTail := " . }"

  /** The query text: the term is put between the quotes as it is, without escaping. */
  function QueryText(term: string, cls: string): string {
    QueryHead + term + QueryMiddle + cls + QueryTail
  }

  /** The term sits right after the opening quote, and the text ends with the class. */
  lemma QueryTextParts(term: string, cls: string)
    ensures var q := QueryText(term, cls);
      && q[..|QueryHead|] == QueryHead
      && q[|QueryHead|..|QueryHead| + |term|] == term
      && q[|q| - |cls| - |QueryTail|..] == cls + QueryTail
  {
    var q := QueryText(term, cls);
    assert q == QueryHead + (term + (QueryMiddle + cls + QueryTail));
    assert q == (QueryHead + term + QueryMiddle) + (cls + QueryTail);
  }

  /** Different terms give different queries for the same class. */
  lemma QueryTextInjective(t1: string, t2: string, cls: string)
    requires QueryText(t1, cls) == QueryText(t2, cls)
    ensures t1 == t2
  {
    QueryTextParts(t1, cls);
    QueryTextParts(t2, cls);
  }

  function SubjectOf(b: Binding): Outcome<string> {
    if b.subjectValue.None? then Raised(KeyError) else Ok(b.subjectValue.value)
  }

  /** `search(query, lang, entity_type)`: the class lookup comes first, then the request. */
  function Results(sparql: Sparql, term: string, entityType: string): (r: Outcome<seq<string>>)
    ensures entityType !in {"Person", "Group", "Place"} ==> r == Raised(KeyError)
    ensures r.Raised? ==> r.error == KeyError
    ensures entityType in {"Person", "Group", "Place"} ==>
      var bindings := sparql(QueryText(term, ConceptClass(entityType).value));
      r.Ok? <==> forall k :: 0 <= k < |bindings| ==> bindings[k].subjectValue.Some?
    ensures r.Ok? ==> forall k :: 0 <= k < |r.value| ==>
      Binding(Some(r.value[k])) in sparql(QueryText(term, ConceptClass(entityType).value))
  {
    var cls :- ConceptClass(entityType);
    MapAll(SubjectOf, sparql(QueryText(term, cls)))
  }

  /** An entity type outside the table raises KeyError whatever the endpoint would answer. */
  lemma UnknownTypeRaisesBeforeRequest(s1: Sparql, s2: Sparql, term: string, entityType: string)
    requires entityType !in {"Person", "Group", "Place"}
    ensures Results(s1, term, entityType) == Results(s2, term, entityType) == Raised(KeyError)
  {
  }

  /** The results are the bindings' subject URIs, one per binding, in binding order. */
  lemma ResultsPerBinding(sparql: Sparql, term: string, entityType: string)
    requires Results(sparql, term, entityType).Ok?
    ensures var bindings := sparql(QueryText(term, ConceptClass(entityType).value));
      var r := Results(sparql, term, entityType).value;
      |r| == |bindings| && forall k :: 0 <= k < |r| ==> bindings[k].subjectValue == Some(r[k])
  {
  }

  /** The bindings of the sample answer kept next to the searcher: seven ULAN agents. */
  const SampleBindings := [
    Binding(Some("http://vocab.getty.edu/ulan/500019484")),
    Binding(Some("http://vocab.getty.edu/ulan/500191427")),
    Binding(Some("http://vocab.getty.edu/ulan/500110191")),
    Binding(Some("http://vocab.getty.edu/ulan/500341121")),
    Binding(Some("http://vocab.getty.edu/ulan/500003469")),
    Binding(Some("http://vocab.getty.edu/ulan/500122137")),
    Binding(Some("http://vocab.getty.edu/ulan/500016714"))]

  /** A Person search answered with the sample yields its seven URIs, 500019484 first. */
  lemma SampleAnswer(sparql: Sparql, term: string)
    requires sparql(QueryText(term, "gvp:PersonConcept")) == SampleBindings
    ensures var r := Results(sparql, term, "Person");
      && r.Ok? && |r.value| == 7
      && r.value[0] == "http://vocab.getty.edu/ulan/500019484"
      && r.value[6] == "http://vocab.getty.edu/ulan/500016714"
  {
    assert forall k :: 0 <= k < 7 ==> SubjectOf(SampleBindings[k]).Ok?;
  }

  /** The method as the source runs it: lookup, request, then the loop over the bindings. */
  method Search(sparql: Sparql, term: string, entityType: string) returns (r: Outcome<seq<string>>)
    ensures r == Results(sparql, term, entityType)
  {
    var cls := ConceptClass(entityType);
    if cls.Raised? {
      return Raised(cls.error);
    }
    var bindings := sparql(QueryText(term, cls.value));
    r := Subjects(bindings);
  }

  /** The loop over the answer's bindings, appending each subject URI; a binding without one raises KeyError. */
  method Subjects(bindings: seq<Binding>) returns (r: Outcome<seq<string>>)
    ensures r == MapAll(SubjectOf, bindings)
  {
    var results: seq<string> := [];
    var i := 0;
    while i < |bindings|
      invariant 0 <= i <= |bindings|
      invariant |results| == i && forall k :: 0 <= k < i ==> bindings[k].subjectValue == Some(results[k])
    {
      if bindings[i].subjectValue.None? {
        return Raised(KeyError);
      }
      results := results + [bindings[i].subjectValue.value];
      i := i + 1;
    }
    assert forall k :: 0 <= k < |bindings| ==> SubjectOf(bindings[k]) == Ok(results[k]);
    assert MapAll(SubjectOf, bindings).value == results;
    return Ok(results);
  }
}
