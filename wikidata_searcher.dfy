/**
 * `WikidataSearcher.search`: the entity search answer is reduced to the ids
 * of its hits, each id once, in the order in which it first occurs. The HTTP
 * request itself is a parameter: the answer's status and its `search` list.
 */
module WikidataSearch {
  import opened Outcomes

  /** One element of the answer's `search` list; `None` when it has no `id`. */
  datatype Hit = Hit(id: Option<string>)

  /** The status of the request and, on 200, the decoded `search` list. */
  datatype Answer = Answer(status: int, search: seq<Hit>)

  predicate AllIdentified(hits: seq<Hit>) {
    forall k :: 0 <= k < |hits| ==> hits[k].id.Some?
  }

  /** The ids of the hits, in hit order. */
  function IdsOf(hits: seq<Hit>): (ids: seq<string>)
    requires AllIdentified(hits)
    ensures |ids| == |hits| && forall k :: 0 <= k < |hits| ==> hits[k].id == Some(ids[k])
  {
    seq(|hits|, k requires 0 <= k < |hits| && hits[k].id.Some? => hits[k].id.value)
  }

  /**
   * The keys of the `ids` dictionary after the loop: each element is added
   * when it is not yet a key, so keys keep their first insertion order.
   */
  function Dedup(xs: seq<string>): (d: seq<string>)
    ensures |d| <= |xs|
    ensures forall x :: x in d <==> x in xs
    ensures forall i, j :: 0 <= i < j < |d| ==> d[i] != d[j]
  {
    if xs == [] then []
    else
      var d := Dedup(xs[..|xs| - 1]);
      assert forall x :: x in xs <==> x in xs[..|xs| - 1] || x == xs[|xs| - 1] by {
        assert xs == xs[..|xs| - 1] + [xs[|xs| - 1]];
      }
      if xs[|xs| - 1] in d then d else d + [xs[|xs| - 1]]
  }

  /**
   * The keys are in order of first occurrence: a key listed before another
   * occurs among the hits before every occurrence of the other.
   */
  lemma {:induction false} DedupKeepsFirstOccurrenceOrder(xs: seq<string>, i: int, j: int, q: int)
    requires 0 <= i < j < |Dedup(xs)| && 0 <= q < |xs| && xs[q] == Dedup(xs)[j]
    ensures Dedup(xs)[i] in xs[..q]
  {
    var n := |xs| - 1;
    var front := xs[..n];
    var d := Dedup(front);
    assert xs == front + [xs[n]];
    if q < n {
      assert front[q] == xs[q];
      if j < |d| {
        assert Dedup(xs)[i] == d[i] && Dedup(xs)[j] == d[j];
        DedupKeepsFirstOccurrenceOrder(front, i, j, q);
        assert front[..q] == xs[..q];
      } else {
        // xs[q] would be the key added last, yet it already occurs in front
        assert false;
      }
    } else {
      assert q == n;
      if j < |d| {
        assert Dedup(xs) == d;
        assert Dedup(xs)[i] in front;
      } else {
        assert Dedup(xs)[i] == d[i];
        assert Dedup(xs)[i] in front;
      }
      assert xs[..q] == front;
    }
  }

  /** `search`: a status other than 200 raises; a hit without `id` raises KeyError. */
  function Results(answer: Answer): (r: Outcome<seq<string>>)
    ensures r.Raised? <==> answer.status != 200 || !AllIdentified(answer.search)
    ensures answer.status != 200 ==> r == Raised(RequestFailed(answer.status))
  {
    if answer.status != 200 then Raised(RequestFailed(answer.status))
    else if !AllIdentified(answer.search) then Raised(KeyError)
    else Ok(Dedup(IdsOf(answer.search)))
  }

  /**
   * With a 200 answer whose hits all have ids, the results are the hit ids
   * without repetition: every hit id is listed once and nothing else is.
   */
  lemma ResultsAreDistinctHitIds(answer: Answer)
    requires Results(answer).Ok?
    ensures var ids := Results(answer).value;
      && |ids| <= |answer.search|
      && (forall k :: 0 <= k < |answer.search| ==> answer.search[k].id.value in ids)
      && (forall x :: x in ids ==> exists k :: 0 <= k < |answer.search| && answer.search[k].id == Some(x))
      && (forall i, j :: 0 <= i < j < |ids| ==> ids[i] != ids[j])
  {
    var xs := IdsOf(answer.search);
    forall k | 0 <= k < |answer.search|
      ensures answer.search[k].id.value in Results(answer).value
    {
      assert xs[k] in xs;
    }
    forall x | x in Results(answer).value
      ensures exists k :: 0 <= k < |answer.search| && answer.search[k].id == Some(x)
    {
      var k :| 0 <= k < |xs| && xs[k] == x;
      assert answer.search[k].id == Some(x);
    }
  }

  /** The loop that fills the `ids` dictionary, modelled by its keys in insertion order. */
  method Search(answer: Answer) returns (r: Outcome<seq<string>>)
    ensures r == Results(answer)
  {
    if answer.status != 200 {
      return Raised(RequestFailed(answer.status));
    }
    var hits := answer.search;
    var ids: seq<string> := [];
    var i := 0;
    while i < |hits|
      invariant 0 <= i <= |hits|
      invariant AllIdentified(hits[..i]) && ids == Dedup(IdsOf(hits[..i]))
    {
      var hit := hits[i];
      if hit.id.None? {
        assert !AllIdentified(hits);
        return Raised(KeyError);
      }
      assert hits[..i + 1] == hits[..i] + [hit];
      assert IdsOf(hits[..i + 1])[..i] == IdsOf(hits[..i]);
      if hit.id.value !in ids {
        ids := ids + [hit.id.value];
      }
      i := i + 1;
    }
    assert hits[..i] == hits;
    return Ok(ids);
  }
}
