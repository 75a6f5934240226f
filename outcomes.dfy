/**
 * Values and failures shared by every module: an Option for JSON keys that
 * may be absent, and an Outcome that is either a value or the Python
 * exception the modelled code raises.
 */
module Outcomes {

  /** A JSON key that may be absent (`None`) or present with a value. */
  datatype Option<+T> = None | Some(value: T) {
    /** `d.get(key, default)` */
    function GetOr(default: T): T {
      match this
      case Some(v) => v
      case None => default
    }
  }

  /**
   * What the modelled Python code raises. The first five are the Python
   * classes of those names. The other three are not Python classes:
   * RequestFailed is the bare `Exception` a searcher raises with the status
   * in its message, CollaboratorError stands for whatever a dataset's
   * fetcher or mapper raises, and DepthExceeded ends the nesting bound that
   * stands in for Python's recursion limit.
   */
  datatype Exception =
    | ValueError              // unknown dataset name
    | KeyError                // `d["k"]` on a dict without key "k"
    | IndexError              // `xs[0]` on an empty list, `parts[1]` after a split that found nothing
    | TypeError               // indexing or unpacking `None`
    | UnboundLocalError       // a local read before any branch assigned it
    | RequestFailed(status: int)  // an HTTP answer whose status is not 200
    | CollaboratorError       // anything a dataset's fetcher or mapper raises
    | DepthExceeded           // the nesting bound of embedded records is exhausted

  /** A Python call: it returns a value or raises. Usable with `:-`. */
  datatype Outcome<+T> = Ok(value: T) | Raised(error: Exception) {
    predicate IsFailure() {
      Raised?
    }

    function PropagateFailure<U>(): Outcome<U>
      requires Raised?
    {
      Raised(error)
    }

    function Extract(): T
      requires Ok?
    {
      value
    }
  }

  /**
   * `[f(x) for x in xs]`: the values of `f` in order, or the exception of the
   * first element whose `f` raises.
   */
  function MapAll<X, Y>(f: X -> Outcome<Y>, xs: seq<X>): (r: Outcome<seq<Y>>)
    ensures r.Ok? <==> forall i :: 0 <= i < |xs| ==> f(xs[i]).Ok?
    ensures r.Ok? ==> |r.value| == |xs| && forall i :: 0 <= i < |xs| ==> r.value[i] == f(xs[i]).value
    ensures r.Raised? ==>
      exists i :: 0 <= i < |xs| && f(xs[i]) == Raised(r.error) && forall j :: 0 <= j < i ==> f(xs[j]).Ok?
  {
    if xs == [] then Ok([])
    else
      var first :- f(xs[0]);
      var rest := MapAll(f, xs[1..]);
      assert forall i :: 1 <= i < |xs| ==> xs[i] == xs[1..][i - 1];
      if rest.Raised? then
        var i :| 0 <= i < |xs[1..]| && f(xs[1..][i]) == Raised(rest.error) && forall j :: 0 <= j < i ==> f(xs[1..][j]).Ok?;
        assert f(xs[i + 1]) == Raised(rest.error);
        Raised(rest.error)
      else
        Ok([first] + rest.value)
  }

  /** The comprehension over one element. */
  lemma MapAllSingle<X, Y>(f: X -> Outcome<Y>, x: X)
    ensures MapAll(f, [x]) == if f(x).Ok? then Ok([f(x).value]) else Raised(f(x).error)
  {
    assert [x][0] == x;
    if f(x).Ok? {
      assert MapAll(f, [x]).value == [f(x).value];
    }
  }

  /** Values already produced, put in front of what the rest of a loop produces. */
  function Prepend<T>(done: seq<T>, rest: Outcome<seq<T>>): Outcome<seq<T>>
  {
    match rest
    case Ok(more) => Ok(done + more)
    case Raised(e) => rest
  }

  /** Before the first turn of a loop nothing has been produced. */
  lemma PrependNothing<T>(rest: Outcome<seq<T>>)
    ensures Prepend([], rest) == rest
  {
    if rest.Ok? {
      AppendNothing(rest.value);
    }
  }

  /** The empty sequence is neutral on either side. */
  lemma AppendNothing<T>(s: seq<T>)
    ensures s + [] == s && [] + s == s
  {
    var nothing: seq<T> := [];
    assert s + nothing == s && nothing + s == s;
  }

  /** A turn that produces `one` moves it from the rest of the loop to what is done. */
  lemma PrependStep<T>(done: seq<T>, one: T, rest: Outcome<seq<T>>)
    ensures Prepend(done, Prepend([one], rest)) == Prepend(done + [one], rest)
  {
    if rest.Ok? {
      assert done + ([one] + rest.value) == (done + [one]) + rest.value;
    }
  }
}
