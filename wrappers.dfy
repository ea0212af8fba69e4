/** Option and Result, the two failure-compatible wrappers the catalog model uses. */
module Wrappers {

  datatype Option<+T> = None | Some(value: T)

  /** Success carries a value; Failure carries the error that aborted the computation. */
  datatype Result<+R, +E> = Success(value: R) | Failure(error: E) {

    predicate IsFailure() {
      Failure?
    }

    function PropagateFailure<U>(): Result<U, E>
      requires Failure?
    {
      Failure(error)
    }

    function Extract(): R
      requires Success?
    {
      value
    }
  }

  /** Index `i` holds the first element on which `f` fails. */
  ghost predicate FirstFailureAt<A, B, E>(xs: seq<A>, f: A -> Result<B, E>, i: int) {
    0 <= i < |xs| && f(xs[i]).Failure? && forall j :: 0 <= j < i ==> f(xs[j]).Success?
  }

  /**
   * A loop that applies `f` to each element in turn and stops at the first
   * exception: all results, or the error of the first element that fails.
   */
  function MapResult<A, B, E>(xs: seq<A>, f: A -> Result<B, E>): (r: Result<seq<B>, E>)
    ensures r.Success? <==> forall i :: 0 <= i < |xs| ==> f(xs[i]).Success?
    ensures r.Success? ==> |r.value| == |xs| && forall i :: 0 <= i < |xs| ==> r.value[i] == f(xs[i]).value
    ensures r.Failure? ==> exists i :: FirstFailureAt(xs, f, i) && f(xs[i]).error == r.error
  {
    if xs == [] then Success([])
    else
      var init := xs[..|xs| - 1];
      assert forall i :: 0 <= i < |init| ==> init[i] == xs[i];
      match MapResult(init, f)
      case Failure(e) =>
        assert forall i :: FirstFailureAt(init, f, i) ==> FirstFailureAt(xs, f, i);
        Failure(e)
      case Success(done) =>
        match f(xs[|xs| - 1])
        case Failure(e) =>
          assert FirstFailureAt(xs, f, |xs| - 1);
          Failure(e)
        case Success(y) => Success(done + [y])
  }

  /** Once a prefix fails, the whole list fails with the same error. */
  lemma {:induction false} MapResultPrefixFailure<A, B, E>(xs: seq<A>, f: A -> Result<B, E>, n: nat)
    requires n <= |xs| && MapResult(xs[..n], f).Failure?
    ensures MapResult(xs, f) == MapResult(xs[..n], f)
    decreases |xs| - n
  {
    if n < |xs| {
      assert xs[..n + 1][..n] == xs[..n];
      MapResultPrefixFailure(xs, f, n + 1);
    } else {
      assert xs[..n] == xs;
    }
  }

  /** One more element: the loop either appends its value or stops at it with its error. */
  lemma MapResultStep<A, B, E>(xs: seq<A>, f: A -> Result<B, E>, i: nat, done: seq<B>)
    requires i < |xs| && MapResult(xs[..i], f) == Success(done)
    ensures f(xs[i]).Success? ==> MapResult(xs[..i + 1], f) == Success(done + [f(xs[i]).value])
    ensures f(xs[i]).Failure? ==>
              && MapResult(xs, f) == Failure(f(xs[i]).error)
              && FirstFailureAt(xs, f, i)
              && forall j :: 0 <= j < i ==> f(xs[j]) == Success(done[j])
  {
    assert xs[..i + 1][..i] == xs[..i];
    assert xs[..i + 1][i] == xs[i];
    assert forall j :: 0 <= j < i ==> xs[..i][j] == xs[j];
    if f(xs[i]).Failure? {
      MapResultPrefixFailure(xs, f, i + 1);
    }
  }
}
