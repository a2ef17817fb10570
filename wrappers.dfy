/** Option and Result, the failure-compatible wrappers the rest of the model uses. */
module Wrappers {

  /** A Ruby value that may be `nil`. */
  datatype Option<+T> = None | Some(value: T)

  /** A computation that either gives a value or raises `error`. */
  datatype Result<+T, +E> = Ok(value: T) | Err(error: E) {
    predicate IsFailure() {
      Err?
    }

    function PropagateFailure<U>(): Result<U, E>
      requires Err?
    {
      Err(error)
    }

    function Extract(): T
      requires Ok?
    {
      value
    }
  }

  /**
   * Evaluating a list of computations in order, as `map` does with a block
   * that may raise: all the values, or the first error.
   */
  function AllOk<T, E>(rs: seq<Result<T, E>>): Result<seq<T>, E> {
    if |rs| == 0 then Ok([])
    else
      match rs[0]
      case Err(e) => Err(e)
      case Ok(first) =>
        match AllOk(rs[1..])
        case Err(e) => Err(e)
        case Ok(rest) => Ok([first] + rest)
  }

  /**
   * `AllOk` succeeds exactly when every computation does, and then holds
   * their values in order; otherwise it holds the error of the first one
   * that failed.
   */
  lemma {:induction false} AllOkMeaning<T, E>(rs: seq<Result<T, E>>)
    ensures AllOk(rs).Ok? <==> forall i :: 0 <= i < |rs| ==> rs[i].Ok?
    ensures AllOk(rs).Ok? ==> |AllOk(rs).value| == |rs| && forall i :: 0 <= i < |rs| ==> rs[i] == Ok(AllOk(rs).value[i])
    ensures AllOk(rs).Err? ==> exists i :: 0 <= i < |rs| && rs[i] == Err(AllOk(rs).error) && forall j :: 0 <= j < i ==> rs[j].Ok?
  {
    if |rs| != 0 {
      AllOkMeaning(rs[1..]);
      assert forall i :: 1 <= i < |rs| ==> rs[i] == rs[1..][i - 1];
      match rs[0]
      case Err(e) =>
        assert rs[0] == Err(AllOk(rs).error);
      case Ok(first) =>
        match AllOk(rs[1..])
        case Err(e) =>
          var k :| 0 <= k < |rs[1..]| && rs[1..][k] == Err(e) && forall j :: 0 <= j < k ==> rs[1..][j].Ok?;
          assert rs[k + 1] == Err(e);
        case Ok(rest) =>
          assert forall i :: 1 <= i < |rs| ==> ([first] + rest)[i] == rest[i - 1];
    }
  }

  /** `xs.map(&f)`. */
  function Map<A, B>(f: A -> B, xs: seq<A>): (r: seq<B>)
    ensures |r| == |xs|
  {
    seq(|xs|, i requires 0 <= i < |xs| => f(xs[i]))
  }

  /** Mapping the elements from `k` on maps element `k`, then the rest. */
  lemma MapSplit<A, B>(f: A -> B, xs: seq<A>, k: int)
    requires 0 <= k < |xs|
    ensures Map(f, xs[k..]) == [f(xs[k])] + Map(f, xs[k + 1..])
  {
    var m := Map(f, xs[k..]);
    assert forall i :: 0 <= i < |m| ==> m[i] == f(xs[k + i]);
  }

  /** Mapping one more element appends its image. */
  lemma MapAppend<A, B>(f: A -> B, xs: seq<A>, x: A)
    ensures Map(f, xs + [x]) == Map(f, xs) + [f(x)]
  {
    var m := Map(f, xs + [x]);
    assert forall i :: 0 <= i < |xs| ==> m[i] == f(xs[i]);
  }
}
