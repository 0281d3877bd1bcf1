/** Option and Result, the failure-carrying values used throughout the model. */
module Wrappers {

  datatype Option<+T> = None | Some(value: T) {
    function GetOr(default: T): T {
      match this
      case Some(v) => v
      case None => default
    }
  }

  /** A Python exception that the source lets escape (an AttributeError or a
      TypeError raised on a value of an unexpected type). */
  datatype PyError = AttributeError(what: string) | TypeError(what: string)

  datatype Result<+R> = Success(value: R) | Failure(error: PyError)

  lemma AppendAssoc<T>(a: seq<T>, b: seq<T>, c: seq<T>)
    ensures (a + b) + c == a + (b + c)
  {
  }

  /** A Python loop that applies `f` to each element in order and raises
      at the first element it fails on. */
  function MapAll<T, U>(f: T -> Result<U>, xs: seq<T>): Result<seq<U>> {
    if xs == [] then Success([])
    else
      match MapAll(f, xs[..|xs| - 1])
      case Failure(e) => Failure(e)
      case Success(ys) =>
        match f(xs[|xs| - 1])
        case Failure(e) => Failure(e)
        case Success(y) => Success(ys + [y])
  }

  /** The loop succeeds exactly when `f` succeeds on every element, and
      then gives `f`'s value for each element, in order. */
  lemma {:induction false} MapAllSpec<T, U>(f: T -> Result<U>, xs: seq<T>)
    ensures MapAll(f, xs).Success? <==> forall k :: 0 <= k < |xs| ==> f(xs[k]).Success?
    ensures MapAll(f, xs).Success? ==>
              |MapAll(f, xs).value| == |xs|
              && forall k :: 0 <= k < |xs| ==> MapAll(f, xs).value[k] == f(xs[k]).value
  {
    if xs != [] {
      var init := xs[..|xs| - 1];
      MapAllSpec(f, init);
      assert forall k :: 0 <= k < |init| ==> init[k] == xs[k];
    }
  }

  /** Once the loop has failed on a prefix, it fails the same way on the
      whole sequence. */
  lemma {:induction false} MapAllFails<T, U>(f: T -> Result<U>, xs: seq<T>, i: nat)
    requires i <= |xs| && MapAll(f, xs[..i]).Failure?
    ensures MapAll(f, xs) == MapAll(f, xs[..i])
    decreases |xs| - i
  {
    if i < |xs| {
      assert xs[..i + 1][..i] == xs[..i];
      MapAllFails(f, xs, i + 1);
    } else {
      assert xs[..i] == xs;
    }
  }

  /** A Python loop that updates a state `s` with each element in order and
      raises at the first element it fails on. */
  function FoldAll<S, T>(f: (S, T) -> Result<S>, s: S, xs: seq<T>): Result<S> {
    if xs == [] then Success(s)
    else
      match FoldAll(f, s, xs[..|xs| - 1])
      case Failure(e) => Failure(e)
      case Success(s') => f(s', xs[|xs| - 1])
  }

  /** Once the loop has failed on a prefix, it fails the same way on the
      whole sequence. */
  lemma {:induction false} FoldAllFails<S, T>(f: (S, T) -> Result<S>, s: S, xs: seq<T>, i: nat)
    requires i <= |xs| && FoldAll(f, s, xs[..i]).Failure?
    ensures FoldAll(f, s, xs) == FoldAll(f, s, xs[..i])
    decreases |xs| - i
  {
    if i < |xs| {
      assert xs[..i + 1][..i] == xs[..i];
      FoldAllFails(f, s, xs, i + 1);
    } else {
      assert xs[..i] == xs;
    }
  }
}
