/**
 * The shape of the converter's converting loops (checklist items,
 * attachments, label references, note files): walk a list in order, convert
 * each element knowing its 0-based position, append what it gives, and
 * abandon the whole walk at the first element that fails (Python raising out
 * of the loop). The label search and the label-file loop have other shapes
 * and are modelled in module Tags.
 */
module Traversal {
  import opened Wrappers

  /** Converts every element of `xs` with `f`, in order; the first failure wins. */
  function Traverse<A, B, E>(f: (nat, A) -> Result<B, E>, xs: seq<A>): Result<seq<B>, E>
    decreases |xs|
  {
    if xs == [] then Success([])
    else
      var done :- Traverse(f, xs[..|xs| - 1]);
      var last :- f(|xs| - 1, xs[|xs| - 1]);
      Success(done + [last])
  }

  /** Element `k` is the first one that `f` fails on. */
  predicate FailsFirstAt<A, B, E>(f: (nat, A) -> Result<B, E>, xs: seq<A>, k: nat)
  {
    && k < |xs|
    && f(k, xs[k]).Failure?
    && forall i :: 0 <= i < k ==> f(i, xs[i]).Success?
  }

  /**
   * The walk succeeds exactly when every element converts, and then it gives
   * one result per element, in order: result `i` is the conversion of
   * element `i` at position `i`.
   */
  lemma {:induction false} TraverseSuccess<A, B, E>(f: (nat, A) -> Result<B, E>, xs: seq<A>)
    ensures Traverse(f, xs).Success? <==> forall i :: 0 <= i < |xs| ==> f(i, xs[i]).Success?
    ensures Traverse(f, xs).Success? ==>
              && |Traverse(f, xs).value| == |xs|
              && forall i :: 0 <= i < |xs| ==> Traverse(f, xs).value[i] == f(i, xs[i]).value
    decreases |xs|
  {
    if xs != [] {
      var init := xs[..|xs| - 1];
      TraverseSuccess(f, init);
      assert forall i :: 0 <= i < |init| ==> init[i] == xs[i];
    }
  }

  /** A failed walk reports the error of the first element that fails. */
  lemma {:induction false} TraverseFirstFailure<A, B, E>(f: (nat, A) -> Result<B, E>, xs: seq<A>)
    requires Traverse(f, xs).Failure?
    ensures exists k: nat :: FailsFirstAt(f, xs, k) && f(k, xs[k]).error == Traverse(f, xs).error
    decreases |xs|
  {
    var init := xs[..|xs| - 1];
    assert forall i :: 0 <= i < |init| ==> init[i] == xs[i];
    if Traverse(f, init).Failure? {
      TraverseFirstFailure(f, init);
      var k: nat :| FailsFirstAt(f, init, k) && f(k, init[k]).error == Traverse(f, init).error;
      assert FailsFirstAt(f, xs, k);
    } else {
      TraverseSuccess(f, init);
      assert FailsFirstAt(f, xs, |xs| - 1);
    }
  }

  /** Once a prefix of the list fails, the walk over the whole list fails the same way. */
  lemma {:induction false} TraversePrefixFailure<A, B, E>(f: (nat, A) -> Result<B, E>, xs: seq<A>, n: nat)
    requires n <= |xs|
    requires Traverse(f, xs[..n]).Failure?
    ensures Traverse(f, xs) == Traverse(f, xs[..n])
    decreases |xs|
  {
    if n < |xs| {
      var init := xs[..|xs| - 1];
      assert init[..n] == xs[..n];
      TraversePrefixFailure(f, init, n);
    } else {
      assert xs[..n] == xs;
    }
  }

  /**
   * One more step of a walk whose prefix succeeded: the longer prefix
   * succeeds with one more result exactly when the next element converts,
   * and otherwise fails with that element's error.
   */
  lemma TraverseStep<A, B, E>(f: (nat, A) -> Result<B, E>, xs: seq<A>, i: nat, done: seq<B>)
    requires i < |xs|
    requires Traverse(f, xs[..i]) == Success(done)
    ensures f(i, xs[i]).Success? ==> Traverse(f, xs[..i + 1]) == Success(done + [f(i, xs[i]).value])
    ensures f(i, xs[i]).Failure? ==> Traverse(f, xs[..i + 1]) == Failure(f(i, xs[i]).error)
  {
    assert xs[..i + 1][..i] == xs[..i];
  }

  /** The lists of `xss` joined end to end, in order (Python's repeated `extend`). */
  function Flatten<T>(xss: seq<seq<T>>): seq<T>
    decreases |xss|
  {
    if xss == [] then [] else Flatten(xss[..|xss| - 1]) + xss[|xss| - 1]
  }

  /** Something is in the joined list exactly when it is in one of the lists joined. */
  lemma {:induction false} FlattenMember<T>(xss: seq<seq<T>>, x: T)
    ensures x in Flatten(xss) <==> exists i :: 0 <= i < |xss| && x in xss[i]
    decreases |xss|
  {
    if xss != [] {
      var init := xss[..|xss| - 1];
      FlattenMember(init, x);
      assert forall i :: 0 <= i < |init| ==> init[i] == xss[i];
    }
  }
}
