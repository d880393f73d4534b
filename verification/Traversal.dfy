/** Partial maps over sequences. */
module Traversal {
  import opened Wrappers

  /** Applies `f` to every element; fails if it fails on any. */
  function Traverse<A, B>(f: A -> Option<B>, xs: seq<A>): (r: Option<seq<B>>)
    ensures r.Some? ==> |r.value| == |xs|
    ensures r.Some? ==> forall i :: 0 <= i < |xs| ==> f(xs[i]) == Some(r.value[i])
  {
    if xs == [] then Some([])
    else
      var y :- f(xs[0]);
      var ys :- Traverse(f, xs[1..]);
      Some([y] + ys)
  }

  function Map<A, B>(f: A -> B, xs: seq<A>): (r: seq<B>)
    ensures |r| == |xs|
    ensures forall i :: 0 <= i < |xs| ==> r[i] == f(xs[i])
  {
    seq(|xs|, i requires 0 <= i < |xs| => f(xs[i]))
  }

  lemma {:induction false} TraverseTo<A, B>(f: A -> Option<B>, xs: seq<A>, ys: seq<B>)
    requires |xs| == |ys|
    requires forall i :: 0 <= i < |xs| ==> f(xs[i]) == Some(ys[i])
    ensures Traverse(f, xs) == Some(ys)
  {
    if xs != [] {
      TraverseTo(f, xs[1..], ys[1..]);
      assert [ys[0]] + ys[1..] == ys;
    }
  }
}
