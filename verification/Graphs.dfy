/** Finite directed graphs: paths, reachability, and the depth-first search that
    cuts at a node on its own stack. */
module Graphs {
  type Graph<N> = map<N, seq<N>>

  predicate Edge<N(==)>(g: Graph<N>, a: N, b: N) {
    a in g && b in g[a]
  }

  predicate IsPath<N(==)>(g: Graph<N>, path: seq<N>, a: N, b: N) {
    && path != [] && path[0] == a && path[|path| - 1] == b
    && forall i :: 0 <= i < |path| - 1 ==> Edge(g, path[i], path[i + 1])
  }

  ghost predicate Reaches<N(!new)>(g: Graph<N>, a: N, b: N) {
    exists path :: IsPath(g, path, a, b)
  }

  /** A walk of at least one edge from `a` back to itself. */
  ghost predicate OnCycle<N(!new)>(g: Graph<N>, a: N) {
    exists b :: Edge(g, a, b) && Reaches(g, b, a)
  }

  lemma ReachesItself<N(!new)>(g: Graph<N>, a: N)
    ensures Reaches(g, a, a)
  {
    assert IsPath(g, [a], a, a);
  }

  /** Reachability composes. */
  lemma ReachesOn<N(!new)>(g: Graph<N>, a: N, b: N, c: N)
    requires Reaches(g, a, b) && Reaches(g, b, c)
    ensures Reaches(g, a, c)
  {
    var p :| IsPath(g, p, a, b);
    var q :| IsPath(g, q, b, c);
    var r := p + q[1..];
    forall i | 0 <= i < |r| - 1
      ensures Edge(g, r[i], r[i + 1])
    {
      if i + 1 < |p| {
        assert Edge(g, p[i], p[i + 1]);
      } else {
        assert Edge(g, q[i - |p| + 1], q[i - |p| + 2]);
      }
    }
    assert IsPath(g, r, a, c);
  }

  lemma ReachesNext<N(!new)>(g: Graph<N>, a: N, s: N, d: N)
    requires Reaches(g, a, s) && Edge(g, s, d)
    ensures Reaches(g, a, d)
  {
    assert IsPath(g, [s, d], s, d);
    ReachesOn(g, a, s, d);
  }

  lemma ReachesFrom<N(!new)>(g: Graph<N>, s: N, d: N, b: N)
    requires Edge(g, s, d) && Reaches(g, d, b)
    ensures Reaches(g, s, b)
  {
    assert IsPath(g, [s, d], s, d);
    ReachesOn(g, s, d, b);
  }

  lemma PathSuffix<N(!new)>(g: Graph<N>, path: seq<N>, a: N, b: N, k: nat)
    requires IsPath(g, path, a, b) && k < |path|
    ensures IsPath(g, path[k..], path[k], b)
  {
    forall i | 0 <= i < |path[k..]| - 1
      ensures Edge(g, path[k..][i], path[k..][i + 1])
    {
      assert Edge(g, path[k + i], path[k + i + 1]);
    }
  }

  /** The first step of a longer path. */
  lemma FirstStep<N(!new)>(g: Graph<N>, a: N, b: N)
    requires Reaches(g, a, b) && a != b
    ensures exists c :: Edge(g, a, c) && Reaches(g, c, b)
  {
    var p :| IsPath(g, p, a, b);
    PathSuffix(g, p, a, b, 1);
    assert Edge(g, p[0], p[1]);
  }

  predicate NoRepeats<N(==)>(path: seq<N>) {
    forall i, j :: 0 <= i < j < |path| ==> path[i] != path[j]
  }

  /** Cutting the loops out of a path. */
  lemma {:induction false} SimplePath<N(!new)>(g: Graph<N>, path: seq<N>, a: N, b: N) returns (simple: seq<N>)
    requires IsPath(g, path, a, b)
    ensures IsPath(g, simple, a, b) && NoRepeats(simple)
    decreases |path|
  {
    if |path| == 1 {
      return path;
    }
    PathSuffix(g, path, a, b, 1);
    assert Edge(g, path[0], path[1]);
    var rest := SimplePath(g, path[1..], path[1], b);
    if k :| 0 <= k < |rest| && rest[k] == a {
      PathSuffix(g, rest, path[1], b, k);
      simple := rest[k..];
    } else {
      simple := [a] + rest;
      forall i | 0 <= i < |simple| - 1
        ensures Edge(g, simple[i], simple[i + 1])
      {
        if i > 0 {
          assert Edge(g, rest[i - 1], rest[i]);
        }
      }
    }
  }

  // ---------------------------------------------------------------- the cut search

  /** What a node contributes by itself. */
  function Own<N, F>(own: map<N, set<F>>, n: N): set<F> { if n in own then own[n] else {} }

  /** Contributions below `n`, stopping at nodes on the stack. */
  function Gather<N, F>(g: Graph<N>, own: map<N, set<F>>, active: set<N>, n: N): set<F>
    decreases g.Keys - active, 1
  {
    if n in active then {}
    else if n !in g then Own(own, n)
    else Own(own, n) + GatherAll(g, own, active + {n}, g[n])
  }

  function GatherAll<N, F>(g: Graph<N>, own: map<N, set<F>>, active: set<N>, ns: seq<N>): set<F>
    decreases g.Keys - active, 2, |ns|
  {
    if ns == [] then {} else Gather(g, own, active, ns[0]) + GatherAll(g, own, active, ns[1..])
  }

  lemma {:induction false} GatherEach<N, F>(g: Graph<N>, own: map<N, set<F>>, active: set<N>, ns: seq<N>, n: N)
    requires n in ns
    ensures Gather(g, own, active, n) <= GatherAll(g, own, active, ns)
    decreases |ns|
  {
    if ns[0] != n {
      GatherEach(g, own, active, ns[1..], n);
    }
  }

  /** A path that avoids the stack is seen to its end. */
  lemma {:induction false} GatherAlong<N(!new), F>(g: Graph<N>, own: map<N, set<F>>, active: set<N>, path: seq<N>, a: N, b: N)
    requires IsPath(g, path, a, b) && NoRepeats(path)
    requires forall i :: 0 <= i < |path| ==> path[i] !in active
    ensures Own(own, b) <= Gather(g, own, active, a)
    decreases |path|
  {
    if |path| > 1 {
      PathSuffix(g, path, a, b, 1);
      assert Edge(g, path[0], path[1]);
      GatherAlong(g, own, active + {a}, path[1..], path[1], b);
      GatherEach(g, own, active + {a}, g[a], path[1]);
    }
  }

  lemma {:induction false} GatheredIsReached<N(!new), F(!new)>(g: Graph<N>, own: map<N, set<F>>, active: set<N>, n: N, f: F)
    requires f in Gather(g, own, active, n)
    ensures exists u :: Reaches(g, n, u) && f in Own(own, u)
    decreases g.Keys - active, 1
  {
    ReachesItself(g, n);
    if f !in Own(own, n) {
      var c := GatheredBelow(g, own, active + {n}, g[n], f);
      var u :| Reaches(g, c, u) && f in Own(own, u);
      ReachesFrom(g, n, c, u);
    }
  }

  lemma {:induction false} GatheredBelow<N(!new), F(!new)>(g: Graph<N>, own: map<N, set<F>>, active: set<N>, ns: seq<N>, f: F)
    returns (c: N)
    requires f in GatherAll(g, own, active, ns)
    ensures c in ns && exists u :: Reaches(g, c, u) && f in Own(own, u)
    decreases g.Keys - active, 2, |ns|
  {
    if f in Gather(g, own, active, ns[0]) {
      GatheredIsReached(g, own, active, ns[0], f);
      c := ns[0];
    } else {
      c := GatheredBelow(g, own, active, ns[1..], f);
    }
  }

  /** Cutting at the stack loses nothing: the search from the empty stack finds
      exactly what the reachable nodes contribute. */
  lemma GatherIsReachability<N(!new), F(!new)>(g: Graph<N>, own: map<N, set<F>>, n: N, f: F)
    ensures f in Gather(g, own, {}, n) <==> exists u :: Reaches(g, n, u) && f in Own(own, u)
  {
    if f in Gather(g, own, {}, n) {
      GatheredIsReached(g, own, {}, n, f);
    }
    if u :| Reaches(g, n, u) && f in Own(own, u) {
      var p :| IsPath(g, p, n, u);
      var simple := SimplePath(g, p, n, u);
      GatherAlong(g, own, {}, simple, n, u);
    }
  }
}
