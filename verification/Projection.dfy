/** The order in which bound symbols are written out: a depth-first visit that
    cuts cycles at a symbol already being visited. Functions and types are
    ordered by the same walk over their own graphs. */
module Projection {
  import opened Graphs

  type Symbol = string

  datatype Binding = Binding(symbol: Symbol, name: string)

  /** Of the dependencies only those that are bound are followed. */
  function Followed(deps: map<Symbol, seq<Symbol>>, bound: set<Symbol>): (g: Graph<Symbol>)
    ensures forall s, d :: Edge(g, s, d) <==> s in deps && d in deps[s] && d in bound
  {
    map s | s in deps :: Kept(deps[s], bound)
  }

  function Kept(ds: seq<Symbol>, bound: set<Symbol>): (r: seq<Symbol>)
    ensures forall d :: d in r <==> d in ds && d in bound
  {
    if ds == [] then [] else (if ds[0] in bound then [ds[0]] else []) + Kept(ds[1..], bound)
  }

  // ---------------------------------------------------------------- what the order promises

  function Symbols(order: seq<Binding>): (r: seq<Symbol>)
    ensures |r| == |order|
  {
    seq(|order|, i requires 0 <= i < |order| => order[i].symbol)
  }

  function Bound(bindings: seq<Binding>): set<Symbol> {
    set b | b in bindings :: b.symbol
  }

  /** Every listed symbol comes after each bound dependency that does not lead
      back to it. */
  ghost predicate DependenciesFirst(g: Graph<Symbol>, order: seq<Symbol>) {
    forall k, d :: 0 <= k < |order| && Edge(g, order[k], d) && !Reaches(g, d, order[k]) ==> d in order[..k]
  }

  /** Without cycles the order is topological along whole paths. */
  lemma {:induction false} AcyclicOrder(g: Graph<Symbol>, order: seq<Symbol>, path: seq<Symbol>, i: nat, j: nat)
    requires DependenciesFirst(g, order) && NoRepeats(order)
    requires forall s, d :: Edge(g, s, d) ==> !Reaches(g, d, s)
    requires i < |order| && j < |order| && IsPath(g, path, order[i], order[j]) && |path| > 1
    ensures j < i
    decreases |path|
  {
    assert Edge(g, path[0], path[1]);
    var k :| 0 <= k < i && order[k] == path[1];
    if |path| == 2 {
      assert order[k] == order[j];
    } else {
      PathSuffix(g, path, order[i], order[j], 1);
      AcyclicOrder(g, order, path[1..], k, j);
    }
  }

  // ---------------------------------------------------------------- the walk

  class Walk {
    const deps: map<Symbol, seq<Symbol>>
    const bindings: map<Symbol, Binding>
    var visiting: set<Symbol>
    var visited: set<Symbol>
    var ordered: seq<Binding>

    constructor (deps: map<Symbol, seq<Symbol>>, bindings: map<Symbol, Binding>)
      requires forall s :: s in bindings ==> bindings[s].symbol == s
      ensures this.deps == deps && this.bindings == bindings
      ensures visiting == {} && visited == {} && ordered == [] && Valid()
    {
      this.deps := deps;
      this.bindings := bindings;
      visiting, visited, ordered := {}, {}, [];
    }

    ghost function G(): Graph<Symbol> { Followed(deps, bindings.Keys) }

    ghost predicate Valid()
      reads this
    {
      && (forall s :: s in bindings ==> bindings[s].symbol == s)
      && visiting <= bindings.Keys
      && visiting !! visited
      && (forall b :: b in ordered ==> b.symbol in bindings && bindings[b.symbol] == b)
      && (set s | s in Symbols(ordered)) == visited
      && NoRepeats(Symbols(ordered))
      && DependenciesFirst(G(), Symbols(ordered))
    }

    /** Visits `s` and what it depends on. Everything being visited leads to `s`. */
    method Visit(s: Symbol)
      requires Valid() && s in bindings
      requires forall v :: v in visiting ==> Reaches(G(), v, s)
      modifies this
      ensures Valid()
      ensures visiting == old(visiting)
      ensures old(ordered) <= ordered && old(visited) <= visited
      ensures s in visited || s in visiting
      decreases bindings.Keys - visiting, 0
    {
      if s in visited {
        return;
      }
      if s in visiting {
        return;
      }
      visiting := visiting + {s};
      ReachesItself(G(), s);
      if s in deps {
        VisitDependencies(s);
      } else {
        assert forall d :: !Edge(G(), s, d);
      }
      visiting := visiting - {s};
      assert visiting == old(visiting);
      if s !in visited {
        visited := visited + {s};
        Listed(s);
        ordered := ordered + [bindings[s]];
      }
    }

    /** Afterwards each bound dependency is listed or leads back to `s`. */
    method VisitDependencies(s: Symbol)
      requires Valid() && s in visiting && s in deps
      requires forall v :: v in visiting ==> Reaches(G(), v, s)
      modifies this
      ensures Valid()
      ensures visiting == old(visiting)
      ensures old(ordered) <= ordered && old(visited) <= visited
      ensures forall d :: Edge(G(), s, d) ==> d in visited || Reaches(G(), d, s)
      decreases bindings.Keys - visiting, 1
    {
      var i := 0;
      while i < |deps[s]|
        invariant 0 <= i <= |deps[s]|
        invariant Valid() && visiting == old(visiting)
        invariant old(ordered) <= ordered && old(visited) <= visited
        invariant forall k :: 0 <= k < i && deps[s][k] in bindings ==> deps[s][k] in visited || deps[s][k] in visiting
      {
        var d := deps[s][i];
        if d in bindings {
          forall v | v in visiting
            ensures Reaches(G(), v, d)
          {
            ReachesNext(G(), v, s, d);
          }
          Visit(d);
        }
        i := i + 1;
      }
    }

    /** Appending `s` keeps the order lawful once its dependencies are settled. */
    lemma Listed(s: Symbol)
      requires s in bindings && bindings[s].symbol == s && s !in Symbols(ordered)
      requires NoRepeats(Symbols(ordered)) && DependenciesFirst(G(), Symbols(ordered))
      requires forall d :: Edge(G(), s, d) ==> d in Symbols(ordered) || Reaches(G(), d, s)
      ensures var order := Symbols(ordered + [bindings[s]]);
              && order == Symbols(ordered) + [s]
              && (set t | t in order) == (set t | t in Symbols(ordered)) + {s}
              && NoRepeats(order) && DependenciesFirst(G(), order)
    {
      var before := Symbols(ordered);
      var order := Symbols(ordered + [bindings[s]]);
      assert order == before + [s];
      forall k, d | 0 <= k < |order| && Edge(G(), order[k], d) && !Reaches(G(), d, order[k])
        ensures d in order[..k]
      {
        if k < |before| {
          assert order[..k] == before[..k];
        } else {
          assert order[..k] == before;
        }
      }
    }
  }

  /** The binding used for a symbol is the last one listed for it. */
  method BySymbol(bindings: seq<Binding>) returns (m: map<Symbol, Binding>)
    ensures m.Keys == Bound(bindings)
    ensures forall s :: s in m ==> m[s].symbol == s && m[s] in bindings
    ensures forall i :: 0 <= i < |bindings| && (forall j :: i < j < |bindings| ==> bindings[j].symbol != bindings[i].symbol)
                        ==> bindings[i].symbol in m && m[bindings[i].symbol] == bindings[i]
  {
    m := map[];
    var i := 0;
    while i < |bindings|
      invariant 0 <= i <= |bindings|
      invariant m.Keys == Bound(bindings[..i])
      invariant forall s :: s in m ==> m[s].symbol == s && m[s] in bindings
      invariant forall k :: 0 <= k < i && (forall j :: k < j < i ==> bindings[j].symbol != bindings[k].symbol)
                            ==> bindings[k].symbol in m && m[bindings[k].symbol] == bindings[k]
    {
      assert bindings[..i + 1] == bindings[..i] + [bindings[i]];
      m := m[bindings[i].symbol := bindings[i]];
      i := i + 1;
    }
    assert bindings[..i] == bindings;
  }

  /** Every bound symbol once, after the dependencies that do not lead back to it. */
  method ProjectionOrder(deps: map<Symbol, seq<Symbol>>, bindings: seq<Binding>) returns (order: seq<Binding>)
    ensures Bound(order) == Bound(bindings)
    ensures forall b :: b in order ==> b in bindings
    ensures NoRepeats(Symbols(order))
    ensures DependenciesFirst(Followed(deps, Bound(bindings)), Symbols(order))
  {
    hide DependenciesFirst, NoRepeats, Bound;
    var bySymbol := BySymbol(bindings);
    var walk := new Walk(deps, bySymbol);
    VisitEach(walk, bindings);
    order := walk.ordered;
    Listing(order, walk.visited);
    AllListed(bindings, walk.visited, walk.bindings.Keys);
  }

  method VisitEach(walk: Walk, bindings: seq<Binding>)
    requires walk.Valid() && walk.visiting == {} && walk.bindings.Keys == Bound(bindings)
    modifies walk
    ensures walk.Valid() && walk.visited <= walk.bindings.Keys
    ensures forall b :: b in bindings ==> b.symbol in walk.visited
  {
    hide DependenciesFirst, NoRepeats;
    var i := 0;
    while i < |bindings|
      invariant 0 <= i <= |bindings|
      invariant walk.Valid() && walk.visiting == {}
      invariant forall k :: 0 <= k < i ==> bindings[k].symbol in walk.visited
    {
      assert bindings[i].symbol in Bound(bindings);
      walk.Visit(bindings[i].symbol);
      i := i + 1;
    }
    forall s | s in walk.visited
      ensures s in walk.bindings.Keys
    {
      assert s in Symbols(walk.ordered);
      var k :| 0 <= k < |walk.ordered| && Symbols(walk.ordered)[k] == s;
      assert walk.ordered[k] in walk.ordered;
    }
  }

  lemma AllListed(bindings: seq<Binding>, listed: set<Symbol>, bound: set<Symbol>)
    requires bound == Bound(bindings) && listed <= bound
    requires forall b :: b in bindings ==> b.symbol in listed
    ensures listed == bound
  {
  }

  lemma Listing(order: seq<Binding>, listed: set<Symbol>)
    requires (set s | s in Symbols(order)) == listed
    ensures Bound(order) == listed
  {
    forall s | s in listed
      ensures s in Bound(order)
    {
      var i :| 0 <= i < |order| && Symbols(order)[i] == s;
      assert order[i].symbol == s;
    }
    forall b | b in order
      ensures b.symbol in listed
    {
      var i :| 0 <= i < |order| && order[i] == b;
      assert Symbols(order)[i] == b.symbol;
    }
  }
}
