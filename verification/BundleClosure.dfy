/** The objects a bundle must hold: everything its roots refer to, directly or
    not, and the inputs of the artifacts it carries. */
module BundleClosure {
  import opened Wrappers
  import opened Graphs
  import opened Lists

  type Hash = string

  /** An object's references; `inputKind` says it may be carried as an artifact input. */
  datatype Object = Object(refs: seq<Hash>, inputKind: bool)

  type Objects = map<Hash, Object>

  datatype Error = MissingObject(hash: Hash) | UnsupportedKind(hash: Hash) | WrongSet

  function Refs(objects: Objects): Graph<Hash> { map h | h in objects :: objects[h].refs }

  /** Reachable from some root. */
  ghost predicate Reached(objects: Objects, roots: set<Hash>, h: Hash) {
    exists r :: r in roots && Reaches(Refs(objects), r, h)
  }

  /** Contains the roots and what its members refer to. */
  ghost predicate Closed(objects: Objects, roots: set<Hash>, s: set<Hash>) {
    roots <= s && forall h, c :: h in s && Edge(Refs(objects), h, c) ==> c in s
  }

  lemma {:induction false} ClosedHoldsPath(objects: Objects, roots: set<Hash>, s: set<Hash>, path: seq<Hash>, r: Hash, h: Hash)
    requires Closed(objects, roots, s) && r in s && IsPath(Refs(objects), path, r, h)
    ensures h in s
    decreases |path|
  {
    if |path| > 1 {
      assert Edge(Refs(objects), path[0], path[1]);
      PathSuffix(Refs(objects), path, r, h, 1);
      ClosedHoldsPath(objects, roots, s, path[1..], path[1], h);
    }
  }

  /** The reachable objects are the least closed set. */
  lemma ReachedIsLeast(objects: Objects, roots: set<Hash>, s: set<Hash>)
    requires Closed(objects, roots, s)
    ensures forall h :: Reached(objects, roots, h) ==> h in s
  {
    forall h | Reached(objects, roots, h)
      ensures h in s
    {
      var r :| r in roots && Reaches(Refs(objects), r, h);
      var path :| IsPath(Refs(objects), path, r, h);
      ClosedHoldsPath(objects, roots, s, path, r, h);
    }
  }

  // ---------------------------------------------------------------- the worklist

  function Elements(xs: seq<Hash>): set<Hash> { set x | x in xs }

  lemma ElementsSnoc(xs: seq<Hash>, x: Hash)
    ensures Elements(xs + [x]) == Elements(xs) + {x}
  {
  }

  lemma ElementsListed(xs: seq<Hash>, s: set<Hash>)
    requires forall x :: x in xs <==> x in s
    ensures Elements(xs) == s
  {
  }

  lemma Begin(objects: Objects, roots: set<Hash>)
    ensures forall h :: h in roots ==> Reached(objects, roots, h)
  {
    forall h | h in roots
      ensures Reached(objects, roots, h)
    {
      ReachesItself(Refs(objects), h);
    }
  }

  lemma ReachedNext(objects: Objects, roots: set<Hash>, h: Hash)
    requires Reached(objects, roots, h) && h in objects
    ensures forall c :: c in objects[h].refs ==> Reached(objects, roots, c)
  {
    forall c | c in objects[h].refs
      ensures Reached(objects, roots, c)
    {
      var r :| r in roots && Reaches(Refs(objects), r, h);
      ReachesNext(Refs(objects), r, h, c);
    }
  }

  /** Members whose references still wait are the ones just being read. */
  ghost predicate Pending(objects: Objects, roots: set<Hash>, seen: set<Hash>, frontier: set<Hash>) {
    && seen <= objects.Keys && roots <= seen + frontier
    && (forall h :: h in seen + frontier ==> Reached(objects, roots, h))
    && (forall h, c :: h in seen && Edge(Refs(objects), h, c) ==> c in seen + frontier)
  }

  /** References join the frontier unless seen; a missing one ends the search. */
  method PushReferences(objects: Objects, refs: seq<Hash>, seen: set<Hash>, frontier: seq<Hash>) returns (r: Result<seq<Hash>, Error>)
    ensures r.Ok? ==> Elements(r.value) == Elements(frontier) + (Elements(refs) - seen) && Elements(refs) <= objects.Keys
    ensures r.Err? ==> r.error.MissingObject? && r.error.hash in refs && r.error.hash !in objects
  {
    var next := frontier;
    var i := 0;
    while i < |refs|
      invariant 0 <= i <= |refs|
      invariant Elements(next) == Elements(frontier) + (Elements(refs[..i]) - seen)
      invariant Elements(refs[..i]) <= objects.Keys
    {
      var c := refs[i];
      assert refs[..i + 1] == refs[..i] + [c];
      ElementsSnoc(refs[..i], c);
      ElementsSnoc(next, c);
      if c !in objects {
        return Err(MissingObject(c));
      }
      if c !in seen {
        next := next + [c];
      }
      i := i + 1;
    }
    assert refs[..i] == refs;
    return Ok(next);
  }

  /** The closure of the roots, or an object that is missing from it. */
  method ClosureFromMap(roots: set<Hash>, objects: Objects) returns (r: Result<set<Hash>, Error>)
    ensures r.Ok? ==> r.value <= objects.Keys && Closed(objects, roots, r.value) && forall h :: h in r.value <==> Reached(objects, roots, h)
    ensures r.Err? ==> r.error.MissingObject? && r.error.hash !in objects && Reached(objects, roots, r.error.hash)
  {
    hide Pending, Reached, Closed, Refs, Elements;
    var seen: set<Hash> := {};
    var frontier := ListSet(roots);
    ElementsListed(frontier, roots);
    PendingStart(objects, roots);
    while frontier != []
      invariant Pending(objects, roots, seen, Elements(frontier))
      decreases |objects.Keys - seen|, |frontier|
    {
      var h, rest := frontier[|frontier| - 1], frontier[..|frontier| - 1];
      assert frontier == rest + [h];
      ElementsSnoc(rest, h);
      PendingFacts(objects, roots, seen, Elements(frontier), h);
      if h in seen {
        PendingSkip(objects, roots, seen, Elements(frontier), Elements(rest), h);
        frontier := rest;
        continue;
      }
      if h !in objects {
        return Err(MissingObject(h));
      }
      ReachedNext(objects, roots, h);
      Shrinks(objects.Keys, seen, h);
      ghost var before := seen;
      seen := seen + {h};
      var next := PushReferences(objects, objects[h].refs, seen, rest);
      if next.Err? {
        return Err(next.error);
      }
      PendingExpand(objects, roots, before, Elements(frontier), h, Elements(rest), Elements(next.value));
      frontier := next.value;
    }
    ElementsListed(frontier, {});
    PendingDone(objects, roots, seen);
    return Ok(seen);
  }

  lemma PendingStart(objects: Objects, roots: set<Hash>)
    ensures Pending(objects, roots, {}, roots)
  {
    Begin(objects, roots);
  }

  lemma PendingFacts(objects: Objects, roots: set<Hash>, seen: set<Hash>, frontier: set<Hash>, h: Hash)
    requires Pending(objects, roots, seen, frontier) && h in frontier
    ensures Reached(objects, roots, h)
  {
  }

  lemma PendingSkip(objects: Objects, roots: set<Hash>, seen: set<Hash>, frontier: set<Hash>, rest: set<Hash>, h: Hash)
    requires Pending(objects, roots, seen, frontier) && h in seen && frontier - {h} <= rest <= frontier
    ensures Pending(objects, roots, seen, rest)
  {
    hide Reached;
  }

  lemma PendingExpand(objects: Objects, roots: set<Hash>, seen: set<Hash>, frontier: set<Hash>, h: Hash, rest: set<Hash>, next: set<Hash>)
    requires Pending(objects, roots, seen, frontier) && h in frontier && h in objects && frontier - {h} <= rest <= frontier
    requires next == rest + (Elements(objects[h].refs) - (seen + {h}))
    requires forall c :: c in objects[h].refs ==> Reached(objects, roots, c)
    ensures Pending(objects, roots, seen + {h}, next)
  {
    hide Reached;
  }

  lemma PendingDone(objects: Objects, roots: set<Hash>, seen: set<Hash>)
    requires Pending(objects, roots, seen, {})
    ensures seen <= objects.Keys && Closed(objects, roots, seen) && forall h :: h in seen <==> Reached(objects, roots, h)
  {
    ReachedIsLeast(objects, roots, seen);
  }

  // ---------------------------------------------------------------- validating a bundle

  /** Exactly the closure of the roots and inputs, and whatever only the inputs
      need is of a kind an artifact may bring along. */
  ghost predicate WellFormedBundle(objects: Objects, roots: set<Hash>, inputs: set<Hash>) {
    && (forall h :: h in objects <==> Reached(objects, roots + inputs, h))
    && (forall h :: h in objects && !Reached(objects, roots, h) ==> objects[h].inputKind)
  }

  method ValidateObjectClosure(objects: Objects, roots: set<Hash>, inputs: seq<Hash>) returns (r: Result<(), Error>)
    ensures r.Ok? <==> WellFormedBundle(objects, roots, Elements(inputs))
  {
    hide Reached, Closed;
    var rootClosure := ClosureFromMap(roots, objects);
    if rootClosure.Err? {
      RootsAreAmong(objects, roots, Elements(inputs));
      return Err(rootClosure.error);
    }
    var expected := ExpectedObjects(objects, roots, rootClosure.value, inputs);
    if expected.Err? {
      return Err(expected.error);
    }
    if expected.value != objects.Keys {
      return Err(WrongSet);
    }
    return Ok(());
  }

  lemma RootsAreAmong(objects: Objects, roots: set<Hash>, inputs: set<Hash>)
    ensures forall h :: Reached(objects, roots, h) ==> Reached(objects, roots + inputs, h)
    ensures forall h :: h in roots + inputs ==> Reached(objects, roots + inputs, h)
  {
    Begin(objects, roots + inputs);
  }

  /** Starting from the roots' closure or from the roots reaches the same. */
  lemma ClosureIsEnough(objects: Objects, roots: set<Hash>, closure: set<Hash>, start: set<Hash>, inputs: set<Hash>)
    requires forall h :: h in closure <==> Reached(objects, roots, h)
    requires start == closure + (inputs - closure)
    ensures forall h :: Reached(objects, start, h) <==> Reached(objects, roots + inputs, h)
  {
    var g := Refs(objects);
    Begin(objects, roots);
    forall h | Reached(objects, start, h)
      ensures Reached(objects, roots + inputs, h)
    {
      var s :| s in start && Reaches(g, s, h);
      if s in closure {
        var r :| r in roots && Reaches(g, r, s);
        ReachesOn(g, r, s, h);
      }
    }
  }

  method ExpectedObjects(objects: Objects, roots: set<Hash>, rootClosure: set<Hash>, inputs: seq<Hash>) returns (r: Result<set<Hash>, Error>)
    requires forall h :: h in rootClosure <==> Reached(objects, roots, h)
    requires rootClosure <= objects.Keys
    ensures r.Ok? ==> forall h :: h in r.value <==> Reached(objects, roots + Elements(inputs), h)
    ensures r.Ok? ==> r.value <= objects.Keys && forall h :: h in r.value && h !in rootClosure ==> objects[h].inputKind
    ensures r.Err? ==> !WellFormedBundle(objects, roots, Elements(inputs))
  {
    hide Reached, Closed;
    RootsAreAmong(objects, roots, Elements(inputs));
    var expected := rootClosure;
    var i := 0;
    while i < |inputs|
      invariant 0 <= i <= |inputs|
      invariant expected == rootClosure + (Elements(inputs[..i]) - rootClosure)
    {
      assert inputs[..i + 1] == inputs[..i] + [inputs[i]];
      var h := inputs[i];
      if h !in rootClosure {
        assert h in Elements(inputs);
        if h !in objects {
          return Err(MissingObject(h));
        }
        if !objects[h].inputKind {
          return Err(UnsupportedKind(h));
        }
        expected := expected + {h};
      }
      i := i + 1;
    }
    assert inputs[..i] == inputs;
    ClosureIsEnough(objects, roots, rootClosure, expected, Elements(inputs));
    var all :- ClosureFromMap(expected, objects);
    var extra := all - rootClosure;
    if bad :| bad in extra && !objects[bad].inputKind {
      return Err(UnsupportedKind(bad));
    }
    return Ok(all);
  }
}
