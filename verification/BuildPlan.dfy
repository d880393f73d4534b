/** What has to be rebuilt when one program root replaces another. */
module BuildPlan {
  import opened Wrappers
  import opened Graphs
  import opened Lists

  type Symbol = string

  datatype Entry = Entry(definition: string, signature: string)

  /** A root: its functions, the dependency rows recorded for it, and the parts
      that are only compared as wholes. */
  datatype Root = Root(
    symbols: map<Symbol, Entry>,
    deps: Graph<Symbol>,
    types: string,
    exports: map<string, Symbol>,
    naming: string)

  datatype Kind = MetadataOnly | RelinkOnly | RecompileSymbols | RecompileDependents | FullRebuild

  function Rank(k: Kind): nat {
    match k
    case MetadataOnly => 0
    case RelinkOnly => 1
    case RecompileSymbols => 2
    case RecompileDependents => 3
    case FullRebuild => 4
  }

  function Raise(current: Kind, candidate: Kind): Kind { if Rank(candidate) > Rank(current) then candidate else current }

  datatype Reason =
    | RootUnchanged | MetadataChanged | SymbolAdded | SymbolRemoved | InterfaceChanged | ImplementationChanged
    | BodyChanged | DependencySetChanged | TypeDefinitionChanged | ExportMapChanged | UnclassifiedRootChange

  /** The hash of the body behind a definition, none for an external function. */
  type Bodies = string -> Option<string>

  datatype Artifact = CanonicalSource | CProjection | LoweredIr | ObjectFile | LinkPlan | Executable

  datatype Impact = Impact(
    kind: Kind,
    artifacts: set<Artifact>,
    recompile: set<Symbol>,
    relink: bool,
    changed: set<Symbol>,
    direct: map<Symbol, set<Symbol>>,
    transitive: map<Symbol, set<Symbol>>,
    reasons: set<Reason>)

  function DepsOf(root: Root, s: Symbol): set<Symbol> { if s in root.deps then set d | d in root.deps[s] else {} }

  // ---------------------------------------------------------------- dependents

  function DirectDependents(g: Graph<Symbol>, s: Symbol): (r: set<Symbol>)
    ensures forall x :: x in r <==> Edge(g, x, s)
  {
    set x | x in g && s in g[x]
  }

  /** `x` needs `s` through at least one dependency. */
  ghost predicate Depends(g: Graph<Symbol>, x: Symbol, s: Symbol) {
    exists c :: Edge(g, x, c) && Reaches(g, c, s)
  }

  lemma {:induction false} ClosedHoldsDependents(g: Graph<Symbol>, s: Symbol, seen: set<Symbol>, path: seq<Symbol>, x: Symbol)
    requires DirectDependents(g, s) <= seen && forall y :: y in seen ==> DirectDependents(g, y) <= seen
    requires IsPath(g, path, x, s) && |path| > 1
    ensures x in seen
    decreases |path|
  {
    assert Edge(g, path[0], path[1]);
    if |path| > 2 {
      PathSuffix(g, path, x, s, 1);
      ClosedHoldsDependents(g, s, seen, path[1..], path[1]);
      assert x in DirectDependents(g, path[1]);
    } else {
      assert x in DirectDependents(g, s);
    }
  }

  /** Found so far and still to look at: nothing missed, nothing wrong. */
  ghost predicate Progress(g: Graph<Symbol>, s: Symbol, seen: set<Symbol>, frontier: set<Symbol>) {
    && seen <= g.Keys
    && (forall x :: x in seen + frontier ==> Depends(g, x, s))
    && DirectDependents(g, s) <= seen + frontier
    && (forall y :: y in seen ==> DirectDependents(g, y) <= seen + frontier)
  }

  lemma Begin(g: Graph<Symbol>, s: Symbol)
    ensures Progress(g, s, {}, DirectDependents(g, s))
  {
    ReachesItself(g, s);
  }

  lemma Expand(g: Graph<Symbol>, s: Symbol, seen: set<Symbol>, frontier: set<Symbol>, y: Symbol, rest: set<Symbol>)
    requires Progress(g, s, seen, frontier) && y in frontier && frontier - {y} <= rest <= frontier
    ensures y in g && Progress(g, s, seen + {y}, rest + (DirectDependents(g, y) - (seen + {y})))
  {
    hide Depends;
    NewDependents(g, y, s);
  }

  lemma Skip(g: Graph<Symbol>, s: Symbol, seen: set<Symbol>, frontier: set<Symbol>, y: Symbol, rest: set<Symbol>)
    requires Progress(g, s, seen, frontier) && y in seen && frontier - {y} <= rest <= frontier
    ensures Progress(g, s, seen, rest)
  {
    hide Depends;
  }

  lemma Complete(g: Graph<Symbol>, s: Symbol, seen: set<Symbol>)
    requires Progress(g, s, seen, {})
    ensures forall x :: x in seen <==> Depends(g, x, s)
  {
    forall x | Depends(g, x, s)
      ensures x in seen
    {
      var c :| Edge(g, x, c) && Reaches(g, c, s);
      var path :| IsPath(g, path, c, s);
      PathFrom(g, x, path, c, s);
      ClosedHoldsDependents(g, s, seen, [x] + path, x);
    }
  }

  function Elements(xs: seq<Symbol>): set<Symbol> { set x | x in xs }

  /** The worklist over dependency rows. */
  method TransitiveDependents(g: Graph<Symbol>, s: Symbol) returns (seen: set<Symbol>)
    ensures forall x :: x in seen <==> Depends(g, x, s)
  {
    hide Progress, Depends, DirectDependents;
    Begin(g, s);
    seen := {};
    var frontier := ListSet(DirectDependents(g, s));
    assert Elements(frontier) == DirectDependents(g, s);
    while frontier != []
      invariant Progress(g, s, seen, Elements(frontier))
      decreases |g.Keys - seen|, |frontier|
    {
      var dependent, rest := frontier[|frontier| - 1], frontier[..|frontier| - 1];
      assert frontier == rest + [dependent];
      if dependent in seen {
        Skip(g, s, seen, Elements(frontier), dependent, Elements(rest));
        frontier := rest;
        continue;
      }
      Expand(g, s, seen, Elements(frontier), dependent, Elements(rest));
      Shrinks(g.Keys, seen, dependent);
      seen := seen + {dependent};
      var next := ListSet(DirectDependents(g, dependent) - seen);
      frontier := rest + next;
      assert Elements(frontier) == Elements(rest) + (DirectDependents(g, dependent) - seen);
    }
    assert Elements(frontier) == {};
    Complete(g, s, seen);
  }

  lemma PathFrom(g: Graph<Symbol>, x: Symbol, path: seq<Symbol>, c: Symbol, s: Symbol)
    requires Edge(g, x, c) && IsPath(g, path, c, s)
    ensures IsPath(g, [x] + path, x, s)
  {
    forall i | 0 <= i < |[x] + path| - 1
      ensures Edge(g, ([x] + path)[i], ([x] + path)[i + 1])
    {
      if i > 0 {
        assert Edge(g, path[i - 1], path[i]);
      }
    }
  }

  lemma NewDependents(g: Graph<Symbol>, y: Symbol, s: Symbol)
    requires Depends(g, y, s)
    ensures y in g.Keys && forall x :: x in DirectDependents(g, y) ==> Depends(g, x, s)
  {
    var c :| Edge(g, y, c) && Reaches(g, c, s);
    ReachesFrom(g, y, c, s);
  }

  /** Dependents in either root that are still functions of the new one. */
  method DependentsForSignatureChange(old_: Root, new_: Root, s: Symbol, transitive: bool) returns (r: set<Symbol>)
    ensures transitive ==> forall x :: x in r <==> x in new_.symbols && (Depends(old_.deps, x, s) || Depends(new_.deps, x, s))
    ensures !transitive ==> forall x :: x in r <==> x in new_.symbols && (Edge(old_.deps, x, s) || Edge(new_.deps, x, s))
  {
    var a, b := DirectDependents(old_.deps, s), DirectDependents(new_.deps, s);
    if transitive {
      a := TransitiveDependents(old_.deps, s);
      b := TransitiveDependents(new_.deps, s);
    }
    return set x | x in a + b && x in new_.symbols;
  }

  // ---------------------------------------------------------------- what a plan must say

  predicate SignatureChanged(old_: Root, new_: Root, s: Symbol) {
    s in old_.symbols && s in new_.symbols && old_.symbols[s].signature != new_.symbols[s].signature
  }

  predicate ImplementationDiffers(old_: Root, new_: Root, s: Symbol) {
    && s in old_.symbols && s in new_.symbols && !SignatureChanged(old_, new_, s)
    && (old_.symbols[s].definition != new_.symbols[s].definition || DepsOf(old_, s) != DepsOf(new_, s))
  }

  /** What the loop adds to the functions to recompile when it visits `s`. */
  ghost predicate RecompiledFor(old_: Root, new_: Root, s: Symbol, x: Symbol) {
    || (x == s && s in new_.symbols
        && (s !in old_.symbols || SignatureChanged(old_, new_, s) || ImplementationDiffers(old_, new_, s)))
    || (SignatureChanged(old_, new_, s) && x in new_.symbols && (Depends(old_.deps, x, s) || Depends(new_.deps, x, s)))
  }

  /** What the whole loop adds. */
  ghost predicate Visited(old_: Root, new_: Root, x: Symbol) {
    exists s :: (s in old_.symbols || s in new_.symbols) && RecompiledFor(old_, new_, s, x)
  }

  /** A function is recompiled exactly when it is new, its own interface, body or
      dependencies changed, something it depends on changed its interface, or
      any type definition changed. */
  ghost predicate MustRecompile(old_: Root, new_: Root, x: Symbol) {
    && x in new_.symbols
    && (|| old_.types != new_.types
        || x !in old_.symbols
        || SignatureChanged(old_, new_, x)
        || ImplementationDiffers(old_, new_, x)
        || exists s :: SignatureChanged(old_, new_, s) && (Depends(old_.deps, x, s) || Depends(new_.deps, x, s)))
  }

  /** The function did not change and nothing it needs changed its interface. */
  ghost predicate Reusable(old_: Root, new_: Root, x: Symbol) {
    && old_.types == new_.types
    && x in old_.symbols && x in new_.symbols && old_.symbols[x] == new_.symbols[x] && DepsOf(old_, x) == DepsOf(new_, x)
    && forall d :: (Depends(old_.deps, x, d) || Depends(new_.deps, x, d)) && d in old_.symbols && d in new_.symbols
                   ==> old_.symbols[d].signature == new_.symbols[d].signature
  }

  /** What must be recompiled is what cannot be reused. */
  lemma LeftAloneIsReusable(old_: Root, new_: Root, x: Symbol)
    requires x in new_.symbols
    ensures !MustRecompile(old_, new_, x) <==> Reusable(old_, new_, x)
  {
  }

  lemma OnlyNewFunctions(old_: Root, new_: Root, x: Symbol)
    requires MustRecompile(old_, new_, x)
    ensures x in new_.symbols
  {
  }

  predicate SymbolChanged(old_: Root, new_: Root, s: Symbol) {
    (s in old_.symbols) != (s in new_.symbols) || SignatureChanged(old_, new_, s) || ImplementationDiffers(old_, new_, s)
  }

  function ExportNames(root: Root, s: Symbol): set<string> { set name | name in root.exports && root.exports[name] == s }

  /** Symbols whose exported names differ. */
  function ExportChanged(old_: Root, new_: Root): set<Symbol> {
    set s | s in old_.exports.Values + new_.exports.Values && ExportNames(old_, s) != ExportNames(new_, s)
  }

  /** A symbol whose entry, exported names or, after a change of types, whole root
      is no longer what it was. */
  predicate Changed(old_: Root, new_: Root, s: Symbol) {
    || SymbolChanged(old_, new_, s) || s in ExportChanged(old_, new_)
    || (old_.types != new_.types && s in new_.symbols)
  }

  /** What one symbol gives as a reason. */
  predicate Gives(bodies: Bodies, old_: Root, new_: Root, s: Symbol, r: Reason) {
    match r
    case SymbolAdded => s !in old_.symbols && s in new_.symbols
    case SymbolRemoved => s in old_.symbols && s !in new_.symbols
    case InterfaceChanged => SignatureChanged(old_, new_, s)
    case ImplementationChanged => ImplementationDiffers(old_, new_, s)
    case BodyChanged =>
      s in old_.symbols && s in new_.symbols && bodies(old_.symbols[s].definition) != bodies(new_.symbols[s].definition)
    case DependencySetChanged => s in old_.symbols && s in new_.symbols && DepsOf(old_, s) != DepsOf(new_, s)
    case _ => false
  }

  predicate RootGives(old_: Root, new_: Root, r: Reason) {
    || (r == MetadataChanged && old_.naming != new_.naming)
    || (r == ExportMapChanged && old_.exports != new_.exports)
    || (r == TypeDefinitionChanged && old_.types != new_.types)
  }

  ghost predicate Given(bodies: Bodies, old_: Root, new_: Root, r: Reason) {
    RootGives(old_, new_, r) || exists s :: Gives(bodies, old_, new_, s, r)
  }

  /** The reasons are those given, or that none is. */
  ghost predicate ReasonsRight(bodies: Bodies, old_: Root, new_: Root, reasons: set<Reason>) {
    forall r :: r in reasons <==>
      (Given(bodies, old_, new_, r) || (r == UnclassifiedRootChange && forall q :: !Given(bodies, old_, new_, q)))
  }

  /** The kind the gravest reason asks for. */
  function KindFor(reasons: set<Reason>): Kind {
    if TypeDefinitionChanged in reasons || UnclassifiedRootChange in reasons then FullRebuild
    else if InterfaceChanged in reasons then RecompileDependents
    else if SymbolAdded in reasons || ImplementationChanged in reasons then RecompileSymbols
    else if SymbolRemoved in reasons || ExportMapChanged in reasons then RelinkOnly
    else MetadataOnly
  }

  /** For each changed interface, who needs it directly and who needs it at all,
      in either root, and is still a function of the new one. */
  ghost predicate DependentsRight(old_: Root, new_: Root, direct: map<Symbol, set<Symbol>>, transitive: map<Symbol, set<Symbol>>) {
    && direct.Keys == transitive.Keys
    && forall s :: s in direct ==>
         && (forall x :: x in direct[s] <==> x in new_.symbols && (Edge(old_.deps, x, s) || Edge(new_.deps, x, s)))
         && (forall x :: x in transitive[s] <==> x in new_.symbols && (Depends(old_.deps, x, s) || Depends(new_.deps, x, s)))
  }

  // ---------------------------------------------------------------- the planner

  class Planner {
    const bodies: Bodies
    const old_: Root
    const new_: Root
    var kind: Kind
    var recompile: set<Symbol>
    var changed: set<Symbol>
    var relink: bool
    var direct: map<Symbol, set<Symbol>>
    var transitive: map<Symbol, set<Symbol>>
    var reasons: set<Reason>

    constructor (bodies: Bodies, old_: Root, new_: Root)
      ensures this.bodies == bodies && this.old_ == old_ && this.new_ == new_
      ensures kind == MetadataOnly && recompile == {} && changed == {} && !relink && direct == map[] && transitive == map[] && reasons == {}
    {
      this.bodies, this.old_, this.new_ := bodies, old_, new_;
      kind, recompile, changed, relink, direct, transitive, reasons := MetadataOnly, {}, {}, false, map[], map[], {};
    }

    /** Kind, relink and reasons never part, and the dependents found are right. */
    ghost predicate Consistent()
      reads this
    {
      && kind == KindFor(reasons) && (relink <==> kind != MetadataOnly)
      && DependentsRight(old_, new_, direct, transitive)
    }

    method Note(k: Kind, reason: Reason)
      requires Consistent() && k != MetadataOnly && k == KindFor({reason})
      modifies this`kind, this`relink, this`reasons
      ensures Consistent() && reasons == old(reasons) + {reason}
    {
      kind := Raise(kind, k);
      relink := true;
      reasons := reasons + {reason};
    }

    method VisitChangedSignature(s: Symbol)
      requires SignatureChanged(old_, new_, s) && DependentsRight(old_, new_, direct, transitive)
      modifies this`changed, this`recompile, this`direct, this`transitive
      ensures forall x :: x in recompile <==> x in old(recompile) || RecompiledFor(old_, new_, s, x)
      ensures changed == old(changed) + {s} && direct.Keys == old(direct).Keys + {s}
      ensures DependentsRight(old_, new_, direct, transitive)
    {
      hide Depends, DependentsRight;
      changed := changed + {s};
      var near := DependentsForSignatureChange(old_, new_, s, false);
      var far := DependentsForSignatureChange(old_, new_, s, true);
      recompile := recompile + {s} + far;
      AddDependents(old_, new_, direct, transitive, s, near, far);
      direct := direct[s := near];
      transitive := transitive[s := far];
    }

    /** What accompanies a changed interface or implementation. */
    method NoteParts(s: Symbol)
      requires Consistent() && s in old_.symbols && s in new_.symbols
      modifies this`reasons
      ensures Consistent()
      ensures forall r :: r in reasons <==>
        r in old(reasons) || (Gives(bodies, old_, new_, s, r) && (r == BodyChanged || r == DependencySetChanged))
    {
      hide DependentsRight;
      if bodies(old_.symbols[s].definition) != bodies(new_.symbols[s].definition) {
        reasons := reasons + {BodyChanged};
      }
      if DepsOf(old_, s) != DepsOf(new_, s) {
        reasons := reasons + {DependencySetChanged};
      }
    }

    method VisitSymbol(s: Symbol)
      requires Consistent() && (s in old_.symbols || s in new_.symbols)
      modifies this
      ensures Consistent()
      ensures forall x :: x in recompile <==> x in old(recompile) || RecompiledFor(old_, new_, s, x)
      ensures forall r :: r in reasons <==> r in old(reasons) || Gives(bodies, old_, new_, s, r)
      ensures changed == if SymbolChanged(old_, new_, s) then old(changed) + {s} else old(changed)
      ensures direct.Keys == if SignatureChanged(old_, new_, s) then old(direct).Keys + {s} else old(direct).Keys
    {
      hide Depends, DependentsRight, DepsOf, KindFor;
      NotedKinds();
      if s !in old_.symbols {
        Note(RecompileSymbols, SymbolAdded);
        changed := changed + {s};
        recompile := recompile + {s};
      } else if s !in new_.symbols {
        Note(RelinkOnly, SymbolRemoved);
        changed := changed + {s};
      } else if old_.symbols[s].signature != new_.symbols[s].signature {
        Note(RecompileDependents, InterfaceChanged);
        NoteParts(s);
        VisitChangedSignature(s);
      } else if old_.symbols[s].definition != new_.symbols[s].definition || DepsOf(old_, s) != DepsOf(new_, s) {
        Note(RecompileSymbols, ImplementationChanged);
        changed := changed + {s};
        recompile := recompile + {s};
        NoteParts(s);
      }
    }

    method Classify()
      requires kind == MetadataOnly && recompile == {} && changed == {} && !relink && reasons == {} && direct == transitive == map[]
      modifies this
      ensures Consistent() && ReasonsRight(bodies, old_, new_, reasons)
      ensures forall x :: x in recompile <==> MustRecompile(old_, new_, x)
      ensures forall x :: x in changed <==> Changed(old_, new_, x)
      ensures forall s :: s in direct <==> SignatureChanged(old_, new_, s)
    {
      hide MustRecompile, Visited, ExportChanged, SymbolChanged, SignatureChanged, Gives, KindFor, DependentsRight, ReasonsRight;
      NotedKinds();
      NoDependents(old_, new_);
      if old_.naming != new_.naming {
        reasons := {MetadataChanged};
      }
      if old_.exports != new_.exports {
        Note(RelinkOnly, ExportMapChanged);
        changed := ExportChanged(old_, new_);
      } else {
        SameExports(old_, new_);
      }
      if old_.types != new_.types {
        Note(FullRebuild, TypeDefinitionChanged);
      }
      assert forall r :: r in reasons <==> RootGives(old_, new_, r);
      VisitSymbols();
      if old_.types != new_.types {
        changed := changed + new_.symbols.Keys;
        recompile := recompile + new_.symbols.Keys;
      }
      Decided(old_, new_, recompile);
      ghost var given := reasons;
      if reasons == {} {
        Note(FullRebuild, UnclassifiedRootChange);
      }
      ReasonsDecided(bodies, old_, new_, given, reasons);
    }

    method VisitSymbols()
      requires Consistent() && recompile == {} && direct == map[]
      modifies this
      ensures Consistent()
      ensures forall x :: x in recompile <==> Visited(old_, new_, x)
      ensures forall r :: r in reasons <==> r in old(reasons) || exists s :: Gives(bodies, old_, new_, s, r)
      ensures forall x :: x in changed <==> x in old(changed) || SymbolChanged(old_, new_, x)
      ensures forall s :: s in direct <==> SignatureChanged(old_, new_, s)
    {
      hide RecompiledFor, SymbolChanged, SignatureChanged, Gives, Consistent;
      var all := old_.symbols.Keys + new_.symbols.Keys;
      var todo := all;
      while todo != {}
        invariant todo <= all && Consistent()
        invariant forall x :: x in recompile <==> exists s :: s in all - todo && RecompiledFor(old_, new_, s, x)
        invariant forall r :: r in reasons <==> r in old(reasons) || exists s :: s in all - todo && Gives(bodies, old_, new_, s, r)
        invariant forall x :: x in changed <==> x in old(changed) || (x in all - todo && SymbolChanged(old_, new_, x))
        invariant forall s :: s in direct <==> s in all - todo && SignatureChanged(old_, new_, s)
        decreases todo
      {
        var s :| s in todo;
        VisitSymbol(s);
        ghost var was := todo;
        todo := todo - {s};
        assert all - todo == (all - was) + {s};
      }
      assert all - todo == all;
      OnlySymbolsChange(bodies, old_, new_);
    }
  }

  lemma NotedKinds()
    ensures KindFor({SymbolAdded}) == KindFor({ImplementationChanged}) == RecompileSymbols
    ensures KindFor({SymbolRemoved}) == KindFor({ExportMapChanged}) == RelinkOnly
    ensures KindFor({InterfaceChanged}) == RecompileDependents
    ensures KindFor({TypeDefinitionChanged}) == KindFor({UnclassifiedRootChange}) == FullRebuild
    ensures KindFor({}) == KindFor({MetadataChanged}) == KindFor({RootUnchanged}) == MetadataOnly
  {
  }

  lemma AddDependents(old_: Root, new_: Root, direct: map<Symbol, set<Symbol>>, transitive: map<Symbol, set<Symbol>>,
                      s: Symbol, near: set<Symbol>, far: set<Symbol>)
    requires DependentsRight(old_, new_, direct, transitive)
    requires forall x :: x in near <==> x in new_.symbols && (Edge(old_.deps, x, s) || Edge(new_.deps, x, s))
    requires forall x :: x in far <==> x in new_.symbols && (Depends(old_.deps, x, s) || Depends(new_.deps, x, s))
    ensures DependentsRight(old_, new_, direct[s := near], transitive[s := far])
  {
    hide Depends, Edge;
  }

  lemma NoDependents(old_: Root, new_: Root)
    ensures DependentsRight(old_, new_, map[], map[])
  {
  }

  lemma SameExports(old_: Root, new_: Root)
    requires old_.exports == new_.exports
    ensures ExportChanged(old_, new_) == {}
  {
  }

  lemma ReasonsDecided(bodies: Bodies, old_: Root, new_: Root, given: set<Reason>, reasons: set<Reason>)
    requires forall r :: r in given <==> RootGives(old_, new_, r) || exists s :: Gives(bodies, old_, new_, s, r)
    requires reasons == if given == {} then {UnclassifiedRootChange} else given
    ensures ReasonsRight(bodies, old_, new_, reasons)
  {
    hide Gives, RootGives;
    assert forall r :: r in given <==> Given(bodies, old_, new_, r);
    if given != {} {
      var r :| r in given;
      assert Given(bodies, old_, new_, r);
    }
  }

  lemma OnlySymbolsChange(bodies: Bodies, old_: Root, new_: Root)
    ensures forall s :: SymbolChanged(old_, new_, s) || SignatureChanged(old_, new_, s) ==> s in old_.symbols.Keys + new_.symbols.Keys
    ensures forall s, r :: Gives(bodies, old_, new_, s, r) ==> s in old_.symbols.Keys + new_.symbols.Keys
  {
  }

  /** Both views of the recompiled functions agree. */
  lemma VisitedIsMust(old_: Root, new_: Root, x: Symbol)
    requires old_.types == new_.types
    ensures MustRecompile(old_, new_, x) <==> Visited(old_, new_, x)
  {
    if MustRecompile(old_, new_, x) {
      if s :| SignatureChanged(old_, new_, s) && (Depends(old_.deps, x, s) || Depends(new_.deps, x, s)) {
        assert RecompiledFor(old_, new_, s, x);
      } else {
        assert RecompiledFor(old_, new_, x, x);
      }
    }
  }

  function Artifacts(recompile: set<Symbol>, relink: bool): set<Artifact> {
    {CanonicalSource, CProjection} + (if recompile != {} then {LoweredIr, ObjectFile} else {})
    + (if relink then {LinkPlan, Executable} else {})
  }

  /** The plan: what may be kept, what changed, who depends on it, and why. */
  method PlanBuildImpact(bodies: Bodies, old_: Root, new_: Root, sameRoot: bool) returns (r: Impact)
    requires sameRoot ==> old_ == new_
    ensures r.recompile <= new_.symbols.Keys
    ensures forall x :: x in new_.symbols ==> (x !in r.recompile <==> Reusable(old_, new_, x))
    ensures forall x :: x in r.changed <==> Changed(old_, new_, x)
    ensures forall s :: s in r.direct <==> SignatureChanged(old_, new_, s)
    ensures DependentsRight(old_, new_, r.direct, r.transitive)
    ensures if sameRoot then r.reasons == {RootUnchanged} else ReasonsRight(bodies, old_, new_, r.reasons)
    ensures r.kind == KindFor(r.reasons) && (r.relink <==> r.kind != MetadataOnly)
    ensures r.recompile != {} ==> Rank(r.kind) >= Rank(RecompileSymbols)
    ensures !r.relink ==> old_.exports == new_.exports && old_.types == new_.types && forall s :: !SymbolChanged(old_, new_, s)
    ensures r.artifacts == if sameRoot then {} else Artifacts(r.recompile, r.relink)
  {
    hide MustRecompile, Reusable, Artifacts, Changed, SymbolChanged, KindFor, ReasonsRight, DependentsRight;
    NotedKinds();
    if sameRoot {
      SameRootPlan(old_);
      return Impact(MetadataOnly, {}, {}, false, {}, map[], map[], {RootUnchanged});
    }
    var planner := new Planner(bodies, old_, new_);
    planner.Classify();
    forall x | x in planner.recompile
      ensures x in new_.symbols
    {
      OnlyNewFunctions(old_, new_, x);
    }
    forall x | x in new_.symbols
      ensures x !in planner.recompile <==> Reusable(old_, new_, x)
    {
      LeftAloneIsReusable(old_, new_, x);
    }
    KindFollows(bodies, old_, new_, planner.reasons);
    return Impact(planner.kind, Artifacts(planner.recompile, planner.relink), planner.recompile, planner.relink, planner.changed,
                  planner.direct, planner.transitive, planner.reasons);
  }

  /** What the kind promises: functions to recompile make it at least that grave,
      and without a relink no symbol, type or export changed. */
  lemma KindFollows(bodies: Bodies, old_: Root, new_: Root, reasons: set<Reason>)
    requires ReasonsRight(bodies, old_, new_, reasons)
    ensures (exists x :: MustRecompile(old_, new_, x)) ==> Rank(KindFor(reasons)) >= Rank(RecompileSymbols)
    ensures KindFor(reasons) == MetadataOnly ==>
              old_.exports == new_.exports && old_.types == new_.types && forall s :: !SymbolChanged(old_, new_, s)
  {
    hide Depends, DepsOf;
    assert forall s, r :: Gives(bodies, old_, new_, s, r) ==> Given(bodies, old_, new_, r);
    assert forall r :: RootGives(old_, new_, r) ==> Given(bodies, old_, new_, r);
    if x :| MustRecompile(old_, new_, x) {
      if x !in old_.symbols {
        assert Gives(bodies, old_, new_, x, SymbolAdded);
      } else if ImplementationDiffers(old_, new_, x) {
        assert Gives(bodies, old_, new_, x, ImplementationChanged);
      } else if old_.types != new_.types {
        assert RootGives(old_, new_, TypeDefinitionChanged);
      } else {
        var s :| SignatureChanged(old_, new_, s);
        assert Gives(bodies, old_, new_, s, InterfaceChanged);
      }
    }
    if KindFor(reasons) == MetadataOnly {
      assert !RootGives(old_, new_, TypeDefinitionChanged) && !RootGives(old_, new_, ExportMapChanged);
      forall s
        ensures !SymbolChanged(old_, new_, s)
      {
        assert !Gives(bodies, old_, new_, s, SymbolAdded) && !Gives(bodies, old_, new_, s, SymbolRemoved);
        assert !Gives(bodies, old_, new_, s, InterfaceChanged) && !Gives(bodies, old_, new_, s, ImplementationChanged);
      }
    }
  }

  lemma SameRootPlan(root: Root)
    ensures forall x :: x in root.symbols ==> Reusable(root, root, x)
    ensures forall x :: !Changed(root, root, x) && !SignatureChanged(root, root, x) && !SymbolChanged(root, root, x)
    ensures DependentsRight(root, root, map[], map[])
  {
  }

  /** The loop's account of the functions to recompile is the plan's. */
  lemma Decided(old_: Root, new_: Root, recompile: set<Symbol>)
    requires forall x :: x in recompile <==>
               (|| Visited(old_, new_, x)
                || (old_.types != new_.types && x in new_.symbols))
    ensures forall x :: x in recompile <==> MustRecompile(old_, new_, x)
  {
    hide Visited, MustRecompile;
    forall x
      ensures x in recompile <==> MustRecompile(old_, new_, x)
    {
      if old_.types == new_.types {
        VisitedIsMust(old_, new_, x);
      } else {
        TypesRecompileAll(old_, new_, x);
      }
    }
  }

  lemma TypesRecompileAll(old_: Root, new_: Root, x: Symbol)
    requires old_.types != new_.types
    ensures MustRecompile(old_, new_, x) <==> x in new_.symbols
    ensures Visited(old_, new_, x) ==> x in new_.symbols
  {
  }
}
