/** The merge as it runs: the target's lists are edited in place, one symbol and
    one type at a time, and the result is checked for clashing names. */
module MergeMachine {
  import opened Wrappers
  import opened Lists
  import opened MergeModel
  import opened MergeLaws

  class Draft {
    var symbols: seq<SymbolEntry>
    var types: seq<TypeEntry>
    var names: seq<NameBinding>
    var typeNames: seq<TypeNameBinding>
    var paramNames: seq<ParamNames>
    var exports: seq<ExportBinding>
    var tests: seq<TestBinding>
    var metadata: map<string, string>

    constructor (root: Root)
      ensures Contents() == root
    {
      symbols, types, names, typeNames := root.symbols, root.types, root.names, root.typeNames;
      paramNames, exports, tests, metadata := root.paramNames, root.exports, root.tests, root.metadata;
    }

    function Contents(): Root
      reads this
    {
      Root(symbols, types, names, typeNames, paramNames, exports, tests, metadata)
    }

    /** `s` gets the given state; every other symbol, and all types, keep theirs. */
    method ReplaceSymbolState(s: Id, state: SymbolState)
      requires StateFor(state, s)
      modifies this`symbols, this`names, this`paramNames, this`exports
      ensures StateOf(Contents(), s) == state
      ensures forall u :: u != s ==> StateOf(Contents(), u) == StateOf(old(Contents()), u)
      ensures forall b :: b in names <==> if b.symbol == s then b in state.names else b in old(names)
      ensures forall b :: b in exports <==> if b.symbol == s then b in state.exports else b in old(exports)
    {
      hide Select, Find, FindEntry, FindParams, NamesOf, ExportsOf, StateOf, About;
      ghost var before := Contents();
      symbols := Select(symbols, OtherEntries(s));
      names := Select(names, OtherNames(s));
      paramNames := Select(paramNames, OtherParams(s));
      exports := Select(exports, OtherExports(s));
      ghost var kept := Contents();
      var newNames: seq<NameBinding>, newExports: seq<ExportBinding> := [], [];
      if state.entry.Some? {
        newNames := Listing(state.names);
        newExports := Listing(state.exports);
        symbols := symbols + [state.entry.value];
        names := names + newNames;
        if state.params.Some? {
          paramNames := paramNames + [state.params.value];
        }
        exports := exports + newExports;
      }
      Appended(kept, Contents(), state, newNames, newExports);
      StateReplaced(before, Contents(), s, state, newNames, newExports);
    }

    method ReplaceTypeState(t: Id, state: TypeState)
      requires TypeStateFor(state, t)
      modifies this`types, this`typeNames
      ensures TypeStateOf(Contents(), t) == state
      ensures forall u :: u != t ==> TypeStateOf(Contents(), u) == TypeStateOf(old(Contents()), u)
      ensures forall b :: b in typeNames <==> if b.typeSymbol == t then b in state.names else b in old(typeNames)
    {
      hide Select, Find, FindType, TypeNamesOf;
      TypeReplaced(types, state.entry, t);
      types := Select(types, OtherTypes(t));
      var kept := Select(typeNames, OtherTypeNames(t));
      if state.entry.None? {
        TypeNamesReplaced(typeNames, [], t);
        typeNames := kept;
        assert kept + [] == kept && types + [] == types;
      } else {
        var newNames := Listing(state.names);
        assert forall b :: b in newNames ==> b in state.names;
        TypeNamesReplaced(typeNames, newNames, t);
        types := types + [state.entry.value];
        typeNames := kept + newNames;
      }
    }
  }

  // ---------------------------------------------------------------- one symbol's part of a list

  /** A state whose parts are all about `s`. */
  predicate StateFor(state: SymbolState, s: Id) {
    && About(state, s) && (state.params.Some? ==> state.params.value.symbol == s)
    && (forall b :: b in state.names ==> b.symbol == s)
    && (forall b :: b in state.exports ==> b.symbol == s)
    && (state.entry.None? ==> state == ABSENT)
  }

  predicate TypeStateFor(state: TypeState, t: Id) {
    && AboutType(state, t) && (forall b :: b in state.names ==> b.typeSymbol == t)
    && (state.entry.None? ==> state == ABSENT_TYPE)
  }

  function OtherEntries(s: Id): SymbolEntry -> bool { (e: SymbolEntry) => e.symbol != s }
  function OtherTypes(t: Id): TypeEntry -> bool { (e: TypeEntry) => e.typeSymbol != t }
  function OtherParams(s: Id): ParamNames -> bool { (e: ParamNames) => e.symbol != s }
  function OtherNames(s: Id): NameBinding -> bool { (b: NameBinding) => b.symbol != s }
  function OtherTypeNames(t: Id): TypeNameBinding -> bool { (b: TypeNameBinding) => b.typeSymbol != t }
  function OtherExports(s: Id): ExportBinding -> bool { (b: ExportBinding) => b.symbol != s }

  function Optional<T>(y: Option<T>): seq<T> { if y.Some? then [y.value] else [] }

  lemma Appended(kept: Root, now: Root, state: SymbolState, newNames: seq<NameBinding>, newExports: seq<ExportBinding>)
    requires now == kept.(symbols := now.symbols, names := now.names, paramNames := now.paramNames, exports := now.exports)
    requires if state.entry.Some?
             then && now.symbols == kept.symbols + [state.entry.value] && now.names == kept.names + newNames
                  && now.paramNames == (if state.params.Some? then kept.paramNames + [state.params.value] else kept.paramNames)
                  && now.exports == kept.exports + newExports
             else now == kept && newNames == [] && newExports == [] && state.params.None?
    ensures now.symbols == kept.symbols + Optional(state.entry) && now.names == kept.names + newNames
    ensures now.paramNames == kept.paramNames + Optional(state.params) && now.exports == kept.exports + newExports
  {
  }

  lemma StateReplaced(before: Root, now: Root, s: Id, state: SymbolState, newNames: seq<NameBinding>, newExports: seq<ExportBinding>)
    requires StateFor(state, s) && multiset(newNames) == state.names && multiset(newExports) == state.exports
    requires now.symbols == Select(before.symbols, OtherEntries(s)) + Optional(state.entry)
    requires now.names == Select(before.names, OtherNames(s)) + newNames
    requires now.paramNames == Select(before.paramNames, OtherParams(s)) + Optional(state.params)
    requires now.exports == Select(before.exports, OtherExports(s)) + newExports
    ensures StateOf(now, s) == state
    ensures forall u :: u != s ==> StateOf(now, u) == StateOf(before, u)
    ensures forall b :: b in now.names <==> if b.symbol == s then b in state.names else b in before.names
    ensures forall b :: b in now.exports <==> if b.symbol == s then b in state.exports else b in before.exports
  {
    hide Select, Find, FindEntry, FindParams, NamesOf, ExportsOf;
    assert forall b :: b in newNames <==> b in state.names;
    assert forall b :: b in newExports <==> b in state.exports;
    EntryReplaced(before.symbols, state.entry, s);
    ParamsReplaced(before.paramNames, state.params, s);
    NamesReplaced(before.names, newNames, s);
    ExportsReplaced(before.exports, newExports, s);
  }

  lemma EntryReplaced(entries: seq<SymbolEntry>, e: Option<SymbolEntry>, s: Id)
    requires e.Some? ==> e.value.symbol == s
    ensures var r := Select(entries, OtherEntries(s)) + Optional(e);
            FindEntry(r, s) == e && forall u :: u != s ==> FindEntry(r, u) == FindEntry(entries, u)
  {
    FindReplaced(entries, e, OtherEntries(s), EntryIs(s), (x: SymbolEntry) => false);
    forall u | u != s
      ensures FindEntry(Select(entries, OtherEntries(s)) + Optional(e), u) == FindEntry(entries, u)
    {
      FindReplaced(entries, e, OtherEntries(s), EntryIs(s), EntryIs(u));
    }
  }

  lemma TypeReplaced(entries: seq<TypeEntry>, e: Option<TypeEntry>, t: Id)
    requires e.Some? ==> e.value.typeSymbol == t
    ensures var r := Select(entries, OtherTypes(t)) + Optional(e);
            FindType(r, t) == e && forall u :: u != t ==> FindType(r, u) == FindType(entries, u)
  {
    FindReplaced(entries, e, OtherTypes(t), TypeIs(t), (x: TypeEntry) => false);
    forall u | u != t
      ensures FindType(Select(entries, OtherTypes(t)) + Optional(e), u) == FindType(entries, u)
    {
      FindReplaced(entries, e, OtherTypes(t), TypeIs(t), TypeIs(u));
    }
  }

  lemma ParamsReplaced(entries: seq<ParamNames>, e: Option<ParamNames>, s: Id)
    requires e.Some? ==> e.value.symbol == s
    ensures var r := Select(entries, OtherParams(s)) + Optional(e);
            FindParams(r, s) == e && forall u :: u != s ==> FindParams(r, u) == FindParams(entries, u)
  {
    FindReplaced(entries, e, OtherParams(s), ParamsAre(s), (x: ParamNames) => false);
    forall u | u != s
      ensures FindParams(Select(entries, OtherParams(s)) + Optional(e), u) == FindParams(entries, u)
    {
      FindReplaced(entries, e, OtherParams(s), ParamsAre(s), ParamsAre(u));
    }
  }

  lemma NamesReplaced(names: seq<NameBinding>, more: seq<NameBinding>, s: Id)
    requires forall b :: b in more ==> b.symbol == s
    ensures var r := Select(names, OtherNames(s)) + more;
            && NamesOf(r, s) == multiset(more) && (forall u :: u != s ==> NamesOf(r, u) == NamesOf(names, u))
            && forall b :: b in r <==> if b.symbol == s then b in more else b in names
  {
    SelectReplaced(names, more, OtherNames(s), NamesAre(s), (x: NameBinding) => false);
    forall u | u != s
      ensures NamesOf(Select(names, OtherNames(s)) + more, u) == NamesOf(names, u)
    {
      SelectReplaced(names, more, OtherNames(s), NamesAre(s), NamesAre(u));
    }
  }

  lemma TypeNamesReplaced(names: seq<TypeNameBinding>, more: seq<TypeNameBinding>, t: Id)
    requires forall b :: b in more ==> b.typeSymbol == t
    ensures var r := Select(names, OtherTypeNames(t)) + more;
            && TypeNamesOf(r, t) == multiset(more) && (forall u :: u != t ==> TypeNamesOf(r, u) == TypeNamesOf(names, u))
            && forall b :: b in r <==> if b.typeSymbol == t then b in more else b in names
  {
    SelectReplaced(names, more, OtherTypeNames(t), TypeNamesAre(t), (x: TypeNameBinding) => false);
    forall u | u != t
      ensures TypeNamesOf(Select(names, OtherTypeNames(t)) + more, u) == TypeNamesOf(names, u)
    {
      SelectReplaced(names, more, OtherTypeNames(t), TypeNamesAre(t), TypeNamesAre(u));
    }
  }

  lemma ExportsReplaced(exports: seq<ExportBinding>, more: seq<ExportBinding>, s: Id)
    requires forall b :: b in more ==> b.symbol == s
    ensures var r := Select(exports, OtherExports(s)) + more;
            && ExportsOf(r, s) == multiset(more) && (forall u :: u != s ==> ExportsOf(r, u) == ExportsOf(exports, u))
            && forall b :: b in r <==> if b.symbol == s then b in more else b in exports
  {
    SelectReplaced(exports, more, OtherExports(s), ExportsAre(s), (x: ExportBinding) => false);
    forall u | u != s
      ensures ExportsOf(Select(exports, OtherExports(s)) + more, u) == ExportsOf(exports, u)
    {
      SelectReplaced(exports, more, OtherExports(s), ExportsAre(s), ExportsAre(u));
    }
  }

  // ---------------------------------------------------------------- clashing names

  /** The last symbol each name was bound to decides; two symbols never pass. */
  method CheckNames(names: seq<NameBinding>) returns (ok: bool)
    ensures ok <==> forall a, b :: a in names && b in names && SameName(a, b) ==> a.symbol == b.symbol
  {
    var bound: map<(string, string), Id> := map[];
    var i := 0;
    while i < |names|
      invariant 0 <= i <= |names|
      invariant forall k :: 0 <= k < i ==> (names[k].module_, names[k].displayName) in bound
                                           && bound[(names[k].module_, names[k].displayName)] == names[k].symbol
      invariant forall key :: key in bound ==> exists k :: 0 <= k < i && key == (names[k].module_, names[k].displayName)
    {
      var key := (names[i].module_, names[i].displayName);
      if key in bound && bound[key] != names[i].symbol {
        var k :| 0 <= k < i && key == (names[k].module_, names[k].displayName);
        assert SameName(names[k], names[i]) && names[k] in names && names[i] in names;
        return false;
      }
      bound := bound[key := names[i].symbol];
      i := i + 1;
    }
    return true;
  }

  method CheckTypeNames(names: seq<TypeNameBinding>) returns (ok: bool)
    ensures ok <==> forall a, b :: a in names && b in names && SameTypeName(a, b) ==> a.typeSymbol == b.typeSymbol
  {
    var bound: map<(string, string), Id> := map[];
    var i := 0;
    while i < |names|
      invariant 0 <= i <= |names|
      invariant forall k :: 0 <= k < i ==> (names[k].module_, names[k].displayName) in bound
                                           && bound[(names[k].module_, names[k].displayName)] == names[k].typeSymbol
      invariant forall key :: key in bound ==> exists k :: 0 <= k < i && key == (names[k].module_, names[k].displayName)
    {
      var key := (names[i].module_, names[i].displayName);
      if key in bound && bound[key] != names[i].typeSymbol {
        var k :| 0 <= k < i && key == (names[k].module_, names[k].displayName);
        assert SameTypeName(names[k], names[i]) && names[k] in names && names[i] in names;
        return false;
      }
      bound := bound[key := names[i].typeSymbol];
      i := i + 1;
    }
    return true;
  }

  method CheckExports(exports: seq<ExportBinding>) returns (ok: bool)
    ensures ok <==> forall a, b :: (a in exports && b in exports && a.exportedName == b.exportedName) ==> a.symbol == b.symbol
  {
    var bound: map<string, Id> := map[];
    var i := 0;
    while i < |exports|
      invariant 0 <= i <= |exports|
      invariant forall k :: 0 <= k < i ==> exports[k].exportedName in bound && bound[exports[k].exportedName] == exports[k].symbol
      invariant forall key :: key in bound ==> exists k :: 0 <= k < i && key == exports[k].exportedName
    {
      var key := exports[i].exportedName;
      if key in bound && bound[key] != exports[i].symbol {
        var k :| 0 <= k < i && key == exports[k].exportedName;
        assert exports[k] in exports && exports[i] in exports;
        return false;
      }
      bound := bound[key := exports[i].symbol];
      i := i + 1;
    }
    return true;
  }

  // ---------------------------------------------------------------- the merge

  lemma NextIsFor(ancestor: Root, target: Root, source: Root, s: Id)
    ensures Next(ancestor, target, source, s).Ok? ==> StateFor(Next(ancestor, target, source, s).value, s)
  {
    hide StateOf, StateFor, NextState;
    StatesAreFor(ancestor, s);
    StatesAreFor(target, s);
    StatesAreFor(source, s);
    NextStateFor(StateOf(ancestor, s), StateOf(target, s), StateOf(source, s), s);
  }

  lemma StatesAreFor(root: Root, s: Id)
    ensures StateFor(StateOf(root, s), s)
  {
    hide Select, Find, NamesOf, ExportsOf, FindEntry, FindParams;
  }

  lemma NextStateFor(base: SymbolState, left: SymbolState, right: SymbolState, s: Id)
    requires StateFor(base, s) && StateFor(left, s) && StateFor(right, s)
    ensures NextState(base, left, right).Ok? ==> StateFor(NextState(base, left, right).value, s)
  {
    hide MergeSymbolState;
    MergedStateFor(base, left, right, s);
  }

  lemma MergedStateFor(base: SymbolState, left: SymbolState, right: SymbolState, s: Id)
    requires StateFor(base, s) && StateFor(left, s) && StateFor(right, s)
    ensures MergeSymbolState(base, left, right).Ok? ==> StateFor(MergeSymbolState(base, left, right).value, s)
  {
    hide StateFor;
    if MergeSymbolState(base, left, right).Ok? {
      MixedStateFor(left, right, MergeSymbolState(base, left, right).value, s);
    }
  }

  /** Facets taken from two states about the same symbol. */
  lemma MixedStateFor(left: SymbolState, right: SymbolState, mixed: SymbolState, s: Id)
    requires StateFor(left, s) && StateFor(right, s)
    requires mixed.entry == left.entry || mixed.entry == right.entry
    requires mixed.names == left.names || mixed.names == right.names
    requires mixed.params == left.params || mixed.params == right.params
    requires mixed.exports == left.exports || mixed.exports == right.exports
    requires left.entry.Some? == right.entry.Some?
    ensures StateFor(mixed, s)
  {
  }

  lemma NextTypeIsFor(ancestor: Root, target: Root, source: Root, t: Id)
    ensures NextType(ancestor, target, source, t).Ok? ==> TypeStateFor(NextType(ancestor, target, source, t).value, t)
  {
    hide TypeStateOf, TypeStateFor, NextTypeState;
    TypeStatesAreFor(ancestor, t);
    TypeStatesAreFor(target, t);
    TypeStatesAreFor(source, t);
    NextTypeStateFor(TypeStateOf(ancestor, t), TypeStateOf(target, t), TypeStateOf(source, t), t);
  }

  lemma TypeStatesAreFor(root: Root, t: Id)
    ensures TypeStateFor(TypeStateOf(root, t), t)
  {
    hide Select, Find, TypeNamesOf, FindType;
  }

  lemma NextTypeStateFor(base: TypeState, left: TypeState, right: TypeState, t: Id)
    requires TypeStateFor(base, t) && TypeStateFor(left, t) && TypeStateFor(right, t)
    ensures NextTypeState(base, left, right).Ok? ==> TypeStateFor(NextTypeState(base, left, right).value, t)
  {
  }

  function RootSymbols(root: Root): set<Id> {
    (set e | e in root.symbols :: e.symbol) + (set b | b in root.names :: b.symbol)
    + (set e | e in root.paramNames :: e.symbol) + (set b | b in root.exports :: b.symbol)
  }

  function RootTypes(root: Root): set<Id> {
    (set e | e in root.types :: e.typeSymbol) + (set b | b in root.typeNames :: b.typeSymbol)
  }

  lemma UnmentionedIsAbsent(root: Root, s: Id)
    ensures s !in RootSymbols(root) ==> StateOf(root, s) == ABSENT
    ensures s !in RootTypes(root) ==> TypeStateOf(root, s) == ABSENT_TYPE
  {
  }

  /** How far the symbol loop has come: done symbols are merged, the others are
      still as in the target. */
  ghost predicate SymbolsMerged(ancestor: Root, target: Root, source: Root, m: Root, todo: set<Id>) {
    && (forall s :: s !in todo ==> Next(ancestor, target, source, s) == Ok(StateOf(m, s)))
    && (forall s :: s in todo ==> StateOf(m, s) == StateOf(target, s))
    && (forall b: NameBinding :: b.symbol !in todo ==> (b in m.names <==> HoldsName(ancestor, target, source, b)))
    && (forall b: NameBinding :: b.symbol in todo ==> (b in m.names <==> b in target.names))
    && (forall b: ExportBinding :: b.symbol !in todo ==> (b in m.exports <==> HoldsExport(ancestor, target, source, b)))
    && (forall b: ExportBinding :: b.symbol in todo ==> (b in m.exports <==> b in target.exports))
  }

  ghost predicate TypesMerged(ancestor: Root, target: Root, source: Root, m: Root, todo: set<Id>) {
    && (forall t :: t !in todo ==> NextType(ancestor, target, source, t) == Ok(TypeStateOf(m, t)))
    && (forall t :: t in todo ==> TypeStateOf(m, t) == TypeStateOf(target, t))
    && (forall b: TypeNameBinding :: b.typeSymbol !in todo ==> (b in m.typeNames <==> HoldsTypeName(ancestor, target, source, b)))
    && (forall b: TypeNameBinding :: b.typeSymbol in todo ==> (b in m.typeNames <==> b in target.typeNames))
  }

  lemma SymbolsStart(ancestor: Root, target: Root, source: Root)
    ensures SymbolsMerged(ancestor, target, source, target, RootSymbols(ancestor) + RootSymbols(target) + RootSymbols(source))
  {
    hide StateOf, RootSymbols, NextState, Rewritten;
    var all := RootSymbols(ancestor) + RootSymbols(target) + RootSymbols(source);
    forall s | s !in all
      ensures Next(ancestor, target, source, s) == Ok(StateOf(target, s)) && !Rewritten(ancestor, source, s)
    {
      UnmentionedIsAbsent(ancestor, s);
      UnmentionedIsAbsent(source, s);
      UnchangedState(StateOf(ancestor, s), StateOf(target, s), StateOf(source, s));
      RewrittenIs(ancestor, source, s);
    }
  }

  lemma TypesStart(ancestor: Root, target: Root, source: Root)
    ensures TypesMerged(ancestor, target, source, target, RootTypes(ancestor) + RootTypes(target) + RootTypes(source))
  {
    hide TypeStateOf, RootTypes, MergeTypeState, TypeRewritten;
    var all := RootTypes(ancestor) + RootTypes(target) + RootTypes(source);
    forall t | t !in all
      ensures NextType(ancestor, target, source, t) == Ok(TypeStateOf(target, t)) && !TypeRewritten(ancestor, source, t)
    {
      UnmentionedIsAbsent(ancestor, t);
      UnmentionedIsAbsent(source, t);
      RewrittenIs(ancestor, source, t);
    }
  }

  lemma SymbolRewritten(ancestor: Root, target: Root, source: Root, m: Root, now: Root, todo: set<Id>, s: Id)
    requires SymbolsMerged(ancestor, target, source, m, todo) && Rewritten(ancestor, source, s)
    requires Next(ancestor, target, source, s) == Ok(StateOf(now, s))
    requires forall u :: u != s ==> StateOf(now, u) == StateOf(m, u)
    requires forall b :: b in now.names <==> if b.symbol == s then b in StateOf(now, s).names else b in m.names
    requires forall b :: b in now.exports <==> if b.symbol == s then b in StateOf(now, s).exports else b in m.exports
    ensures SymbolsMerged(ancestor, target, source, now, todo - {s})
  {
    hide StateOf, Next, Rewritten;
  }

  lemma SymbolKept(ancestor: Root, target: Root, source: Root, m: Root, todo: set<Id>, s: Id)
    requires SymbolsMerged(ancestor, target, source, m, todo) && s in todo && !Rewritten(ancestor, source, s)
    ensures SymbolsMerged(ancestor, target, source, m, todo - {s})
  {
    hide StateOf, Rewritten;
    assert Next(ancestor, target, source, s) == Ok(StateOf(target, s)) by {
      UnchangedState(StateOf(ancestor, s), StateOf(target, s), StateOf(source, s));
      RewrittenIs(ancestor, source, s);
    }
    hide Next;
  }

  lemma RewrittenIs(ancestor: Root, source: Root, s: Id)
    ensures Rewritten(ancestor, source, s) <==> StateOf(source, s) != StateOf(ancestor, s)
    ensures TypeRewritten(ancestor, source, s) <==> TypeStateOf(source, s) != TypeStateOf(ancestor, s)
  {
  }

  lemma UnchangedState(base: SymbolState, left: SymbolState, right: SymbolState)
    ensures right == base ==> NextState(base, left, right) == Ok(left)
  {
  }

  lemma TypeRewrittenStep(ancestor: Root, target: Root, source: Root, m: Root, now: Root, todo: set<Id>, t: Id)
    requires TypesMerged(ancestor, target, source, m, todo) && TypeRewritten(ancestor, source, t)
    requires NextType(ancestor, target, source, t) == Ok(TypeStateOf(now, t))
    requires forall u :: u != t ==> TypeStateOf(now, u) == TypeStateOf(m, u)
    requires forall b :: b in now.typeNames <==> if b.typeSymbol == t then b in TypeStateOf(now, t).names else b in m.typeNames
    ensures TypesMerged(ancestor, target, source, now, todo - {t})
  {
    hide TypeStateOf, NextType, TypeRewritten;
  }

  lemma TypeKept(ancestor: Root, target: Root, source: Root, m: Root, todo: set<Id>, t: Id)
    requires TypesMerged(ancestor, target, source, m, todo) && t in todo && !TypeRewritten(ancestor, source, t)
    ensures TypesMerged(ancestor, target, source, m, todo - {t})
  {
    hide TypeStateOf, TypeRewritten;
    RewrittenIs(ancestor, source, t);
    assert NextType(ancestor, target, source, t) == Ok(TypeStateOf(target, t));
    hide NextType;
  }

  /** The symbol loop over every symbol any of the three roots mentions. */
  method MergeSymbols(ancestor: Root, target: Root, source: Root, draft: Draft) returns (r: Option<Conflict>)
    requires draft.Contents() == target
    modifies draft`symbols, draft`names, draft`paramNames, draft`exports
    ensures r.None? ==> SymbolsMerged(ancestor, target, source, draft.Contents(), {})
    ensures r.Some? ==> exists s :: Next(ancestor, target, source, s) == Err(r.value)
  {
    hide StateOf, NextState, RootSymbols, SymbolsMerged, Rewritten, StateFor;
    SymbolsStart(ancestor, target, source);
    var todo := RootSymbols(ancestor) + RootSymbols(target) + RootSymbols(source);
    while todo != {}
      invariant SymbolsMerged(ancestor, target, source, draft.Contents(), todo)
      decreases |todo|
    {
      var s :| s in todo;
      var base, left, right := StateOf(ancestor, s), StateOf(target, s), StateOf(source, s);
      RewrittenIs(ancestor, source, s);
      if right != base {
        var next := NextState(base, left, right);
        if next.Err? {
          assert Next(ancestor, target, source, s) == Err(next.error);
          return Some(next.error);
        }
        NextIsFor(ancestor, target, source, s);
        ghost var before := draft.Contents();
        draft.ReplaceSymbolState(s, next.value);
        SymbolRewritten(ancestor, target, source, before, draft.Contents(), todo, s);
      } else {
        SymbolKept(ancestor, target, source, draft.Contents(), todo, s);
      }
      todo := todo - {s};
    }
    return None;
  }

  method MergeTypes(ancestor: Root, target: Root, source: Root, draft: Draft) returns (r: Option<Conflict>)
    requires draft.types == target.types && draft.typeNames == target.typeNames
    modifies draft`types, draft`typeNames
    ensures r.None? ==> TypesMerged(ancestor, target, source, draft.Contents(), {})
    ensures r.Some? ==> exists t :: NextType(ancestor, target, source, t) == Err(r.value)
  {
    hide NextTypeState, RootTypes, TypesMerged, TypeStateOf, TypeRewritten, TypeStateFor;
    TypesStart(ancestor, target, source);
    var todo := RootTypes(ancestor) + RootTypes(target) + RootTypes(source);
    SameTypesMerged(ancestor, target, source, draft.Contents(), todo);
    while todo != {}
      invariant TypesMerged(ancestor, target, source, draft.Contents(), todo)
      decreases |todo|
    {
      var t :| t in todo;
      var base, left, right := TypeStateOf(ancestor, t), TypeStateOf(target, t), TypeStateOf(source, t);
      RewrittenIs(ancestor, source, t);
      if right != base {
        var next := NextTypeState(base, left, right);
        if next.Err? {
          assert NextType(ancestor, target, source, t) == Err(next.error);
          return Some(next.error);
        }
        NextTypeIsFor(ancestor, target, source, t);
        ghost var before := draft.Contents();
        draft.ReplaceTypeState(t, next.value);
        TypeRewrittenStep(ancestor, target, source, before, draft.Contents(), todo, t);
      } else {
        TypeKept(ancestor, target, source, draft.Contents(), todo, t);
      }
      todo := todo - {t};
    }
    return None;
  }

  lemma SameTypesMerged(ancestor: Root, target: Root, source: Root, m: Root, todo: set<Id>)
    requires TypesMerged(ancestor, target, source, target, todo) && m.types == target.types && m.typeNames == target.typeNames
    ensures TypesMerged(ancestor, target, source, m, todo)
  {
    SameTypeLists(target, m);
  }

  lemma SameSymbolLists(a: Root, b: Root)
    requires a.symbols == b.symbols && a.names == b.names && a.paramNames == b.paramNames && a.exports == b.exports
    ensures forall s :: StateOf(a, s) == StateOf(b, s)
  {
  }

  lemma SameTypeLists(a: Root, b: Root)
    requires a.types == b.types && a.typeNames == b.typeNames
    ensures forall t :: TypeStateOf(a, t) == TypeStateOf(b, t)
  {
  }

  /** What the loops and the checks establish is acceptance and the merge. */
  lemma LoopsAccept(ancestor: Root, target: Root, source: Root, afterSymbols: Root, m: Root)
    requires SymbolsMerged(ancestor, target, source, afterSymbols, {}) && TypesMerged(ancestor, target, source, m, {})
    requires m.symbols == afterSymbols.symbols && m.names == afterSymbols.names
    requires m.paramNames == afterSymbols.paramNames && m.exports == afterSymbols.exports
    ensures forall s :: Next(ancestor, target, source, s) == Ok(StateOf(m, s))
    ensures forall t :: NextType(ancestor, target, source, t) == Ok(TypeStateOf(m, t))
    ensures Unambiguous(ancestor, target, source) <==> WellNamed(m)
    ensures HoldsExactly(ancestor, target, source, m)
  {
    hide StateOf, TypeStateOf, Next, NextType, HoldsName, HoldsTypeName, HoldsExport, SameName, SameTypeName;
    SameSymbolLists(afterSymbols, m);
    assert forall b :: b in m.names <==> HoldsName(ancestor, target, source, b);
    assert forall b :: b in m.exports <==> HoldsExport(ancestor, target, source, b);
    assert forall b :: b in m.typeNames <==> HoldsTypeName(ancestor, target, source, b);
  }

  /** The merge of two branches over their ancestor, on every input. */
  method MergeRoots(ancestor: Root, target: Root, source: Root) returns (r: Merged<Root>)
    ensures r.Ok? <==> Accepts(ancestor, target, source)
    ensures r.Ok? ==> IsMerge(ancestor, target, source, r.value) && HoldsExactly(ancestor, target, source, r.value)
    ensures r.Ok? && NoDangling(target) ==> NoDangling(r.value)
  {
    hide StateOf, TypeStateOf, Next, NextType, NoDangling, HoldsExactly, Unambiguous, SymbolsMerged, TypesMerged, MergeWhole;
    var draft := new Draft(target);
    var conflict := MergeSymbols(ancestor, target, source, draft);
    if conflict.Some? {
      return Err(conflict.value);
    }
    ghost var afterSymbols := draft.Contents();
    conflict := MergeTypes(ancestor, target, source, draft);
    if conflict.Some? {
      return Err(conflict.value);
    }
    draft.tests :- MergeWhole(ancestor.tests, target.tests, source.tests, Tests);
    draft.metadata :- MergeWhole(ancestor.metadata, target.metadata, source.metadata, Metadata);
    ghost var afterTypes := draft.Contents();
    WholesAside(ancestor, target, source, afterTypes.(tests := target.tests, metadata := target.metadata), afterTypes);
    LoopsAccept(ancestor, target, source, afterSymbols, draft.Contents());
    var namesOk := CheckNames(draft.names);
    if !namesOk {
      return Err(Conflict(NameConflict, Whole));
    }
    var typeNamesOk := CheckTypeNames(draft.typeNames);
    if !typeNamesOk {
      return Err(Conflict(NameConflict, Whole));
    }
    var exportsOk := CheckExports(draft.exports);
    if !exportsOk {
      return Err(Conflict(ExportConflict, Whole));
    }
    if NoDangling(target) {
      MergeMakesNoDangling(ancestor, target, source, draft.Contents());
    }
    return Ok(draft.Contents());
  }

  lemma WholesAside(ancestor: Root, target: Root, source: Root, m: Root, now: Root)
    requires TypesMerged(ancestor, target, source, m, {}) && now.types == m.types && now.typeNames == m.typeNames
    ensures TypesMerged(ancestor, target, source, now, {})
  {
    SameTypeLists(m, now);
  }
}
