/** Laws of the merge: no change is lost, the sides are interchangeable, and a
    side equal to the ancestor contributes nothing. */
module MergeLaws {
  import opened Wrappers
  import opened Lists
  import opened MergeModel

  // ---------------------------------------------------------------- facets

  /** A merged facet is what a side that changed it made of it, and the common
      value when neither did. */
  predicate Keeps<T(==)>(base: T, left: T, right: T, merged: T) {
    && (left != base ==> merged == left)
    && (right != base ==> merged == right)
    && (left == base && right == base ==> merged == base)
  }

  lemma SymbolFacets(base: SymbolState, left: SymbolState, right: SymbolState, s: Id)
    requires About(base, s) && About(left, s) && About(right, s)
    requires NextState(base, left, right).Ok?
    ensures var m := NextState(base, left, right).value;
            && Keeps(base.entry.Some?, left.entry.Some?, right.entry.Some?, m.entry.Some?)
            && Keeps(DefinitionOf(base), DefinitionOf(left), DefinitionOf(right), DefinitionOf(m))
            && Keeps(SignatureOf(base), SignatureOf(left), SignatureOf(right), SignatureOf(m))
            && Keeps(base.names, left.names, right.names, m.names)
            && Keeps(base.params, left.params, right.params, m.params)
            && Keeps(base.exports, left.exports, right.exports, m.exports)
  {
  }

  lemma TypeFacets(base: TypeState, left: TypeState, right: TypeState)
    requires NextTypeState(base, left, right).Ok?
    ensures var m := NextTypeState(base, left, right).value;
            && Keeps(base.entry.Some?, left.entry.Some?, right.entry.Some?, m.entry.Some?)
            && Keeps(TypeDefOf(base), TypeDefOf(left), TypeDefOf(right), TypeDefOf(m))
            && Keeps(base.names, left.names, right.names, m.names)
  {
  }

  /** Nothing either branch changed is lost, for every symbol and type at once. */
  lemma NoChangeIsLost(ancestor: Root, target: Root, source: Root, m: Root)
    requires IsMerge(ancestor, target, source, m)
    ensures forall s :: var (base, left, right, merged) := (StateOf(ancestor, s), StateOf(target, s), StateOf(source, s), StateOf(m, s));
              && Keeps(DefinitionOf(base), DefinitionOf(left), DefinitionOf(right), DefinitionOf(merged))
              && Keeps(SignatureOf(base), SignatureOf(left), SignatureOf(right), SignatureOf(merged))
              && Keeps(base.names, left.names, right.names, merged.names)
              && Keeps(base.params, left.params, right.params, merged.params)
              && Keeps(base.exports, left.exports, right.exports, merged.exports)
    ensures forall t :: var (base, left, right, merged) := (TypeStateOf(ancestor, t), TypeStateOf(target, t), TypeStateOf(source, t), TypeStateOf(m, t));
              && Keeps(TypeDefOf(base), TypeDefOf(left), TypeDefOf(right), TypeDefOf(merged))
              && Keeps(base.names, left.names, right.names, merged.names)
    ensures Keeps(ancestor.tests, target.tests, source.tests, m.tests)
    ensures Keeps(ancestor.metadata, target.metadata, source.metadata, m.metadata)
  {
    hide StateOf, TypeStateOf, Keeps, NextState, NextTypeState;
    forall s
      ensures var (base, left, right, merged) := (StateOf(ancestor, s), StateOf(target, s), StateOf(source, s), StateOf(m, s));
              && Keeps(DefinitionOf(base), DefinitionOf(left), DefinitionOf(right), DefinitionOf(merged))
              && Keeps(SignatureOf(base), SignatureOf(left), SignatureOf(right), SignatureOf(merged))
              && Keeps(base.names, left.names, right.names, merged.names)
              && Keeps(base.params, left.params, right.params, merged.params)
              && Keeps(base.exports, left.exports, right.exports, merged.exports)
    {
      assert Next(ancestor, target, source, s) == Ok(StateOf(m, s));
      StatesAreAbout(ancestor, s);
      StatesAreAbout(target, s);
      StatesAreAbout(source, s);
      SymbolFacets(StateOf(ancestor, s), StateOf(target, s), StateOf(source, s), s);
    }
    forall t
      ensures var (base, left, right, merged) := (TypeStateOf(ancestor, t), TypeStateOf(target, t), TypeStateOf(source, t), TypeStateOf(m, t));
              && Keeps(TypeDefOf(base), TypeDefOf(left), TypeDefOf(right), TypeDefOf(merged))
              && Keeps(base.names, left.names, right.names, merged.names)
    {
      assert NextType(ancestor, target, source, t) == Ok(TypeStateOf(m, t));
      TypeFacets(TypeStateOf(ancestor, t), TypeStateOf(target, t), TypeStateOf(source, t));
    }
    WholeKeeps(ancestor.tests, target.tests, source.tests, Tests);
    WholeKeeps(ancestor.metadata, target.metadata, source.metadata, Metadata);
  }

  lemma WholeKeeps<T>(base: T, left: T, right: T, facet: Facet)
    ensures var r := MergeWhole(base, left, right, facet); r.Ok? ==> Keeps(base, left, right, r.value)
  {
  }

  // ---------------------------------------------------------------- symmetry

  /** A state of `s` holds only entries of `s`. */
  predicate About(state: SymbolState, s: Id) { state.entry.Some? ==> state.entry.value.symbol == s }

  predicate AboutType(state: TypeState, t: Id) { state.entry.Some? ==> state.entry.value.typeSymbol == t }

  lemma StatesAgree(base: SymbolState, left: SymbolState, right: SymbolState, s: Id)
    requires About(base, s) && About(left, s) && About(right, s)
    ensures NextState(base, left, right) == NextState(base, right, left)
  {
    hide MergeSymbolState;
    if left != base && right != base && left != right {
      ChangedStatesAgree(base, left, right, s);
    }
  }

  lemma ChangedStatesAgree(base: SymbolState, left: SymbolState, right: SymbolState, s: Id)
    requires About(base, s) && About(left, s) && About(right, s) && left != right
    ensures MergeSymbolState(base, left, right) == MergeSymbolState(base, right, left)
  {
  }

  lemma TypeStatesAgree(base: TypeState, left: TypeState, right: TypeState, t: Id)
    requires AboutType(base, t) && AboutType(left, t) && AboutType(right, t)
    ensures NextTypeState(base, left, right) == NextTypeState(base, right, left)
  {
  }

  lemma StatesAreAbout(root: Root, s: Id)
    ensures About(StateOf(root, s), s)
  {
  }

  lemma NextIsSymmetric(ancestor: Root, target: Root, source: Root, s: Id)
    ensures Next(ancestor, target, source, s) == Next(ancestor, source, target, s)
  {
    hide NextState;
    StatesAreAbout(ancestor, s);
    StatesAreAbout(target, s);
    StatesAreAbout(source, s);
    StatesAgree(StateOf(ancestor, s), StateOf(target, s), StateOf(source, s), s);
  }

  lemma NextTypeIsSymmetric(ancestor: Root, target: Root, source: Root, t: Id)
    ensures NextType(ancestor, target, source, t) == NextType(ancestor, source, target, t)
  {
    hide NextTypeState;
    TypeStatesAgree(TypeStateOf(ancestor, t), TypeStateOf(target, t), TypeStateOf(source, t), t);
  }

  // ---------------------------------------------------------------- leftover bindings

  /** A name of the merged state of its own symbol. */
  predicate StateName(ancestor: Root, target: Root, source: Root, b: NameBinding) {
    Next(ancestor, target, source, b.symbol).Ok? && b in Next(ancestor, target, source, b.symbol).value.names
  }

  predicate StateExport(ancestor: Root, target: Root, source: Root, b: ExportBinding) {
    Next(ancestor, target, source, b.symbol).Ok? && b in Next(ancestor, target, source, b.symbol).value.exports
  }

  predicate StateTypeName(ancestor: Root, target: Root, source: Root, b: TypeNameBinding) {
    NextType(ancestor, target, source, b.typeSymbol).Ok? && b in NextType(ancestor, target, source, b.typeSymbol).value.names
  }

  /** A binding the target holds for a symbol it does not define, and that the
      merge leaves because the source did not change that symbol. */
  predicate LeftName(ancestor: Root, target: Root, source: Root, b: NameBinding) {
    b in target.names && FindEntry(target.symbols, b.symbol).None? && !Rewritten(ancestor, source, b.symbol)
  }

  predicate LeftExport(ancestor: Root, target: Root, source: Root, b: ExportBinding) {
    b in target.exports && FindEntry(target.symbols, b.symbol).None? && !Rewritten(ancestor, source, b.symbol)
  }

  predicate LeftTypeName(ancestor: Root, target: Root, source: Root, b: TypeNameBinding) {
    b in target.typeNames && FindType(target.types, b.typeSymbol).None? && !TypeRewritten(ancestor, source, b.typeSymbol)
  }

  /** The merged lists are the merged states' bindings and the leftovers. */
  lemma HoldsIsStateOrLeft(ancestor: Root, target: Root, source: Root)
    ensures forall b :: HoldsName(ancestor, target, source, b)
                        <==> StateName(ancestor, target, source, b) || LeftName(ancestor, target, source, b)
    ensures forall b :: HoldsExport(ancestor, target, source, b)
                        <==> StateExport(ancestor, target, source, b) || LeftExport(ancestor, target, source, b)
    ensures forall b :: HoldsTypeName(ancestor, target, source, b)
                        <==> StateTypeName(ancestor, target, source, b) || LeftTypeName(ancestor, target, source, b)
  {
    hide MergeSymbolState, MergeTypeState;
  }

  /** The merged states alone give no name to two things. */
  ghost predicate StatesUnambiguous(ancestor: Root, target: Root, source: Root) {
    && (forall x, y :: (StateName(ancestor, target, source, x) && StateName(ancestor, target, source, y)
                        && SameName(x, y)) ==> x.symbol == y.symbol)
    && (forall x, y :: (StateTypeName(ancestor, target, source, x) && StateTypeName(ancestor, target, source, y)
                        && SameTypeName(x, y)) ==> x.typeSymbol == y.typeSymbol)
    && (forall x, y :: (StateExport(ancestor, target, source, x) && StateExport(ancestor, target, source, y)
                        && x.exportedName == y.exportedName) ==> x.symbol == y.symbol)
  }

  /** No leftover of the target clashes with a merged state or another leftover. */
  ghost predicate LeftoversFit(ancestor: Root, target: Root, source: Root) {
    && (forall x, y :: (LeftName(ancestor, target, source, x)
                        && (StateName(ancestor, target, source, y) || LeftName(ancestor, target, source, y))
                        && SameName(x, y)) ==> x.symbol == y.symbol)
    && (forall x, y :: (LeftTypeName(ancestor, target, source, x)
                        && (StateTypeName(ancestor, target, source, y) || LeftTypeName(ancestor, target, source, y))
                        && SameTypeName(x, y)) ==> x.typeSymbol == y.typeSymbol)
    && (forall x, y :: (LeftExport(ancestor, target, source, x)
                        && (StateExport(ancestor, target, source, y) || LeftExport(ancestor, target, source, y))
                        && x.exportedName == y.exportedName) ==> x.symbol == y.symbol)
  }

  lemma AmbiguitySplits(ancestor: Root, target: Root, source: Root)
    ensures Unambiguous(ancestor, target, source)
            <==> StatesUnambiguous(ancestor, target, source) && LeftoversFit(ancestor, target, source)
  {
    HoldsIsStateOrLeft(ancestor, target, source);
    NamesSplit(ancestor, target, source);
    TypeNamesSplit(ancestor, target, source);
    ExportsSplit(ancestor, target, source);
    hide HoldsName, HoldsExport, HoldsTypeName, StateName, StateExport, StateTypeName, LeftName, LeftExport, LeftTypeName, SameName,
         SameTypeName;
  }

  lemma NamesSplit(ancestor: Root, target: Root, source: Root)
    requires forall b :: HoldsName(ancestor, target, source, b)
                         <==> StateName(ancestor, target, source, b) || LeftName(ancestor, target, source, b)
    ensures (forall x, y :: (HoldsName(ancestor, target, source, x) && HoldsName(ancestor, target, source, y) && SameName(x, y))
                            ==> x.symbol == y.symbol)
            <==> (&& (forall x, y :: (StateName(ancestor, target, source, x) && StateName(ancestor, target, source, y)
                                      && SameName(x, y)) ==> x.symbol == y.symbol)
                  && (forall x, y :: (LeftName(ancestor, target, source, x)
                                      && (StateName(ancestor, target, source, y) || LeftName(ancestor, target, source, y))
                                      && SameName(x, y)) ==> x.symbol == y.symbol))
  {
    hide HoldsName, StateName, LeftName;
  }

  lemma TypeNamesSplit(ancestor: Root, target: Root, source: Root)
    requires forall b :: HoldsTypeName(ancestor, target, source, b)
                         <==> StateTypeName(ancestor, target, source, b) || LeftTypeName(ancestor, target, source, b)
    ensures (forall x, y :: (HoldsTypeName(ancestor, target, source, x) && HoldsTypeName(ancestor, target, source, y)
                             && SameTypeName(x, y)) ==> x.typeSymbol == y.typeSymbol)
            <==> (&& (forall x, y :: (StateTypeName(ancestor, target, source, x) && StateTypeName(ancestor, target, source, y)
                                      && SameTypeName(x, y)) ==> x.typeSymbol == y.typeSymbol)
                  && (forall x, y :: (LeftTypeName(ancestor, target, source, x)
                                      && (StateTypeName(ancestor, target, source, y) || LeftTypeName(ancestor, target, source, y))
                                      && SameTypeName(x, y)) ==> x.typeSymbol == y.typeSymbol))
  {
    hide HoldsTypeName, StateTypeName, LeftTypeName;
  }

  lemma ExportsSplit(ancestor: Root, target: Root, source: Root)
    requires forall b :: HoldsExport(ancestor, target, source, b)
                         <==> StateExport(ancestor, target, source, b) || LeftExport(ancestor, target, source, b)
    ensures (forall x, y :: (HoldsExport(ancestor, target, source, x) && HoldsExport(ancestor, target, source, y)
                             && x.exportedName == y.exportedName) ==> x.symbol == y.symbol)
            <==> (&& (forall x, y :: (StateExport(ancestor, target, source, x) && StateExport(ancestor, target, source, y)
                                      && x.exportedName == y.exportedName) ==> x.symbol == y.symbol)
                  && (forall x, y :: (LeftExport(ancestor, target, source, x)
                                      && (StateExport(ancestor, target, source, y) || LeftExport(ancestor, target, source, y))
                                      && x.exportedName == y.exportedName) ==> x.symbol == y.symbol))
  {
    hide HoldsExport, StateExport, LeftExport;
  }

  /** The part of acceptance that does not depend on which branch is which. */
  ghost predicate StatesMerge(ancestor: Root, target: Root, source: Root) {
    && (forall s :: Next(ancestor, target, source, s).Ok?)
    && (forall t :: NextType(ancestor, target, source, t).Ok?)
    && MergeWhole(ancestor.tests, target.tests, source.tests, Tests).Ok?
    && MergeWhole(ancestor.metadata, target.metadata, source.metadata, Metadata).Ok?
    && StatesUnambiguous(ancestor, target, source)
  }

  /** A merge succeeds exactly when the states merge and the target's leftovers fit. */
  lemma AcceptsExactly(ancestor: Root, target: Root, source: Root)
    ensures Accepts(ancestor, target, source) <==> StatesMerge(ancestor, target, source) && LeftoversFit(ancestor, target, source)
  {
    hide Unambiguous, StatesUnambiguous, LeftoversFit, Next, NextType;
    AmbiguitySplits(ancestor, target, source);
  }

  /** Swapping the branches never changes the content of the result. */
  lemma MergeContentIsSymmetric(ancestor: Root, target: Root, source: Root)
    ensures forall m :: IsMerge(ancestor, target, source, m) <==> IsMerge(ancestor, source, target, m)
  {
    hide StateOf, TypeStateOf, NextState, NextTypeState, Next, NextType;
    EachNextIsSymmetric(ancestor, target, source);
  }

  lemma EachNextIsSymmetric(ancestor: Root, target: Root, source: Root)
    ensures forall s :: Next(ancestor, target, source, s) == Next(ancestor, source, target, s)
    ensures forall t :: NextType(ancestor, target, source, t) == NextType(ancestor, source, target, t)
  {
    hide Next, NextType;
    forall s
      ensures Next(ancestor, target, source, s) == Next(ancestor, source, target, s)
    {
      NextIsSymmetric(ancestor, target, source, s);
    }
    forall t
      ensures NextType(ancestor, target, source, t) == NextType(ancestor, source, target, t)
    {
      NextTypeIsSymmetric(ancestor, target, source, t);
    }
  }

  lemma StatesMergeSymmetrically(ancestor: Root, target: Root, source: Root)
    ensures StatesMerge(ancestor, target, source) <==> StatesMerge(ancestor, source, target)
  {
    hide Next, NextType, SameName, SameTypeName;
    EachNextIsSymmetric(ancestor, target, source);
    assert forall b :: StateName(ancestor, target, source, b) <==> StateName(ancestor, source, target, b);
    assert forall b :: StateExport(ancestor, target, source, b) <==> StateExport(ancestor, source, target, b);
    assert forall b :: StateTypeName(ancestor, target, source, b) <==> StateTypeName(ancestor, source, target, b);
  }

  /** On every input: both orders succeed or fail together, unless the states
      merge and the leftovers of just one of the two branches fit. */
  lemma SymmetryExactly(ancestor: Root, target: Root, source: Root)
    ensures (Accepts(ancestor, target, source) <==> Accepts(ancestor, source, target))
            <==> (StatesMerge(ancestor, target, source)
                  ==> (LeftoversFit(ancestor, target, source) <==> LeftoversFit(ancestor, source, target)))
  {
    hide Accepts, StatesMerge, LeftoversFit;
    AcceptsExactly(ancestor, target, source);
    AcceptsExactly(ancestor, source, target);
    StatesMergeSymmetrically(ancestor, target, source);
  }

  /** Every binding is for a symbol or type the root defines. */
  predicate NoDangling(root: Root) {
    && (forall b :: b in root.names ==> FindEntry(root.symbols, b.symbol).Some?)
    && (forall b :: b in root.exports ==> FindEntry(root.symbols, b.symbol).Some?)
    && (forall b :: b in root.typeNames ==> FindType(root.types, b.typeSymbol).Some?)
  }

  lemma NothingLeft(ancestor: Root, target: Root, source: Root)
    requires NoDangling(target)
    ensures LeftoversFit(ancestor, target, source)
  {
    hide Rewritten, TypeRewritten, StateName, StateExport, StateTypeName;
  }

  /** Roots that bind only what they define merge in either order. */
  lemma MergeIsSymmetric(ancestor: Root, target: Root, source: Root)
    requires NoDangling(target) && NoDangling(source)
    ensures Accepts(ancestor, target, source) <==> Accepts(ancestor, source, target)
  {
    hide Accepts, StatesMerge, LeftoversFit;
    NothingLeft(ancestor, target, source);
    NothingLeft(ancestor, source, target);
    SymmetryExactly(ancestor, target, source);
  }

  /** The lists of a merged root are what the merge holds. */
  ghost predicate HoldsExactly(ancestor: Root, target: Root, source: Root, m: Root) {
    && (forall b :: b in m.names <==> HoldsName(ancestor, target, source, b))
    && (forall b :: b in m.exports <==> HoldsExport(ancestor, target, source, b))
    && (forall b :: b in m.typeNames <==> HoldsTypeName(ancestor, target, source, b))
  }

  /** Merging makes no dangling binding, so roots made by merging such roots
      never have one. */
  lemma MergeMakesNoDangling(ancestor: Root, target: Root, source: Root, m: Root)
    requires NoDangling(target) && IsMerge(ancestor, target, source, m) && HoldsExactly(ancestor, target, source, m)
    ensures NoDangling(m)
  {
    hide NextState, NextTypeState, HoldsName, HoldsExport, HoldsTypeName, Rewritten, TypeRewritten;
    HoldsIsStateOrLeft(ancestor, target, source);
    forall b | b in m.names
      ensures FindEntry(m.symbols, b.symbol).Some?
    {
      assert StateName(ancestor, target, source, b);
      assert Next(ancestor, target, source, b.symbol) == Ok(StateOf(m, b.symbol));
    }
    forall b | b in m.exports
      ensures FindEntry(m.symbols, b.symbol).Some?
    {
      assert StateExport(ancestor, target, source, b);
      assert Next(ancestor, target, source, b.symbol) == Ok(StateOf(m, b.symbol));
    }
    forall b | b in m.typeNames
      ensures FindType(m.types, b.typeSymbol).Some?
    {
      assert StateTypeName(ancestor, target, source, b);
      assert NextType(ancestor, target, source, b.typeSymbol) == Ok(TypeStateOf(m, b.typeSymbol));
    }
  }

  const EMPTY := Root([], [], [], [], [], [], [], map[])

  /** A root with one symbol and one name for it. */
  function Defining(entry: SymbolEntry, name: NameBinding): Root { EMPTY.(symbols := [entry], names := [name]) }

  /** A root with a name for a symbol it does not define. */
  function Leftover(name: NameBinding): Root { EMPTY.(names := [name]) }

  lemma StatesHere(entry: SymbolEntry, added: NameBinding, left: NameBinding)
    requires added.symbol == entry.symbol
    ensures forall u :: StateOf(EMPTY, u) == StateOf(Leftover(left), u) == ABSENT
    ensures forall u :: u != entry.symbol ==> StateOf(Defining(entry, added), u) == ABSENT
    ensures StateOf(Defining(entry, added), entry.symbol) == SymbolState(Some(entry), multiset{added}, None, multiset{})
    ensures forall t :: TypeStateOf(EMPTY, t) == TypeStateOf(Leftover(left), t) == TypeStateOf(Defining(entry, added), t) == ABSENT_TYPE
  {
    SelectAll([added], NamesAre(entry.symbol));
    assert entry in Defining(entry, added).symbols;
  }

  /** With a dangling name the order of the branches matters: a name left over in
      the target can clash with one the source adds, while the same name left
      over in the source is never looked at. */
  lemma DanglingBreaksSymmetry(entry: SymbolEntry, added: NameBinding, left: NameBinding)
    requires added.symbol == entry.symbol && left.symbol != entry.symbol && SameName(added, left)
    ensures !Accepts(EMPTY, Leftover(left), Defining(entry, added))
    ensures Accepts(EMPTY, Defining(entry, added), Leftover(left))
  {
    hide StateOf, TypeStateOf, SameName, MergeSymbolState, MergeTypeState;
    var target, source := Leftover(left), Defining(entry, added);
    StatesHere(entry, added, left);
    assert HoldsName(EMPTY, target, source, left) && HoldsName(EMPTY, target, source, added);
    assert forall b :: HoldsName(EMPTY, source, target, b) ==> b == added;
    assert forall b :: !HoldsExport(EMPTY, source, target, b);
    assert forall b :: !HoldsTypeName(EMPTY, source, target, b);
  }

  // ---------------------------------------------------------------- identities

  /** Two roots that say the same about every symbol, type, test and key. */
  ghost predicate SameContent(a: Root, b: Root) {
    && (forall s :: StateOf(a, s) == StateOf(b, s)) && (forall t :: TypeStateOf(a, t) == TypeStateOf(b, t))
    && a.tests == b.tests && a.metadata == b.metadata
  }

  /** A root none of whose names, type names or exports is bound twice. */
  ghost predicate WellNamed(root: Root) {
    && (forall a, b :: a in root.names && b in root.names && SameName(a, b) ==> a.symbol == b.symbol)
    && (forall a, b :: a in root.typeNames && b in root.typeNames && SameTypeName(a, b) ==> a.typeSymbol == b.typeSymbol)
    && (forall a, b :: a in root.exports && b in root.exports && a.exportedName == b.exportedName ==> a.symbol == b.symbol)
  }

  /** A source with nothing new leaves the target. */
  lemma UnchangedSource(ancestor: Root, target: Root, source: Root)
    requires SameContent(source, ancestor)
    ensures Accepts(ancestor, target, source) <==> WellNamed(target)
    ensures forall m :: IsMerge(ancestor, target, source, m) <==> SameContent(target, m)
  {
    hide StateOf, TypeStateOf, MergeSymbolState, MergeTypeState;
    assert forall s :: Next(ancestor, target, source, s) == Ok(StateOf(target, s)) && !Rewritten(ancestor, source, s);
    assert forall t :: NextType(ancestor, target, source, t) == Ok(TypeStateOf(target, t)) && !TypeRewritten(ancestor, source, t);
    assert forall b :: HoldsName(ancestor, target, source, b) <==> b in target.names;
    assert forall b :: HoldsExport(ancestor, target, source, b) <==> b in target.exports;
    assert forall b :: HoldsTypeName(ancestor, target, source, b) <==> b in target.typeNames;
  }

  /** A root none of whose states share a name: dangling bindings do not count. */
  ghost predicate StatesWellNamed(root: Root) {
    && (forall x: NameBinding, y: NameBinding :: (x in StateOf(root, x.symbol).names && y in StateOf(root, y.symbol).names && SameName(x, y))
                       ==> x.symbol == y.symbol)
    && (forall x: TypeNameBinding, y: TypeNameBinding :: (x in TypeStateOf(root, x.typeSymbol).names && y in TypeStateOf(root, y.typeSymbol).names
                        && SameTypeName(x, y)) ==> x.typeSymbol == y.typeSymbol)
    && (forall x: ExportBinding, y: ExportBinding :: (x in StateOf(root, x.symbol).exports && y in StateOf(root, y.symbol).exports
                        && x.exportedName == y.exportedName) ==> x.symbol == y.symbol)
  }

  /** When the merged states are a root's own, they merge exactly when it is well named. */
  lemma OwnStatesMerge(ancestor: Root, target: Root, source: Root, root: Root)
    requires forall s :: Next(ancestor, target, source, s) == Ok(StateOf(root, s))
    requires forall t :: NextType(ancestor, target, source, t) == Ok(TypeStateOf(root, t))
    requires MergeWhole(ancestor.tests, target.tests, source.tests, Tests) == Ok(root.tests)
    requires MergeWhole(ancestor.metadata, target.metadata, source.metadata, Metadata) == Ok(root.metadata)
    ensures StatesMerge(ancestor, target, source) <==> StatesWellNamed(root)
    ensures forall m :: IsMerge(ancestor, target, source, m) <==> SameContent(root, m)
  {
    hide StateOf, TypeStateOf, Next, NextType, SameName, SameTypeName, MergeWhole;
    assert forall b: NameBinding :: StateName(ancestor, target, source, b) <==> b in StateOf(root, b.symbol).names;
    assert forall b :: StateExport(ancestor, target, source, b) <==> b in StateOf(root, b.symbol).exports;
    assert forall b :: StateTypeName(ancestor, target, source, b) <==> b in TypeStateOf(root, b.typeSymbol).names;
  }

  /** A target with nothing new takes the source, unless its own leftovers clash. */
  lemma UnchangedTarget(ancestor: Root, target: Root, source: Root)
    requires SameContent(target, ancestor)
    ensures Accepts(ancestor, target, source) <==> StatesWellNamed(source) && LeftoversFit(ancestor, target, source)
    ensures forall m :: IsMerge(ancestor, target, source, m) <==> SameContent(source, m)
  {
    hide StateOf, TypeStateOf, MergeSymbolState, MergeTypeState, StatesMerge, LeftoversFit, StatesWellNamed, Accepts, IsMerge;
    assert forall s :: Next(ancestor, target, source, s) == Ok(StateOf(source, s));
    assert forall t :: NextType(ancestor, target, source, t) == Ok(TypeStateOf(source, t));
    OwnStatesMerge(ancestor, target, source, source);
    AcceptsExactly(ancestor, target, source);
  }

  /** Two branches that made the same changes merge to them, unless leftovers of
      the target clash. */
  lemma EqualSides(ancestor: Root, target: Root, source: Root)
    requires SameContent(target, source)
    ensures Accepts(ancestor, target, source) <==> StatesWellNamed(target) && LeftoversFit(ancestor, target, source)
    ensures forall m :: IsMerge(ancestor, target, source, m) <==> SameContent(target, m)
  {
    hide StateOf, TypeStateOf, MergeSymbolState, MergeTypeState, StatesMerge, LeftoversFit, StatesWellNamed, Accepts, IsMerge;
    assert forall s :: Next(ancestor, target, source, s) == Ok(StateOf(target, s));
    assert forall t :: NextType(ancestor, target, source, t) == Ok(TypeStateOf(target, t));
    OwnStatesMerge(ancestor, target, source, target);
    AcceptsExactly(ancestor, target, source);
  }
}
