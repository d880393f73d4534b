/** Three-way merge of program roots. What a root says about one symbol is its
    state; the lists are compared without their order, as they are sorted before
    comparing and again when a root is stored. */
module MergeModel {
  import opened Wrappers
  import opened Lists

  type Id = string

  datatype SymbolEntry = SymbolEntry(symbol: Id, definition: string, signature: string)
  datatype TypeEntry = TypeEntry(typeSymbol: Id, typeDef: string)
  datatype NameBinding = NameBinding(module_: string, displayName: string, symbol: Id, preferred: bool)
  datatype TypeNameBinding = TypeNameBinding(module_: string, displayName: string, typeSymbol: Id, preferred: bool)
  datatype ParamNames = ParamNames(symbol: Id, names: seq<string>)
  datatype ExportBinding = ExportBinding(symbol: Id, exportedName: string)
  datatype TestBinding = TestBinding(name: string, test: string)

  datatype Root = Root(
    symbols: seq<SymbolEntry>,
    types: seq<TypeEntry>,
    names: seq<NameBinding>,
    typeNames: seq<TypeNameBinding>,
    paramNames: seq<ParamNames>,
    exports: seq<ExportBinding>,
    tests: seq<TestBinding>,
    metadata: map<string, string>)

  datatype Kind = DeleteConflict | SignatureConflict | DependencyConflict | NameConflict | ExportConflict
  datatype Facet = Presence | Signature | Definition | Names | Params | Exports | Tests | Metadata | Whole
  datatype Conflict = Conflict(kind: Kind, facet: Facet)

  type Merged<+T> = Result<T, Conflict>

  // ---------------------------------------------------------------- states

  datatype SymbolState = SymbolState(
    entry: Option<SymbolEntry>,
    names: multiset<NameBinding>,
    params: Option<ParamNames>,
    exports: multiset<ExportBinding>)

  datatype TypeState = TypeState(entry: Option<TypeEntry>, names: multiset<TypeNameBinding>)

  const ABSENT := SymbolState(None, multiset{}, None, multiset{})
  const ABSENT_TYPE := TypeState(None, multiset{})

  function EntryIs(s: Id): SymbolEntry -> bool { (e: SymbolEntry) => e.symbol == s }
  function TypeIs(t: Id): TypeEntry -> bool { (e: TypeEntry) => e.typeSymbol == t }
  function ParamsAre(s: Id): ParamNames -> bool { (e: ParamNames) => e.symbol == s }
  function NamesAre(s: Id): NameBinding -> bool { (b: NameBinding) => b.symbol == s }
  function TypeNamesAre(t: Id): TypeNameBinding -> bool { (b: TypeNameBinding) => b.typeSymbol == t }
  function ExportsAre(s: Id): ExportBinding -> bool { (b: ExportBinding) => b.symbol == s }

  function FindEntry(entries: seq<SymbolEntry>, s: Id): (r: Option<SymbolEntry>)
    ensures r.Some? ==> r.value.symbol == s
  {
    Find(entries, EntryIs(s))
  }

  function FindType(entries: seq<TypeEntry>, t: Id): (r: Option<TypeEntry>)
    ensures r.Some? ==> r.value.typeSymbol == t
  {
    Find(entries, TypeIs(t))
  }

  function FindParams(entries: seq<ParamNames>, s: Id): (r: Option<ParamNames>)
    ensures r.Some? ==> r.value.symbol == s
  {
    Find(entries, ParamsAre(s))
  }

  function NamesOf(names: seq<NameBinding>, s: Id): (r: multiset<NameBinding>)
    ensures forall b :: b in r <==> b in names && b.symbol == s
  {
    multiset(Select(names, NamesAre(s)))
  }

  function TypeNamesOf(names: seq<TypeNameBinding>, t: Id): (r: multiset<TypeNameBinding>)
    ensures forall b :: b in r <==> b in names && b.typeSymbol == t
  {
    multiset(Select(names, TypeNamesAre(t)))
  }

  function ExportsOf(exports: seq<ExportBinding>, s: Id): (r: multiset<ExportBinding>)
    ensures forall b :: b in r <==> b in exports && b.symbol == s
  {
    multiset(Select(exports, ExportsAre(s)))
  }

  /** A symbol without an entry is absent, whatever else names it. */
  function StateOf(root: Root, s: Id): SymbolState {
    match FindEntry(root.symbols, s)
    case None => ABSENT
    case Some(entry) =>
      SymbolState(Some(entry), NamesOf(root.names, s), FindParams(root.paramNames, s), ExportsOf(root.exports, s))
  }

  function TypeStateOf(root: Root, t: Id): TypeState {
    match FindType(root.types, t)
    case None => ABSENT_TYPE
    case Some(entry) => TypeState(Some(entry), TypeNamesOf(root.typeNames, t))
  }

  // ---------------------------------------------------------------- one symbol

  function SignatureOf(state: SymbolState): Option<string> {
    if state.entry.Some? then Some(state.entry.value.signature) else None
  }

  function DefinitionOf(state: SymbolState): Option<string> {
    if state.entry.Some? then Some(state.entry.value.definition) else None
  }

  function TypeDefOf(state: TypeState): Option<string> {
    if state.entry.Some? then Some(state.entry.value.typeDef) else None
  }

  predicate BothChanged<T(==)>(base: T, left: T, right: T) { left != base && right != base && left != right }

  function Pick<T(==)>(base: T, left: T, right: T): T { if right != base then right else left }

  /** Both sides changed the symbol, differently. */
  function MergeSymbolState(base: SymbolState, left: SymbolState, right: SymbolState): Merged<SymbolState> {
    if left.entry.Some? != base.entry.Some? || right.entry.Some? != base.entry.Some? then
      Err(Conflict(DeleteConflict, Presence))
    else if SignatureOf(left) != SignatureOf(base) || SignatureOf(right) != SignatureOf(base) then
      if && SignatureOf(left) == SignatureOf(right) && left.names == right.names && left.params == right.params
         && left.exports == right.exports && DefinitionOf(left) == DefinitionOf(right)
      then Ok(left)
      else Err(Conflict(SignatureConflict, Signature))
    else if BothChanged(DefinitionOf(base), DefinitionOf(left), DefinitionOf(right)) then
      Err(Conflict(DependencyConflict, Definition))
    else if BothChanged(base.names, left.names, right.names) then Err(Conflict(NameConflict, Names))
    else if BothChanged(base.params, left.params, right.params) then Err(Conflict(SignatureConflict, Params))
    else if BothChanged(base.exports, left.exports, right.exports) then Err(Conflict(ExportConflict, Exports))
    else
      Ok(SymbolState(
           Pick(base.entry, left.entry, right.entry), Pick(base.names, left.names, right.names),
           Pick(base.params, left.params, right.params), Pick(base.exports, left.exports, right.exports)))
  }

  function MergeTypeState(base: TypeState, left: TypeState, right: TypeState): Merged<TypeState> {
    if left.entry.Some? != base.entry.Some? || right.entry.Some? != base.entry.Some? then
      Err(Conflict(DeleteConflict, Presence))
    else if BothChanged(TypeDefOf(base), TypeDefOf(left), TypeDefOf(right)) then
      Err(Conflict(DependencyConflict, Definition))
    else if BothChanged(base.names, left.names, right.names) then Err(Conflict(NameConflict, Names))
    else
      Ok(TypeState(
           if TypeDefOf(right) != TypeDefOf(base) then right.entry else left.entry,
           Pick(base.names, left.names, right.names)))
  }

  /** The state the loop leaves for a symbol. */
  function NextState(base: SymbolState, left: SymbolState, right: SymbolState): Merged<SymbolState> {
    if right == base then Ok(left)
    else if left == base then Ok(right)
    else if left == right then Ok(left)
    else MergeSymbolState(base, left, right)
  }

  function NextTypeState(base: TypeState, left: TypeState, right: TypeState): Merged<TypeState> {
    if right == base then Ok(left)
    else if left == base then Ok(right)
    else if left == right then Ok(left)
    else MergeTypeState(base, left, right)
  }

  function Next(ancestor: Root, target: Root, source: Root, s: Id): Merged<SymbolState> {
    NextState(StateOf(ancestor, s), StateOf(target, s), StateOf(source, s))
  }

  function NextType(ancestor: Root, target: Root, source: Root, t: Id): Merged<TypeState> {
    NextTypeState(TypeStateOf(ancestor, t), TypeStateOf(target, t), TypeStateOf(source, t))
  }

  /** Tests and metadata are merged as wholes. */
  function MergeWhole<T(==)>(base: T, left: T, right: T, facet: Facet): Merged<T> {
    if right == base then Ok(left)
    else if left == base then Ok(right)
    else if left != right then Err(Conflict(DependencyConflict, facet))
    else Ok(left)
  }

  // ---------------------------------------------------------------- what the merged lists hold

  /** The loop rewrites a symbol's bindings only when the source changed it. */
  predicate Rewritten(ancestor: Root, source: Root, s: Id) { StateOf(source, s) != StateOf(ancestor, s) }

  predicate TypeRewritten(ancestor: Root, source: Root, t: Id) { TypeStateOf(source, t) != TypeStateOf(ancestor, t) }

  predicate HoldsName(ancestor: Root, target: Root, source: Root, b: NameBinding) {
    if Rewritten(ancestor, source, b.symbol)
    then Next(ancestor, target, source, b.symbol).Ok? && b in Next(ancestor, target, source, b.symbol).value.names
    else b in target.names
  }

  predicate HoldsExport(ancestor: Root, target: Root, source: Root, b: ExportBinding) {
    if Rewritten(ancestor, source, b.symbol)
    then Next(ancestor, target, source, b.symbol).Ok? && b in Next(ancestor, target, source, b.symbol).value.exports
    else b in target.exports
  }

  predicate HoldsTypeName(ancestor: Root, target: Root, source: Root, b: TypeNameBinding) {
    if TypeRewritten(ancestor, source, b.typeSymbol)
    then NextType(ancestor, target, source, b.typeSymbol).Ok? && b in NextType(ancestor, target, source, b.typeSymbol).value.names
    else b in target.typeNames
  }

  predicate SameName(a: NameBinding, b: NameBinding) { a.module_ == b.module_ && a.displayName == b.displayName }

  predicate SameTypeName(a: TypeNameBinding, b: TypeNameBinding) { a.module_ == b.module_ && a.displayName == b.displayName }

  /** No merged name, type name or export stands for two things. */
  ghost predicate Unambiguous(ancestor: Root, target: Root, source: Root) {
    && (forall a, b :: (HoldsName(ancestor, target, source, a) && HoldsName(ancestor, target, source, b)
                        && SameName(a, b)) ==> a.symbol == b.symbol)
    && (forall a, b :: (HoldsTypeName(ancestor, target, source, a) && HoldsTypeName(ancestor, target, source, b)
                        && SameTypeName(a, b)) ==> a.typeSymbol == b.typeSymbol)
    && (forall a, b :: (HoldsExport(ancestor, target, source, a) && HoldsExport(ancestor, target, source, b)
                        && a.exportedName == b.exportedName) ==> a.symbol == b.symbol)
  }

  /** The merges that succeed. */
  ghost predicate Accepts(ancestor: Root, target: Root, source: Root) {
    && (forall s :: Next(ancestor, target, source, s).Ok?)
    && (forall t :: NextType(ancestor, target, source, t).Ok?)
    && MergeWhole(ancestor.tests, target.tests, source.tests, Tests).Ok?
    && MergeWhole(ancestor.metadata, target.metadata, source.metadata, Metadata).Ok?
    && Unambiguous(ancestor, target, source)
  }

  /** What a successful merge contains. */
  ghost predicate IsMerge(ancestor: Root, target: Root, source: Root, m: Root) {
    && (forall s :: Next(ancestor, target, source, s) == Ok(StateOf(m, s)))
    && (forall t :: NextType(ancestor, target, source, t) == Ok(TypeStateOf(m, t)))
    && MergeWhole(ancestor.tests, target.tests, source.tests, Tests) == Ok(m.tests)
    && MergeWhole(ancestor.metadata, target.metadata, source.metadata, Metadata) == Ok(m.metadata)
  }
}
