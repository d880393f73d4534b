/** One function section of a CIR file: tables first, then the tail that was
    encoded before them. */
module CirFunction {
  import opened Wrappers
  import opened Traversal
  import opened CirBytes
  import opened CirIr
  import opened CirEncode
  import opened CirDecode

  const NO_LAYOUT: nat := 0xFFFF_FFFF
  const META_PTR: Byte := 10
  const META_AGG_BY_VALUE: Byte := 11
  const META_AGG_INDIRECT: Byte := 12
  const META_SLICE: Byte := 13

  const KIND_BOX: Text := Ascii("box")
  const KIND_SLICE: Text := Ascii("slice")
  const BY_INDIRECT: Text := Ascii("by_indirect")
  const KIND_VEC: Text := Ascii("vec")
  const KIND_STRING: Text := Ascii("string")
  const PTR_OFFSET_KEY: Text := Ascii("ptr_offset_bytes")
  const LEN_OFFSET_KEY: Text := Ascii("len_offset_bytes")
  const CAPACITY_OFFSET_KEY: Text := Ascii("capacity_offset_bytes")
  const ELEMENT_SIZE_KEY: Text := Ascii("element_size_bytes")
  const ELEMENT_STRIDE_KEY: Text := Ascii("element_stride_bytes")

  // ---------------------------------------------------------------- consumer columns

  /** `meta_kind` and `meta_size` of a type-table row. */
  function TypeMeta(env: Env, hash: Text, layout: Option<Layout>): (Byte, nat) {
    match env.scalarMeta(hash)
    case Some(meta) => meta
    case None =>
      match layout
      case None => (META_PTR, 8)
      case Some(l) =>
        if l.kind == KIND_BOX then (META_PTR, 8)
        else if l.kind == KIND_SLICE then (META_SLICE, l.sizeBytes)
        else if l.pass == BY_INDIRECT then (META_AGG_INDIRECT, l.sizeBytes)
        else (META_AGG_BY_VALUE, l.sizeBytes)
  }

  /** A `u64` member of a JSON object. */
  function MetadataU64(j: Json, key: Text): Option<nat> {
    if !j.JObject? then None else EntryU64(j.entries, key)
  }

  function EntryU64(entries: seq<(Text, Json)>, key: Text): Option<nat> {
    if entries == [] then None
    else if entries[0].0 == key then
      if entries[0].1.JNumber? && 0 <= entries[0].1.n < U64_LIMIT then Some(entries[0].1.n) else None
    else EntryU64(entries[1..], key)
  }

  function BufferColumns(l: Layout): (r: Option<seq<nat>>)
    ensures r.Some? ==> |r.value| == 5
  {
    if l.kind != KIND_VEC && l.kind != KIND_STRING then Some([0, 0, 0, 0, 0])
    else
      var ptr :- MetadataU64(l.metadata, PTR_OFFSET_KEY);
      var len :- MetadataU64(l.metadata, LEN_OFFSET_KEY);
      var cap :- MetadataU64(l.metadata, CAPACITY_OFFSET_KEY);
      var size :- MetadataU64(l.metadata, ELEMENT_SIZE_KEY);
      var stride :- MetadataU64(l.metadata, ELEMENT_STRIDE_KEY);
      Some([ptr, len, cap, size, stride])
  }

  /** Row of the last layout with this type hash. */
  function LayoutRef(layouts: seq<Layout>, hash: Text): (r: Option<nat>)
    ensures r.Some? ==> r.value < |layouts| && layouts[r.value].typeHash == hash
  {
    if layouts == [] then None
    else if layouts[|layouts| - 1].typeHash == hash then Some(|layouts| - 1)
    else LayoutRef(layouts[..|layouts| - 1], hash)
  }

  // ---------------------------------------------------------------- rows

  const PARAM_SHAPE: seq<Kind> := [KSlot, KTypeHash]
  const LOCAL_SHAPE: seq<Kind> := [KSlot, KTypeHash, KU64]
  const TEXT_SHAPE: seq<Kind> := [KStr]
  const DEBUG_OP_SHAPE: seq<Kind> := [KStr, KStr, KStr, KStr]
  const EXPR_OPS_SHAPE: seq<Kind> := [KStr, KRows(TEXT_SHAPE)]
  const LAYOUT_SHAPE: seq<Kind> :=
    [KStr, KStr, KU64, KU64, KStr, KStr, KStr, KU64, KU64, KU64, KU64, KU64]
  const TYPE_SHAPE: seq<Kind> := [KStr, KU32, KU8, KU64]

  const HEAD_SHAPE: seq<Kind> :=
    [KStr, KStr, KStr, KStr, KStr, KRows(LAYOUT_SHAPE), KRows(TYPE_SHAPE), KRows(TEXT_SHAPE)]
  const TAIL_SHAPE: seq<Kind> :=
    [KTypeHash, KRows(PARAM_SHAPE), KRows(LOCAL_SHAPE), KOps,
     KStr, KRows(DEBUG_OP_SHAPE), KRows(EXPR_OPS_SHAPE)]

  function ParamRow(p: Param): Row { Row([Slot(p.slot), TypeHash(p.typeHash)]) }

  function ParamOf(r: Row): Option<Param> {
    var f := r.fields;
    if |f| == 2 && f[0].Slot? && f[1].TypeHash? then Some(Param(f[0].slot, f[1].hash)) else None
  }

  function LocalRow(l: Local): Row { Row([Slot(l.slot), TypeHash(l.typeHash), U64(l.sizeBytes)]) }

  function LocalOf(r: Row): Option<Local> {
    var f := r.fields;
    if |f| == 3 && f[0].Slot? && f[1].TypeHash? && f[2].U64?
    then Some(Local(f[0].slot, f[1].hash, f[2].wide)) else None
  }

  function TextRow(t: Text): Row { Row([Str(t)]) }

  function TextOf(r: Row): Option<Text> {
    if |r.fields| == 1 && r.fields[0].Str? then Some(r.fields[0].text) else None
  }

  function DebugOpRow(d: DebugOp): Row {
    Row([Str(d.loweredOpId), Str(d.valueId), Str(d.loweredOpKind), Str(d.exprHash)])
  }

  function DebugOpOf(r: Row): Option<DebugOp> {
    var f := r.fields;
    if |f| == 4 && f[0].Str? && f[1].Str? && f[2].Str? && f[3].Str?
    then Some(DebugOp(f[0].text, f[1].text, f[2].text, f[3].text)) else None
  }

  function ExprOpsRow(e: ExprOps): Row { Row([Str(e.exprHash), Rows(Map(TextRow, e.loweredOpIds))]) }

  function ExprOpsOf(r: Row): Option<ExprOps> {
    var f := r.fields;
    if |f| == 2 && f[0].Str? && f[1].Rows? then
      var ids :- Traverse(TextOf, f[1].rows);
      Some(ExprOps(f[0].text, ids))
    else None
  }

  function LayoutRow(env: Env, l: Layout): Option<Row> {
    var c :- BufferColumns(l);
    Some(Row([Str(l.typeHash), Str(l.kind), U64(l.sizeBytes), U64(l.alignBytes), Str(l.pass),
              Str(l.return_), Str(env.printJson(l.metadata)),
              U64(c[0]), U64(c[1]), U64(c[2]), U64(c[3]), U64(c[4])]))
  }

  /** Rebuilds a layout and recomputes its buffer columns. */
  function LayoutOf(env: Env, r: Row): Option<Layout> {
    var f := r.fields;
    if |f| == 12 && f[0].Str? && f[1].Str? && f[2].U64? && f[3].U64? && f[4].Str? && f[5].Str?
      && f[6].Str? && f[7].U64? && f[8].U64? && f[9].U64? && f[10].U64? && f[11].U64?
    then
      var metadata :- env.parseJson(f[6].text);
      var l := Layout(f[0].text, f[1].text, f[2].wide, f[3].wide, f[4].text, f[5].text, metadata);
      var c :- BufferColumns(l);
      if [f[7].wide, f[8].wide, f[9].wide, f[10].wide, f[11].wide] == c then Some(l) else None
    else None
  }

  function TypeRow(env: Env, layouts: seq<Layout>, hash: Text): Row {
    var ref := LayoutRef(layouts, hash);
    var meta := TypeMeta(env, hash, if ref.Some? then Some(layouts[ref.value]) else None);
    Row([Str(hash), U32(if ref.Some? then ref.value else NO_LAYOUT), U8(meta.0), U64(meta.1)])
  }

  /** Resolves a type row's layout link and recomputes its meta columns. */
  function TypeOf(env: Env, layouts: seq<Layout>, r: Row): Option<Text> {
    var f := r.fields;
    if |f| == 4 && f[0].Str? && f[1].U32? && f[2].U8? && f[3].U64? then
      var hash, ref := f[0].text, f[1].word;
      if ref != NO_LAYOUT && (ref >= |layouts| || layouts[ref].typeHash != hash) then None
      else if (f[2].byte, f[3].wide) == TypeMeta(env, hash, if ref == NO_LAYOUT then None else Some(layouts[ref]))
      then Some(hash)
      else None
    else None
  }

  // ---------------------------------------------------------------- sections

  predicate DenseParams(params: seq<Param>) {
    forall i :: 0 <= i < |params| ==> params[i].slot == i
  }

  predicate DenseLocals(locals: seq<Local>) {
    forall i :: 0 <= i < |locals| ==> locals[i].slot == i
  }

  function TailFields(ir: FunctionIr): seq<Field> {
    [TypeHash(ir.returnType), Rows(Map(ParamRow, ir.params)), Rows(Map(LocalRow, ir.locals)),
     Ops(ir.operations), Str(ir.debug.schema), Rows(Map(DebugOpRow, ir.debug.operations)),
     Rows(Map(ExprOpsRow, ir.debug.exprToOps))]
  }

  function HeadFields(env: Env, ir: FunctionIr, layoutRows: seq<Row>, tail: Tables): seq<Field> {
    [Str(ir.schema), Str(ir.symbolHash), Str(ir.defHash), Str(ir.sigHash), Str(ir.bodyHash),
     Rows(layoutRows), Rows(Map(h => TypeRow(env, ir.layouts, h), tail.types)),
     Rows(Map(TextRow, tail.values))]
  }

  /** The tail is encoded first so that its tables are complete; the head that
      lists them is then written ahead of it. `pools` carries the file pools. */
  function EncodeSection(env: Env, symbols: seq<Text>, ir: FunctionIr, pools: Tables): (r: Enc)
    ensures r.Wrote? ==> Grows(PoolsOf(pools), r.tables)
  {
    if !DenseParams(ir.params) || !DenseLocals(ir.locals) then Refused
    else
      var (tail, t) :- EncodeFields(env, symbols, TAIL_SHAPE, TailFields(ir), PoolsOf(pools));
      match Traverse(l => LayoutRow(env, l), ir.layouts)
      case None => Refused
      case Some(layoutRows) =>
        var (head, h) :- EncodeFields(env, symbols, HEAD_SHAPE, HeadFields(env, ir, layoutRows, t), PoolsOf(t));
        Wrote(head + tail, h)
  }

  /** The file-global part of the tables. */
  function PoolsOf(t: Tables): Tables { Tables(t.strings, t.data, [], []) }

  predicate HeadMatches(f: seq<Field>) {
    && |f| == 8 && f[0].Str? && f[1].Str? && f[2].Str? && f[3].Str? && f[4].Str?
    && f[5].Rows? && f[6].Rows? && f[7].Rows?
  }

  predicate TailMatches(f: seq<Field>) {
    && |f| == 7 && f[0].TypeHash? && f[1].Rows? && f[2].Rows? && f[3].Ops?
    && f[4].Str? && f[5].Rows? && f[6].Rows?
  }

  /** The head, with its layout, type and value rows resolved. */
  function DecodeHead(env: Env, scope: Scope, s: seq<Byte>): (r: Dec<(seq<Field>, seq<Layout>, seq<Text>, seq<Text>)>)
    ensures r.Got? ==> HeadMatches(r.value.0)
  {
    var (head, s1) :- DecodeFields(env, scope, HEAD_SHAPE, s);
    if !HeadMatches(head) then Fail
    else
      match Traverse(r => LayoutOf(env, r), head[5].rows)
      case None => Fail
      case Some(layouts) =>
        match Traverse(r => TypeOf(env, layouts, r), head[6].rows)
        case None => Fail
        case Some(types) =>
          match Traverse(TextOf, head[7].rows)
          case None => Fail
          case Some(values) => Got((head, layouts, types, values), s1)
  }

  function DecodeSection(env: Env, strings: seq<Text>, data: seq<seq<Byte>>, symbols: seq<Text>, s: seq<Byte>): (r: Option<FunctionIr>)
    ensures r.Some? ==> DenseParams(r.value.params) && DenseLocals(r.value.locals)
  {
    match DecodeHead(env, Scope(strings, data, symbols, [], []), s)
    case Fail => None
    case Got(parts, s1) =>
      var (head, layouts, types, values) := parts;
      match DecodeFields(env, Scope(strings, data, symbols, values, types), TAIL_SHAPE, s1)
      case Fail => None
      case Got(tail, rest) =>
        if !TailMatches(tail) || rest != [] then None
        else FunctionOf(head, layouts, tail)
  }

  function FunctionOf(head: seq<Field>, layouts: seq<Layout>, tail: seq<Field>): (r: Option<FunctionIr>)
    requires HeadMatches(head) && TailMatches(tail)
    ensures r.Some? ==> DenseParams(r.value.params) && DenseLocals(r.value.locals)
  {
    var params :- Traverse(ParamOf, tail[1].rows);
    var locals :- Traverse(LocalOf, tail[2].rows);
    var debugOps :- Traverse(DebugOpOf, tail[5].rows);
    var exprOps :- Traverse(ExprOpsOf, tail[6].rows);
    if DenseParams(params) && DenseLocals(locals) then
      Some(FunctionIr(head[0].text, head[1].text, head[2].text, head[3].text, head[4].text,
                      params, locals, tail[0].hash, layouts, tail[3].ops,
                      DebugMap(tail[4].text, debugOps, exprOps)))
    else None
  }
}
