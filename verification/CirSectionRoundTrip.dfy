/** A function section decodes to the function it was encoded from. */
module CirSectionRoundTrip {
  import opened Wrappers
  import opened Traversal
  import opened CirBytes
  import opened CirIr
  import opened CirEncode
  import opened CirDecode
  import opened CirFieldRoundTrip
  import opened CirFunction

  lemma LayoutRowsInvert(env: Env, layouts: seq<Layout>, rows: seq<Row>)
    requires Lossless(env)
    requires Traverse(l => LayoutRow(env, l), layouts) == Some(rows)
    ensures Traverse(r => LayoutOf(env, r), rows) == Some(layouts)
  {
    var f := l => LayoutRow(env, l);
    var g := r => LayoutOf(env, r);
    forall i | 0 <= i < |rows|
      ensures g(rows[i]) == Some(layouts[i])
    {
      assert f(layouts[i]) == Some(rows[i]);
      LayoutRowInverts(env, layouts[i]);
    }
    TraverseTo(g, rows, layouts);
  }

  lemma LayoutRowInverts(env: Env, l: Layout)
    requires Lossless(env)
    requires LayoutRow(env, l).Some?
    ensures LayoutOf(env, LayoutRow(env, l).value) == Some(l)
  {
    hide BufferColumns;
    var c := BufferColumns(l).value;
    assert [c[0], c[1], c[2], c[3], c[4]] == c;
    assert env.parseJson(env.printJson(l.metadata)) == Some(l.metadata);
  }

  lemma TypeRowsInvert(env: Env, layouts: seq<Layout>, types: seq<Text>)
    requires |layouts| <= NO_LAYOUT
    ensures Traverse(r => TypeOf(env, layouts, r), Map(h => TypeRow(env, layouts, h), types)) == Some(types)
  {
    var rows := Map(h => TypeRow(env, layouts, h), types);
    var g := r => TypeOf(env, layouts, r);
    forall i | 0 <= i < |types|
      ensures g(rows[i]) == Some(types[i])
    {
      assert rows[i] == TypeRow(env, layouts, types[i]);
    }
    TraverseTo(g, rows, types);
  }

  lemma TextRowsInvert(texts: seq<Text>)
    ensures Traverse(TextOf, Map(TextRow, texts)) == Some(texts)
  {
    TraverseTo(TextOf, Map(TextRow, texts), texts);
  }

  lemma TailRowsInvert(ir: FunctionIr)
    ensures Traverse(ParamOf, Map(ParamRow, ir.params)) == Some(ir.params)
    ensures Traverse(LocalOf, Map(LocalRow, ir.locals)) == Some(ir.locals)
    ensures Traverse(DebugOpOf, Map(DebugOpRow, ir.debug.operations)) == Some(ir.debug.operations)
    ensures Traverse(ExprOpsOf, Map(ExprOpsRow, ir.debug.exprToOps)) == Some(ir.debug.exprToOps)
  {
    TraverseTo(ParamOf, Map(ParamRow, ir.params), ir.params);
    TraverseTo(LocalOf, Map(LocalRow, ir.locals), ir.locals);
    TraverseTo(DebugOpOf, Map(DebugOpRow, ir.debug.operations), ir.debug.operations);
    var e := ir.debug.exprToOps;
    forall i | 0 <= i < |e|
      ensures ExprOpsOf(Map(ExprOpsRow, e)[i]) == Some(e[i])
    {
      TextRowsInvert(e[i].loweredOpIds);
    }
    TraverseTo(ExprOpsOf, Map(ExprOpsRow, e), e);
  }

  /** A head that was written lists fewer than 2^32 layouts. */
  lemma LayoutCountFits(env: Env, symbols: seq<Text>, head: seq<Field>, t: Tables)
    requires HeadMatches(head)
    requires EncodeFields(env, symbols, HEAD_SHAPE, head, t).Wrote?
    ensures |head[5].rows| < U32_LIMIT
  {
    var i := 0;
    var tables := t;
    while i < 5
      invariant 0 <= i <= 5
      invariant EncodeFields(env, symbols, HEAD_SHAPE[i..], head[i..], tables).Wrote?
    {
      var e := EncodeField(env, symbols, HEAD_SHAPE[i..][0], head[i..][0], tables);
      assert HEAD_SHAPE[i..][1..] == HEAD_SHAPE[i + 1..] && head[i..][1..] == head[i + 1..];
      tables := e.tables;
      i := i + 1;
    }
    assert EncodeField(env, symbols, HEAD_SHAPE[5], head[5], tables).Wrote?;
  }

  lemma SectionRoundTrip(env: Env, symbols: seq<Text>, ir: FunctionIr, pools: Tables, grown: Tables)
    requires Lossless(env)
    requires EncodeSection(env, symbols, ir, pools).Wrote?
    requires EncodeSection(env, symbols, ir, pools).tables.strings <= grown.strings
    requires EncodeSection(env, symbols, ir, pools).tables.data <= grown.data
    ensures DecodeSection(env, grown.strings, grown.data, symbols, EncodeSection(env, symbols, ir, pools).bytes)
            == Some(ir)
  {
    hide EncodeFields, DecodeFields, DecodeSection;
    var tail := EncodeFields(env, symbols, TAIL_SHAPE, TailFields(ir), PoolsOf(pools));
    var layoutRows := Traverse(l => LayoutRow(env, l), ir.layouts).value;
    var headFields := HeadFields(env, ir, layoutRows, tail.tables);
    var head := EncodeFields(env, symbols, HEAD_SHAPE, headFields, PoolsOf(tail.tables));
    LayoutCountFits(env, symbols, headFields, PoolsOf(tail.tables));
    HeadRoundTrip(env, symbols, headFields, PoolsOf(tail.tables), grown, tail.bytes);
    LayoutRowsInvert(env, ir.layouts, layoutRows);
    TypeRowsInvert(env, ir.layouts, tail.tables.types);
    TextRowsInvert(tail.tables.values);
    FieldsRoundTrip(env, symbols, TAIL_SHAPE, TailFields(ir), PoolsOf(pools),
                    Tables(grown.strings, grown.data, tail.tables.values, tail.tables.types), []);
    assert tail.bytes + [] == tail.bytes;
    SectionAssembles(env, symbols, ir, headFields, tail.tables, grown, head.bytes + tail.bytes, tail.bytes);
  }

  lemma SectionAssembles(env: Env, symbols: seq<Text>, ir: FunctionIr, head: seq<Field>, t: Tables, grown: Tables, s: seq<Byte>, s1: seq<Byte>)
    requires HeadMatches(head) && head == HeadFields(env, ir, head[5].rows, t)
    requires DenseParams(ir.params) && DenseLocals(ir.locals)
    requires DecodeFields(env, Scope(grown.strings, grown.data, symbols, [], []), HEAD_SHAPE, s) == Got(head, s1)
    requires Traverse(r => LayoutOf(env, r), head[5].rows) == Some(ir.layouts)
    requires Traverse(r => TypeOf(env, ir.layouts, r), head[6].rows) == Some(t.types)
    requires Traverse(TextOf, head[7].rows) == Some(t.values)
    requires DecodeFields(env, Scope(grown.strings, grown.data, symbols, t.values, t.types), TAIL_SHAPE, s1)
             == Got(TailFields(ir), [])
    ensures DecodeSection(env, grown.strings, grown.data, symbols, s) == Some(ir)
  {
    hide DecodeFields, Traverse, LayoutOf, TypeOf, ParamOf, LocalOf, DebugOpOf, ExprOpsOf;
    TailRowsInvert(ir);
  }

  /** The head interns strings only, so it decodes with empty function tables. */
  lemma HeadRoundTrip(env: Env, symbols: seq<Text>, head: seq<Field>, t: Tables, grown: Tables, rest: seq<Byte>)
    requires HeadMatches(head) && t == PoolsOf(t)
    requires EncodeFields(env, symbols, HEAD_SHAPE, head, t).Wrote?
    requires EncodeFields(env, symbols, HEAD_SHAPE, head, t).tables.strings <= grown.strings
    requires EncodeFields(env, symbols, HEAD_SHAPE, head, t).tables.data <= grown.data
    ensures DecodeFields(env, Scope(grown.strings, grown.data, symbols, [], []), HEAD_SHAPE,
                         EncodeFields(env, symbols, HEAD_SHAPE, head, t).bytes + rest)
            == Got(head, rest)
  {
    PoolShapes();
    PoolFieldsKeepTables(env, symbols, HEAD_SHAPE, head, t);
    FieldsRoundTrip(env, symbols, HEAD_SHAPE, head, t, PoolsOf(grown), rest);
  }

  /** Kinds that only touch the file pools. */
  predicate PoolOnly(k: Kind)
    decreases k
  {
    match k
    case KStr => true
    case KU8 => true
    case KU32 => true
    case KU64 => true
    case KRows(row) => forall i :: 0 <= i < |row| ==> PoolOnly(row[i])
    case _ => false
  }

  lemma PoolShapes()
    ensures forall i :: 0 <= i < |HEAD_SHAPE| ==> PoolOnly(HEAD_SHAPE[i])
  {
    assert forall i :: 0 <= i < |LAYOUT_SHAPE| ==> PoolOnly(LAYOUT_SHAPE[i]);
    assert forall i :: 0 <= i < |TYPE_SHAPE| ==> PoolOnly(TYPE_SHAPE[i]);
    assert forall i :: 0 <= i < |TEXT_SHAPE| ==> PoolOnly(TEXT_SHAPE[i]);
  }

  lemma {:induction false} PoolFieldKeepsTables(env: Env, symbols: seq<Text>, k: Kind, f: Field, t: Tables)
    requires PoolOnly(k)
    requires EncodeField(env, symbols, k, f, t).Wrote?
    ensures EncodeField(env, symbols, k, f, t).tables.values == t.values
    ensures EncodeField(env, symbols, k, f, t).tables.types == t.types
    decreases f
  {
    match (k, f)
    case (KRows(row), Rows(rows)) => PoolRowsKeepTables(env, symbols, row, rows, t);
    case _ =>
  }

  lemma {:induction false} PoolFieldsKeepTables(env: Env, symbols: seq<Text>, shape: seq<Kind>, fields: seq<Field>, t: Tables)
    requires forall i :: 0 <= i < |shape| ==> PoolOnly(shape[i])
    requires EncodeFields(env, symbols, shape, fields, t).Wrote?
    ensures EncodeFields(env, symbols, shape, fields, t).tables.values == t.values
    ensures EncodeFields(env, symbols, shape, fields, t).tables.types == t.types
    decreases fields
  {
    if fields != [] {
      PoolFieldKeepsTables(env, symbols, shape[0], fields[0], t);
      PoolFieldsKeepTables(env, symbols, shape[1..], fields[1..], EncodeField(env, symbols, shape[0], fields[0], t).tables);
    }
  }

  lemma {:induction false} PoolRowsKeepTables(env: Env, symbols: seq<Text>, shape: seq<Kind>, rows: seq<Row>, t: Tables)
    requires forall i :: 0 <= i < |shape| ==> PoolOnly(shape[i])
    requires EncodeRows(env, symbols, shape, rows, t).Wrote?
    ensures EncodeRows(env, symbols, shape, rows, t).tables.values == t.values
    ensures EncodeRows(env, symbols, shape, rows, t).tables.types == t.types
    decreases rows
  {
    if rows != [] {
      PoolFieldsKeepTables(env, symbols, shape, rows[0].fields, t);
      PoolRowsKeepTables(env, symbols, shape, rows[1..], EncodeFields(env, symbols, shape, rows[0].fields, t).tables);
    }
  }
}
