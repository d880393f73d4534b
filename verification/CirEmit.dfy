/** Section and file assembly as it runs, up to the emitter's own re-decode check. */
module CirEmit {
  import opened Wrappers
  import opened Traversal
  import opened CirBytes
  import opened CirIr
  import opened CirEncode
  import opened CirDecode
  import opened CirFunction
  import opened CirFile
  import opened CirFileRoundTrip
  import opened CirEncoderMachine
  import opened CirDecoderMachine

  // ---------------------------------------------------------------- encoding

  method CheckDense(ir: FunctionIr) returns (ok: bool)
    ensures ok == (DenseParams(ir.params) && DenseLocals(ir.locals))
  {
    for i := 0 to |ir.params|
      invariant forall j :: 0 <= j < i ==> ir.params[j].slot == j
    {
      if ir.params[i].slot != i { return false; }
    }
    for i := 0 to |ir.locals|
      invariant forall j :: 0 <= j < i ==> ir.locals[j].slot == j
    {
      if ir.locals[i].slot != i { return false; }
    }
    return true;
  }

  lemma HeadListsFunctionTables(env: Env, ir: FunctionIr, rows: seq<Row>, t: Tables, u: Tables)
    requires t.values == u.values && t.types == u.types
    ensures HeadFields(env, ir, rows, t) == HeadFields(env, ir, rows, u)
  {
    hide TypeRow;
  }

  /** Encodes the tail, then the head that lists the completed tables. The head
      interns into the pools only. */
  method EncodeFunction(env: Env, pools: Pools, fnIndex: map<Text, nat>, ghost symbols: seq<Text>, ir: FunctionIr)
    returns (r: Option<seq<Byte>>)
    requires pools.Valid()
    requires forall x :: x in fnIndex <==> x in symbols
    requires forall x :: x in fnIndex ==> fnIndex[x] == IndexOf(symbols, x)
    modifies pools
    ensures pools.Valid()
    ensures r.Some? <==> EncodeSection(env, symbols, ir, old(Tables(pools.strings, pools.data, [], []))).Wrote?
    ensures r.Some? ==>
              var e := EncodeSection(env, symbols, ir, old(Tables(pools.strings, pools.data, [], [])));
              r.value == e.bytes && pools.strings == e.tables.strings && pools.data == e.tables.data
  {
    hide EncodeFields, LayoutRow, Traverse, TailFields, HeadFields, Indexes, IndexOf;
    var dense := CheckDense(ir);
    if !dense { return None; }
    var tail := EncodeRecord(env, pools, fnIndex, symbols, TAIL_SHAPE, TailFields(ir));
    if tail.None? { return None; }
    ghost var t := EncodeFields(env, symbols, TAIL_SHAPE, TailFields(ir), old(Tables(pools.strings, pools.data, [], [])));
    var rows := Traverse(l => LayoutRow(env, l), ir.layouts);
    if rows.None? { return None; }
    var tables := Tables([], [], tail.value.1, tail.value.2);
    HeadListsFunctionTables(env, ir, rows.value, tables, t.tables);
    var head := EncodeRecord(env, pools, fnIndex, symbols, HEAD_SHAPE, HeadFields(env, ir, rows.value, tables));
    if head.None? { return None; }
    r := Some(head.value.0 + tail.value.0);
  }

  /** Encodes one run of fields with fresh function tables; returns the bytes
      and the value and type tables it filled. */
  method EncodeRecord(env: Env, pools: Pools, fnIndex: map<Text, nat>, ghost symbols: seq<Text>, shape: seq<Kind>, fields: seq<Field>)
    returns (r: Option<(seq<Byte>, seq<Text>, seq<Text>)>)
    requires pools.Valid()
    requires forall x :: x in fnIndex <==> x in symbols
    requires forall x :: x in fnIndex ==> fnIndex[x] == IndexOf(symbols, x)
    modifies pools
    ensures pools.Valid()
    ensures r.Some? <==> EncodeFields(env, symbols, shape, fields, old(Tables(pools.strings, pools.data, [], []))).Wrote?
    ensures r.Some? ==> EncodeFields(env, symbols, shape, fields, old(Tables(pools.strings, pools.data, [], [])))
                        == Wrote(r.value.0, Tables(pools.strings, pools.data, r.value.1, r.value.2))
  {
    hide EncodeFields, Indexes, IndexOf;
    var tables := new FnTables();
    var encoder := new FnEncoder(env, pools, tables, fnIndex, symbols);
    var out := new OutBuffer();
    assert encoder.State() == old(Tables(pools.strings, pools.data, [], []));
    var ok := encoder.EncodeFieldList(out, shape, fields);
    if !ok { return None; }
    assert [] + out.bytes == out.bytes;
    r := Some((out.bytes, tables.values, tables.types));
  }

  method WriteEntries(entries: seq<seq<Byte>>) returns (r: Option<seq<Byte>>)
    ensures r == WritePool(entries)
  {
    if |entries| >= U32_LIMIT { return None; }
    var lengths: seq<Byte> := [];
    var i := |entries|;
    while i > 0
      invariant 0 <= i <= |entries|
      invariant WriteLengths(entries[i..]) == Some(lengths)
    {
      i := i - 1;
      assert entries[i..][1..] == entries[i + 1..];
      if |entries[i]| >= U32_LIMIT {
        LengthsFailAt(entries, i);
        return None;
      }
      lengths := Le(|entries[i]|, 4) + lengths;
    }
    assert entries[0..] == entries;
    r := Some(Le(|entries|, 4) + (lengths + Concat(entries)));
  }

  lemma {:induction false} LengthsFailAt(entries: seq<seq<Byte>>, i: nat)
    requires i < |entries| && |entries[i]| >= U32_LIMIT
    ensures WriteLengths(entries).None?
  {
    if i > 0 {
      LengthsFailAt(entries[1..], i - 1);
    }
  }

  lemma {:induction false} SortedHasNoDuplicates(symbols: seq<Text>, i: nat, j: nat)
    requires Ascending(symbols) && i < j < |symbols|
    ensures TextLess(symbols[i], symbols[j])
  {
    if i + 1 < j {
      SortedHasNoDuplicates(symbols, i, j - 1);
      LessTransitive(symbols[i], symbols[j - 1], symbols[j]);
    }
  }

  lemma {:induction false} LessTransitive(a: seq<Byte>, b: seq<Byte>, c: seq<Byte>)
    requires TextLess(a, b) && TextLess(b, c)
    ensures TextLess(a, c)
  {
    if a != [] && a[0] == b[0] == c[0] {
      LessTransitive(a[1..], b[1..], c[1..]);
    }
  }

  lemma {:induction false} LessIrreflexive(a: seq<Byte>)
    ensures !TextLess(a, a)
  {
    if a != [] {
      LessIrreflexive(a[1..]);
    }
  }

  /** Checks the table order and builds the call-target index. */
  method IndexFunctions(functions: seq<FunctionIr>) returns (r: Option<map<Text, nat>>)
    ensures r.Some? <==> Ascending(Symbols(functions))
    ensures r.Some? ==> (forall x :: x in r.value <==> x in Symbols(functions))
    ensures r.Some? ==> forall x :: x in r.value ==> r.value[x] == IndexOf(Symbols(functions), x)
  {
    hide TextLess, IndexOf, Ascending;
    var symbols := Symbols(functions);
    var index: map<Text, nat> := map[];
    AscendingStart(symbols);
    for i := 0 to |functions|
      invariant Ascending(symbols[..i])
      invariant forall j :: 0 <= j < i ==> symbols[j] in index
      invariant forall x :: x in index ==> index[x] < i && symbols[index[x]] == x
    {
      if i > 0 && !TextLess(symbols[i - 1], symbols[i]) {
        AscendingBreaks(symbols, i);
        return None;
      }
      AscendingStep(symbols, i);
      index := index[functions[i].symbolHash := i];
    }
    assert symbols[..|functions|] == symbols;
    forall x | x in index
      ensures index[x] == IndexOf(symbols, x)
    {
      OnlyIndex(symbols, index[x]);
    }
    r := Some(index);
  }

  lemma AscendingStart(symbols: seq<Text>)
    ensures Ascending(symbols[..0])
  {
  }

  lemma AscendingStep(symbols: seq<Text>, i: nat)
    requires i < |symbols| && Ascending(symbols[..i]) && (i > 0 ==> TextLess(symbols[i - 1], symbols[i]))
    ensures Ascending(symbols[..i + 1])
  {
    hide TextLess;
    var shorter, longer := symbols[..i], symbols[..i + 1];
    forall k | 1 <= k < |longer|
      ensures TextLess(longer[k - 1], longer[k])
    {
      if k < i {
        assert longer[k] == shorter[k] && longer[k - 1] == shorter[k - 1];
      }
    }
  }

  lemma AscendingBreaks(symbols: seq<Text>, i: nat)
    requires 0 < i < |symbols| && !TextLess(symbols[i - 1], symbols[i])
    ensures !Ascending(symbols)
  {
  }

  /** In a strictly ascending table every entry stands where it is found first. */
  lemma OnlyIndex(symbols: seq<Text>, i: nat)
    requires Ascending(symbols) && i < |symbols|
    ensures IndexOf(symbols, symbols[i]) == i
  {
    hide TextLess, Ascending;
    var k := IndexOf(symbols, symbols[i]);
    if k < i {
      SortedHasNoDuplicates(symbols, k, i);
      LessIrreflexive(symbols[i]);
    }
  }

  lemma InternUnfold(texts: seq<Text>, i: nat, strings: seq<Text>)
    requires i <= |texts|
    ensures InternAll(texts[i..], strings)
            == if i == |texts| then Some(([], strings))
               else match Intern(strings, texts[i])
                    case None => None
                    case Some((ref, grown)) =>
                      match InternAll(texts[i + 1..], grown)
                      case None => None
                      case Some((rest, end)) => Some(([ref] + rest, end))
  {
    hide Intern;
    if i < |texts| {
      assert texts[i..][1..] == texts[i + 1..];
    }
  }

  method InternSymbols(pools: Pools, texts: seq<Text>) returns (r: Option<seq<nat>>)
    requires pools.Valid()
    modifies pools
    ensures pools.Valid() && pools.data == old(pools.data)
    ensures r.Some? <==> InternAll(texts, old(pools.strings)).Some?
    ensures r.Some? ==> InternAll(texts, old(pools.strings)) == Some((r.value, pools.strings))
  {
    hide Intern, Indexes, InternAll;
    var refs: seq<nat> := [];
    var i := 0;
    ghost var goal := InternAll(texts, pools.strings);
    assert texts[0..] == texts && (goal.Some? ==> [] + goal.value.0 == goal.value.0);
    while i < |texts|
      invariant 0 <= i <= |texts| && |refs| == i
      invariant pools.Valid() && pools.data == old(pools.data)
      invariant goal == (match InternAll(texts[i..], pools.strings)
                         case None => None
                         case Some((more, s)) => Some((refs + more, s)))
    {
      InternUnfold(texts, i, pools.strings);
      var ref := pools.Istr(texts[i]);
      if ref.None? { return None; }
      ghost var rest := InternAll(texts[i + 1..], pools.strings);
      assert rest.Some? ==> refs + ([ref.value] + rest.value.0) == (refs + [ref.value]) + rest.value.0;
      refs := refs + [ref.value];
      i := i + 1;
    }
    InternUnfold(texts, i, pools.strings);
    assert refs + [] == refs;
    r := Some(refs);
  }

  method EncodeFunctions(env: Env, pools: Pools, fnIndex: map<Text, nat>, ghost symbols: seq<Text>, functions: seq<FunctionIr>)
    returns (r: Option<seq<seq<Byte>>>)
    requires pools.Valid() && pools.data == []
    requires forall x :: x in fnIndex <==> x in symbols
    requires forall x :: x in fnIndex ==> fnIndex[x] == IndexOf(symbols, x)
    modifies pools
    ensures pools.Valid()
    ensures r.Some? <==> EncodeSections(env, symbols, functions, old(Tables(pools.strings, pools.data, [], []))).Some?
    ensures r.Some? ==>
              var e := EncodeSections(env, symbols, functions, old(Tables(pools.strings, pools.data, [], []))).value;
              r.value == e.0 && pools.strings == e.1.strings && pools.data == e.1.data
  {
    hide EncodeSection;
    var sections: seq<seq<Byte>> := [];
    var i := 0;
    ghost var t := Tables(pools.strings, pools.data, [], []);
    ghost var goal := EncodeSections(env, symbols, functions, t);
    assert functions[0..] == functions && (goal.Some? ==> [] + goal.value.0 == goal.value.0);
    while i < |functions|
      invariant 0 <= i <= |functions| && |sections| == i && pools.Valid()
      invariant t.strings == pools.strings && t.data == pools.data
      invariant goal == (match EncodeSections(env, symbols, functions[i..], t)
                         case None => None
                         case Some((more, u)) => Some((sections + more, u)))
    {
      assert functions[i..][1..] == functions[i + 1..];
      PoolsSuffice(env, symbols, functions[i], t);
      ghost var e := EncodeSection(env, symbols, functions[i], t);
      var section := EncodeFunction(env, pools, fnIndex, symbols, functions[i]);
      if section.None? { return None; }
      t := e.tables;
      ghost var rest := EncodeSections(env, symbols, functions[i + 1..], t);
      assert rest.Some? ==> sections + ([section.value] + rest.value.0) == (sections + [section.value]) + rest.value.0;
      sections := sections + [section.value];
      i := i + 1;
    }
    assert functions[i..] == [] && sections + [] == sections;
    r := Some(sections);
  }

  /** A section only depends on the file pools it continues. */
  lemma PoolsSuffice(env: Env, symbols: seq<Text>, ir: FunctionIr, t: Tables)
    ensures EncodeSection(env, symbols, ir, t) == EncodeSection(env, symbols, ir, PoolsOf(t))
  {
    hide EncodeFields;
  }

  method WriteSectionTable(refs: seq<nat>, sections: seq<seq<Byte>>) returns (r: Option<seq<Byte>>)
    requires |refs| == |sections|
    ensures r == WriteTable(refs, sections, 0)
  {
    var table: seq<Byte> := [];
    var offset, i := 0, 0;
    ghost var goal := WriteTable(refs, sections, 0);
    assert refs[0..] == refs && sections[0..] == sections && (goal.Some? ==> [] + goal.value == goal.value);
    while i < |refs|
      invariant 0 <= i <= |refs| && offset >= 0
      invariant goal == (match WriteTable(refs[i..], sections[i..], offset)
                         case None => None
                         case Some(more) => Some(table + more))
    {
      assert refs[i..][1..] == refs[i + 1..] && sections[i..][1..] == sections[i + 1..];
      var length := |sections[i]|;
      if refs[i] >= U32_LIMIT || offset >= U32_LIMIT || length >= U32_LIMIT || offset + length >= U32_LIMIT { return None; }
      var row := Le(refs[i], 4) + (Le(offset, 4) + Le(length, 4));
      ghost var rest := WriteTable(refs[i + 1..], sections[i + 1..], offset + length);
      assert rest.Some? ==> table + (row + rest.value) == (table + row) + rest.value;
      table := table + row;
      offset := offset + length;
      i := i + 1;
    }
    assert refs[i..] == [] && table + [] == table;
    r := Some(table);
  }

  method EncodeCir(env: Env, p: Program) returns (r: Option<seq<Byte>>)
    ensures r == EncodeFile(env, p)
  {
    hide EncodeSections, WritePool, WriteTable, InternAll, Ascending;
    if p.functions == [] || p.entryIndex >= |p.functions| { return None; }
    var fnIndex := IndexFunctions(p.functions);
    if fnIndex.None? { return None; }
    var pools := new Pools();
    var targetRef := pools.Istr(p.target);
    if targetRef.None? { return None; }
    var refs := InternSymbols(pools, Symbols(p.functions));
    if refs.None? { return None; }
    var sections := EncodeFunctions(env, pools, fnIndex.value, Symbols(p.functions), p.functions);
    if sections.None? { return None; }
    var strings := WriteEntries(pools.strings);
    if strings.None? { return None; }
    var data := WriteEntries(pools.data);
    if data.None? || targetRef.value >= U32_LIMIT || p.entryIndex >= U32_LIMIT || |sections.value| >= U32_LIMIT { return None; }
    var table := WriteSectionTable(refs.value, sections.value);
    if table.None? { return None; }
    r := Some((MAGIC + (Le(VERSION, 4) + (strings.value + (data.value + (Le(targetRef.value, 4)
               + (Le(p.entryIndex, 4) + (Le(|sections.value|, 4) + table.value))))))) + Concat(sections.value));
  }

  // ---------------------------------------------------------------- decoding

  /** The head with its layouts, types and values resolved. */
  method RHead(env: Env, reader: Reader, decoder: FnDecoder) returns (r: Option<(seq<Field>, seq<Layout>, seq<Text>, seq<Text>)>)
    requires reader.Valid() && decoder.env == env && decoder.values == [] && decoder.types == []
    modifies reader
    ensures reader.Valid() && decoder.Now() == old(decoder.Now())
    ensures match DecodeHead(env, decoder.Now(), old(reader.Rest()))
            case Fail => r.None?
            case Got(head, rest) => r == Some(head) && reader.Rest() == rest
  {
    hide DecodeFields, LayoutOf, TypeOf, TextOf, Traverse, HeadMatches;
    var head := decoder.RFields(reader, HEAD_SHAPE);
    if head.None? || !HeadMatches(head.value) { return None; }
    HeadHasRows(head.value);
    var layouts := Traverse(r => LayoutOf(env, r), head.value[5].rows);
    if layouts.None? { return None; }
    var types := Traverse(r => TypeOf(env, layouts.value, r), head.value[6].rows);
    if types.None? { return None; }
    var values := Traverse(TextOf, head.value[7].rows);
    if values.None? { return None; }
    r := Some((head.value, layouts.value, types.value, values.value));
  }

  method DecodeFunction(env: Env, strings: seq<Text>, data: seq<seq<Byte>>, symbols: seq<Text>, section: seq<Byte>)
    returns (r: Option<FunctionIr>)
    ensures r == DecodeSection(env, strings, data, symbols, section)
  {
    hide DecodeFields, DecodeHead, FunctionOf, TailMatches;
    var reader := new Reader(section);
    var decoder := new FnDecoder(env, strings, data, symbols);
    var head := RHead(env, reader, decoder);
    if head.None? { return None; }
    var (fields, layouts, types, values) := head.value;
    decoder.types := types;
    decoder.values := values;
    var tail := decoder.RFields(reader, TAIL_SHAPE);
    if tail.None? || !TailMatches(tail.value) || reader.pos != |section| { return None; }
    r := FunctionOf(fields, layouts, tail.value);
  }

  lemma HeadHasRows(head: seq<Field>)
    requires HeadMatches(head)
    ensures |head| == 8 && head[5].Rows? && head[6].Rows? && head[7].Rows?
  {
  }

  method RLengths(reader: Reader, n: nat) returns (r: Option<seq<nat>>)
    requires reader.Valid()
    modifies reader
    ensures reader.Valid()
    ensures r.Some? <==> ReadLengths(n, old(reader.Rest())).Got?
    ensures r.Some? ==> ReadLengths(n, old(reader.Rest())) == Got(r.value, reader.Rest())
  {
    hide ReadLe;
    var lengths: seq<nat> := [];
    var i := 0;
    ghost var goal := ReadLengths(n, reader.Rest());
    OntoNothing(goal);
    while i < n
      invariant 0 <= i <= n && reader.Valid()
      invariant goal == Onto(lengths, ReadLengths(n - i, reader.Rest()))
    {
      var length := reader.Int(4);
      if length.None? { return None; }
      OntoTwice(lengths, [length.value], ReadLengths(n - i - 1, reader.Rest()));
      lengths := lengths + [length.value];
      i := i + 1;
    }
    assert lengths + [] == lengths;
    r := Some(lengths);
  }

  method RChunks(reader: Reader, lengths: seq<nat>) returns (r: Option<seq<seq<Byte>>>)
    requires reader.Valid()
    modifies reader
    ensures reader.Valid()
    ensures r.Some? <==> ReadChunks(lengths, old(reader.Rest())).Got?
    ensures r.Some? ==> ReadChunks(lengths, old(reader.Rest())) == Got(r.value, reader.Rest())
  {
    hide ReadBytes;
    var chunks: seq<seq<Byte>> := [];
    var i := 0;
    ghost var goal := ReadChunks(lengths, reader.Rest());
    OntoNothing(goal);
    assert lengths[0..] == lengths;
    while i < |lengths|
      invariant 0 <= i <= |lengths| && reader.Valid()
      invariant goal == Onto(chunks, ReadChunks(lengths[i..], reader.Rest()))
    {
      assert lengths[i..][1..] == lengths[i + 1..];
      var chunk := reader.Take(lengths[i]);
      if chunk.None? { return None; }
      OntoTwice(chunks, [chunk.value], ReadChunks(lengths[i + 1..], reader.Rest()));
      chunks := chunks + [chunk.value];
      i := i + 1;
    }
    assert lengths[i..] == [] && chunks + [] == chunks;
    r := Some(chunks);
  }

  method RPool(reader: Reader) returns (r: Option<seq<seq<Byte>>>)
    requires reader.Valid()
    modifies reader
    ensures reader.Valid()
    ensures r.Some? <==> ReadPool(old(reader.Rest())).Got?
    ensures r.Some? ==> ReadPool(old(reader.Rest())) == Got(r.value, reader.Rest())
  {
    hide ReadLengths, ReadChunks, ReadLe;
    var n := reader.Int(4);
    if n.None? { return None; }
    var lengths := RLengths(reader, n.value);
    if lengths.None? { return None; }
    r := RChunks(reader, lengths.value);
  }

  method RTable(reader: Reader, strings: seq<Text>, n: nat) returns (r: Option<seq<Span>>)
    requires reader.Valid()
    modifies reader
    ensures reader.Valid()
    ensures r.Some? <==> ReadTable(strings, n, old(reader.Rest())).Got?
    ensures r.Some? ==> ReadTable(strings, n, old(reader.Rest())) == Got(r.value, reader.Rest())
  {
    hide ReadLe, Lookup;
    var spans: seq<Span> := [];
    var i := 0;
    ghost var goal := ReadTable(strings, n, reader.Rest());
    OntoNothing(goal);
    while i < n
      invariant 0 <= i <= n && reader.Valid()
      invariant goal == Onto(spans, ReadTable(strings, n - i, reader.Rest()))
    {
      var symbol := reader.Entry(strings);
      if symbol.None? { return None; }
      var offset := reader.Int(4);
      if offset.None? { return None; }
      var length := reader.Int(4);
      if length.None? { return None; }
      var span := Span(symbol.value, offset.value, length.value);
      OntoTwice(spans, [span], ReadTable(strings, n - i - 1, reader.Rest()));
      spans := spans + [span];
      i := i + 1;
    }
    assert spans + [] == spans;
    r := Some(spans);
  }

  method RHeader(reader: Reader) returns (r: Option<Header>)
    requires reader.Valid()
    modifies reader
    ensures reader.Valid()
    ensures r.Some? <==> ReadHeader(old(reader.Rest())).Got?
    ensures r.Some? ==> ReadHeader(old(reader.Rest())) == Got(r.value, reader.Rest())
  {
    hide ReadLe, ReadBytes, Lookup, ReadPool, ReadTable, Traverse;
    var magic := reader.Take(4);
    if magic.None? { return None; }
    var version := reader.Int(4);
    if version.None? || magic.value != MAGIC || version.value != VERSION { return None; }
    var rawStrings := RPool(reader);
    if rawStrings.None? { return None; }
    var strings := Traverse(AsText, rawStrings.value);
    if strings.None? { return None; }
    var data := RPool(reader);
    if data.None? { return None; }
    var target := reader.Entry(strings.value);
    if target.None? { return None; }
    var entry := reader.Int(4);
    if entry.None? { return None; }
    var count := reader.Int(4);
    if count.None? || count.value == 0 || entry.value >= count.value { return None; }
    var spans := RTable(reader, strings.value, count.value);
    if spans.None? { return None; }
    r := Some(Header(strings.value, data.value, target.value, entry.value, spans.value));
  }

  lemma SectionsUnfold(env: Env, h: Header, symbols: seq<Text>, i: nat, expected: nat, region: seq<Byte>)
    requires i <= |h.spans|
    ensures DecodeSections(env, h, symbols, h.spans[i..], expected, region)
            == if i == |h.spans| then (if expected == |region| then Some([]) else None)
               else
                 var x := h.spans[i];
                 if x.offset != expected || x.offset + x.length > |region| then None
                 else
                   match DecodeSection(env, h.strings, h.data, symbols, region[x.offset..x.offset + x.length])
                   case None => None
                   case Some(f) =>
                     if f.symbolHash != x.symbol then None
                     else
                       match DecodeSections(env, h, symbols, h.spans[i + 1..], expected + x.length, region)
                       case None => None
                       case Some(fs) => Some([f] + fs)
  {
    hide DecodeSection;
    if i < |h.spans| {
      assert h.spans[i..][1..] == h.spans[i + 1..];
    }
  }

  /** The section loop over the table. */
  method RSections(env: Env, h: Header, symbols: seq<Text>, region: seq<Byte>) returns (r: Option<seq<FunctionIr>>)
    ensures r == DecodeSections(env, h, symbols, h.spans, 0, region)
  {
    hide DecodeSection, DecodeSections;
    var functions: seq<FunctionIr> := [];
    var i, expected := 0, 0;
    ghost var goal := DecodeSections(env, h, symbols, h.spans, 0, region);
    assert h.spans[0..] == h.spans && (goal.Some? ==> [] + goal.value == goal.value);
    while i < |h.spans|
      invariant 0 <= i <= |h.spans| && expected >= 0
      invariant goal == (match DecodeSections(env, h, symbols, h.spans[i..], expected, region)
                         case None => None
                         case Some(fs) => Some(functions + fs))
    {
      SectionsUnfold(env, h, symbols, i, expected, region);
      var x := h.spans[i];
      if x.offset != expected || x.offset + x.length > |region| { return None; }
      var f := DecodeFunction(env, h.strings, h.data, symbols, region[x.offset..x.offset + x.length]);
      if f.None? || f.value.symbolHash != x.symbol { return None; }
      ghost var rest := DecodeSections(env, h, symbols, h.spans[i + 1..], expected + x.length, region);
      assert rest.Some? ==> functions + ([f.value] + rest.value) == (functions + [f.value]) + rest.value;
      functions := functions + [f.value];
      expected := expected + x.length;
      i := i + 1;
    }
    assert h.spans[i..] == [] && functions + [] == functions;
    SectionsUnfold(env, h, symbols, i, expected, region);
    if expected != |region| { return None; }
    r := Some(functions);
  }

  method DecodeCir(env: Env, bytes: seq<Byte>) returns (r: Option<Program>)
    ensures r == DecodeFile(env, bytes)
  {
    hide DecodeSection, ReadHeader, DecodeSections, SpanSymbols;
    var reader := new Reader(bytes);
    var header := RHeader(reader);
    if header.None? { return None; }
    var h := header.value;
    var functions := RSections(env, h, SpanSymbols(h.spans), bytes[reader.pos..]);
    if functions.None? { return None; }
    r := Some(Program(h.target, h.entryIndex, functions.value));
  }

  // ---------------------------------------------------------------- emission

  datatype EmitError = EncodeFailed | DecodeFailed | RoundTripMismatch

  /** Encodes, re-decodes and compares before returning the bytes. The only
      failure it can report is the encoder's own. */
  method Emit(env: Env, p: Program) returns (r: Result<seq<Byte>, EmitError>)
    requires Lossless(env)
    ensures r == match EncodeFile(env, p)
                 case None => Err(EncodeFailed)
                 case Some(bytes) => Ok(bytes)
  {
    hide EncodeFile, DecodeFile;
    var bytes := EncodeCir(env, p);
    if bytes.None? { return Err(EncodeFailed); }
    var decoded := DecodeCir(env, bytes.value);
    RoundTrip(env, p);
    if decoded.None? { return Err(DecodeFailed); }
    if decoded.value != p { return Err(RoundTripMismatch); }
    return Ok(bytes.value);
  }
}
