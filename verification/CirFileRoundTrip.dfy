/** Whole-file results: the round trip the emitter re-checks at run time, and
    that no accepted file is a strict prefix of another. */
module CirFileRoundTrip {
  import opened Wrappers
  import opened Traversal
  import opened CirBytes
  import opened CirIr
  import opened CirEncode
  import opened CirDecode
  import opened CirFieldRoundTrip
  import opened CirFunction
  import opened CirSectionRoundTrip
  import opened CirFile

  // ---------------------------------------------------------------- pieces

  lemma U32Inverts(n: nat, rest: seq<Byte>)
    requires n < U32_LIMIT
    ensures ReadLe(4, Le(n, 4) + rest) == Got(n, rest)
  {
    Widths();
    ReadLeInverts(n, 4, rest);
  }

  function Lengths(entries: seq<seq<Byte>>): (r: seq<nat>)
    ensures |r| == |entries|
  {
    if entries == [] then [] else [|entries[0]|] + Lengths(entries[1..])
  }

  lemma {:induction false} LengthsInvert(entries: seq<seq<Byte>>, rest: seq<Byte>)
    requires WriteLengths(entries).Some?
    ensures ReadLengths(|entries|, WriteLengths(entries).value + rest) == Got(Lengths(entries), rest)
  {
    if entries == [] {
      assert [] + rest == rest;
    } else {
      var b, bs := Le(|entries[0]|, 4), WriteLengths(entries[1..]).value;
      assert (b + bs) + rest == b + (bs + rest);
      U32Inverts(|entries[0]|, bs + rest);
      LengthsInvert(entries[1..], rest);
    }
  }

  lemma {:induction false} ChunksInvert(entries: seq<seq<Byte>>, rest: seq<Byte>)
    ensures ReadChunks(Lengths(entries), Concat(entries) + rest) == Got(entries, rest)
  {
    if entries == [] {
      assert [] + rest == rest;
    } else {
      var b, bs := entries[0], Concat(entries[1..]);
      var s := (b + bs) + rest;
      assert s[..|b|] == b && s[|b|..] == bs + rest;
      ChunksInvert(entries[1..], rest);
      assert Lengths(entries)[1..] == Lengths(entries[1..]);
      assert [b] + entries[1..] == entries;
    }
  }

  lemma PoolInverts(entries: seq<seq<Byte>>, rest: seq<Byte>)
    requires WritePool(entries).Some?
    ensures ReadPool(WritePool(entries).value + rest) == Got(entries, rest)
  {
    var count, lengths, body := Le(|entries|, 4), WriteLengths(entries).value, Concat(entries);
    assert (count + (lengths + body)) + rest == count + (lengths + (body + rest));
    U32Inverts(|entries|, lengths + (body + rest));
    LengthsInvert(entries, body + rest);
    ChunksInvert(entries, rest);
  }

  lemma TextsAreTexts(strings: seq<Text>)
    ensures Traverse<seq<Byte>, Text>(AsText, strings) == Some(strings)
  {
    forall i | 0 <= i < |strings|
      ensures AsText(strings[i]) == Some(strings[i])
    {
      var t: Text := strings[i];
    }
    TraverseTo<seq<Byte>, Text>(AsText, strings, strings);
  }

  /** The spans the encoder writes for consecutive sections. */
  function SpansFor(symbols: seq<Text>, sections: seq<seq<Byte>>, offset: nat): (r: seq<Span>)
    requires |symbols| == |sections|
    ensures |r| == |symbols|
    ensures forall i :: 0 <= i < |r| ==> r[i].symbol == symbols[i]
  {
    if symbols == [] then []
    else [Span(symbols[0], offset, |sections[0]|)] + SpansFor(symbols[1..], sections[1..], offset + |sections[0]|)
  }

  lemma TableStep(strings: seq<Text>, n: nat, s: seq<Byte>, x: Span, s1: seq<Byte>, s2: seq<Byte>, s3: seq<Byte>, spans: seq<Span>, rest: seq<Byte>)
    requires n > 0
    requires Lookup(strings, s) == Got(x.symbol, s1)
    requires ReadLe(4, s1) == Got(x.offset, s2)
    requires ReadLe(4, s2) == Got(x.length, s3)
    requires ReadTable(strings, n - 1, s3) == Got(spans, rest)
    ensures ReadTable(strings, n, s) == Got([x] + spans, rest)
  {
    hide Lookup, ReadLe;
  }

  lemma TableEnd(strings: seq<Text>, rest: seq<Byte>)
    ensures ReadTable(strings, 0, rest) == Got([], rest)
  {
  }

  lemma {:induction false} TableInverts(strings: seq<Text>, symbols: seq<Text>, refs: seq<nat>, sections: seq<seq<Byte>>, offset: nat, rest: seq<Byte>)
    requires |symbols| == |refs| == |sections|
    requires forall i :: 0 <= i < |refs| ==> refs[i] < |strings| && strings[refs[i]] == symbols[i]
    requires WriteTable(refs, sections, offset).Some?
    ensures ReadTable(strings, |refs|, WriteTable(refs, sections, offset).value + rest)
            == Got(SpansFor(symbols, sections, offset), rest)
  {
    hide Lookup, ReadLe, ReadTable, Le;
    if refs == [] {
      assert [] + rest == rest;
      TableEnd(strings, rest);
    } else {
      var a, b, c := Le(refs[0], 4), Le(offset, 4), Le(|sections[0]|, 4);
      var rows := WriteTable(refs[1..], sections[1..], offset + |sections[0]|).value;
      assert ((a + (b + c)) + rows) + rest == a + (b + (c + (rows + rest)));
      LookupInverts(strings, strings, refs[0], b + (c + (rows + rest)));
      U32Inverts(offset, c + (rows + rest));
      U32Inverts(|sections[0]|, rows + rest);
      TableInverts(strings, symbols[1..], refs[1..], sections[1..], offset + |sections[0]|, rest);
      TableStep(strings, |refs|, a + (b + (c + (rows + rest))), Span(symbols[0], offset, |sections[0]|),
                b + (c + (rows + rest)), c + (rows + rest), rows + rest,
                SpansFor(symbols[1..], sections[1..], offset + |sections[0]|), rest);
    }
  }

  lemma HeaderInverts(p: Program, symbols: seq<Text>, pools: Tables, targetRef: nat, refs: seq<nat>, sections: seq<seq<Byte>>, rest: seq<Byte>)
    requires |symbols| == |refs| == |sections| && symbols != [] && p.entryIndex < |symbols|
    requires forall i :: 0 <= i < |refs| ==> refs[i] < |pools.strings| && pools.strings[refs[i]] == symbols[i]
    requires targetRef < |pools.strings| && pools.strings[targetRef] == p.target
    requires WriteHeader(p, pools, targetRef, refs, sections).Some?
    ensures ReadHeader(WriteHeader(p, pools, targetRef, refs, sections).value + rest)
            == Got(Header(pools.strings, pools.data, p.target, p.entryIndex, SpansFor(symbols, sections, 0)), rest)
  {
    hide ReadHeader, ReadPool, ReadTable, WriteTable, WritePool, SpansFor;
    var strings, data := WritePool(pools.strings).value, WritePool(pools.data).value;
    var target, entry, count := Le(targetRef, 4), Le(p.entryIndex, 4), Le(|sections|, 4);
    var table := WriteTable(refs, sections, 0).value;
    var s7 := table + rest;
    var s6 := count + s7;
    var s5 := entry + s6;
    var s4 := target + s5;
    var s3 := data + s4;
    var s2 := strings + s3;
    var s1 := Le(VERSION, 4) + s2;
    assert WriteHeader(p, pools, targetRef, refs, sections).value + rest == MAGIC + s1;
    assert ReadBytes(4, MAGIC + s1) == Got(MAGIC, s1) by {
      assert (MAGIC + s1)[..4] == MAGIC && (MAGIC + s1)[4..] == s1;
    }
    U32Inverts(VERSION, s2);
    PoolInverts(pools.strings, s3);
    PoolInverts(pools.data, s4);
    U32Inverts(targetRef, s5);
    U32Inverts(p.entryIndex, s6);
    U32Inverts(|sections|, s7);
    TableInverts(pools.strings, symbols, refs, sections, 0, rest);
    var h := Header(pools.strings, pools.data, p.target, p.entryIndex, SpansFor(symbols, sections, 0));
    HeaderSteps(h, MAGIC + s1, s1, s2, s3, s4, s5, s6, s7, rest);
  }

  lemma HeaderSteps(h: Header, s: seq<Byte>, s1: seq<Byte>, s2: seq<Byte>, s3: seq<Byte>, s4: seq<Byte>,
                    s5: seq<Byte>, s6: seq<Byte>, s7: seq<Byte>, rest: seq<Byte>)
    requires ReadBytes(4, s) == Got(MAGIC, s1) && ReadLe(4, s1) == Got(VERSION, s2)
    requires ReadPool(s2) == Got(h.strings, s3) && ReadPool(s3) == Got(h.data, s4)
    requires Lookup(h.strings, s4) == Got(h.target, s5) && ReadLe(4, s5) == Got(h.entryIndex, s6)
    requires ReadLe(4, s6) == Got(|h.spans|, s7) && h.entryIndex < |h.spans|
    requires ReadTable(h.strings, |h.spans|, s7) == Got(h.spans, rest)
    ensures ReadHeader(s) == Got(h, rest)
  {
    hide ReadBytes, ReadLe, ReadPool, Lookup, ReadTable, Traverse;
    TextsAreTexts(h.strings);
  }

  // ---------------------------------------------------------------- sections

  lemma SectionsStep(env: Env, h: Header, symbols: seq<Text>, spans: seq<Span>, expected: nat, region: seq<Byte>, functions: seq<FunctionIr>)
    requires spans != [] && functions != []
    requires spans[0].offset == expected && expected + spans[0].length <= |region|
    requires DecodeSection(env, h.strings, h.data, symbols, region[expected..expected + spans[0].length]) == Some(functions[0])
    requires functions[0].symbolHash == spans[0].symbol
    requires DecodeSections(env, h, symbols, spans[1..], expected + spans[0].length, region) == Some(functions[1..])
    ensures DecodeSections(env, h, symbols, spans, expected, region) == Some(functions)
  {
    hide DecodeSection;
    assert [functions[0]] + functions[1..] == functions;
  }

  lemma SectionsEnd(env: Env, h: Header, symbols: seq<Text>, region: seq<Byte>)
    ensures DecodeSections(env, h, symbols, [], |region|, region) == Some([])
  {
  }

  lemma {:induction false} SectionsInvert(env: Env, h: Header, symbols: seq<Text>, functions: seq<FunctionIr>, pools: Tables,
                                          before: seq<Byte>, after: seq<Byte>)
    requires Lossless(env)
    requires EncodeSections(env, symbols, functions, pools).Some?
    requires EncodeSections(env, symbols, functions, pools).value.1.strings <= h.strings
    requires EncodeSections(env, symbols, functions, pools).value.1.data <= h.data
    requires after == Concat(EncodeSections(env, symbols, functions, pools).value.0)
    ensures DecodeSections(env, h, symbols, SpansFor(Symbols(functions), EncodeSections(env, symbols, functions, pools).value.0, |before|),
                           |before|, before + after)
            == Some(functions)
  {
    hide EncodeSection, DecodeSection, DecodeSections;
    if functions == [] {
      assert before + after == before;
      SectionsEnd(env, h, symbols, before);
    } else {
      var e := EncodeSection(env, symbols, functions[0], pools);
      var (sections, pools2) := EncodeSections(env, symbols, functions[1..], e.tables).value;
      var region := before + after;
      assert after == e.bytes + Concat(sections);
      assert region[|before|..|before| + |e.bytes|] == e.bytes;
      SectionRoundTrip(env, symbols, functions[0], pools, Tables(h.strings, h.data, [], []));
      SectionsInvert(env, h, symbols, functions[1..], e.tables, before + e.bytes, Concat(sections));
      assert (before + e.bytes) + Concat(sections) == region;
      assert Symbols(functions)[1..] == Symbols(functions[1..]);
      assert ([e.bytes] + sections)[1..] == sections;
      var spans := SpansFor(Symbols(functions), [e.bytes] + sections, |before|);
      assert spans[1..] == SpansFor(Symbols(functions[1..]), sections, |before| + |e.bytes|);
      SectionsStep(env, h, symbols, spans, |before|, region, functions);
    }
  }

  /** Decoding an encoded program returns exactly that program: the re-decode
      check of the emitter can never fire. */
  lemma RoundTrip(env: Env, p: Program)
    requires Lossless(env)
    requires EncodeFile(env, p).Some?
    ensures DecodeFile(env, EncodeFile(env, p).value) == Some(p)
  {
    var symbols := Symbols(p.functions);
    var (targetRef, strings0) := Intern([], p.target).value;
    var (refs, strings1) := InternAll(symbols, strings0).value;
    var (sections, pools) := EncodeSections(env, symbols, p.functions, Tables(strings1, [], [], [])).value;
    var region := Concat(sections);
    HeaderInverts(p, symbols, pools, targetRef, refs, sections, region);
    var h := Header(pools.strings, pools.data, p.target, p.entryIndex, SpansFor(symbols, sections, 0));
    assert SpanSymbols(h.spans) == symbols;
    SectionsInvert(env, h, symbols, p.functions, Tables(strings1, [], [], []), [], region);
    assert [] + region == region;
  }

  /** Equal files come from equal programs. */
  lemma EncodingIsInjective(env: Env, p: Program, q: Program)
    requires Lossless(env)
    requires EncodeFile(env, p).Some? && EncodeFile(env, q) == EncodeFile(env, p)
    ensures p == q
  {
    hide EncodeFile, DecodeFile;
    RoundTrip(env, p);
    RoundTrip(env, q);
  }

  // ---------------------------------------------------------------- prefix freedom

  lemma ReadLeLocal(k: nat, s: seq<Byte>, x: seq<Byte>)
    requires ReadLe(k, s).Got?
    ensures ReadLe(k, s + x) == Got(ReadLe(k, s).value, ReadLe(k, s).rest + x)
  {
    assert (s + x)[..k] == s[..k] && (s + x)[k..] == s[k..] + x;
  }

  lemma ReadBytesLocal(k: nat, s: seq<Byte>, x: seq<Byte>)
    requires ReadBytes(k, s).Got?
    ensures ReadBytes(k, s + x) == Got(ReadBytes(k, s).value, ReadBytes(k, s).rest + x)
  {
    assert (s + x)[..k] == s[..k] && (s + x)[k..] == s[k..] + x;
  }

  lemma {:induction false} ReadLengthsLocal(n: nat, s: seq<Byte>, x: seq<Byte>)
    requires ReadLengths(n, s).Got?
    ensures ReadLengths(n, s + x) == Got(ReadLengths(n, s).value, ReadLengths(n, s).rest + x)
  {
    if n > 0 {
      ReadLeLocal(4, s, x);
      ReadLengthsLocal(n - 1, ReadLe(4, s).rest, x);
    }
  }

  lemma {:induction false} ReadChunksLocal(lengths: seq<nat>, s: seq<Byte>, x: seq<Byte>)
    requires ReadChunks(lengths, s).Got?
    ensures ReadChunks(lengths, s + x) == Got(ReadChunks(lengths, s).value, ReadChunks(lengths, s).rest + x)
  {
    if lengths != [] {
      ReadBytesLocal(lengths[0], s, x);
      ReadChunksLocal(lengths[1..], ReadBytes(lengths[0], s).rest, x);
    }
  }

  lemma ReadPoolLocal(s: seq<Byte>, x: seq<Byte>)
    requires ReadPool(s).Got?
    ensures ReadPool(s + x) == Got(ReadPool(s).value, ReadPool(s).rest + x)
  {
    ReadLeLocal(4, s, x);
    var (n, s1) := ReadLe(4, s).Extract();
    ReadLengthsLocal(n, s1, x);
    var (lengths, s2) := ReadLengths(n, s1).Extract();
    ReadChunksLocal(lengths, s2, x);
  }

  lemma {:induction false} ReadTableLocal(strings: seq<Text>, n: nat, s: seq<Byte>, x: seq<Byte>)
    requires ReadTable(strings, n, s).Got?
    ensures ReadTable(strings, n, s + x) == Got(ReadTable(strings, n, s).value, ReadTable(strings, n, s).rest + x)
  {
    if n > 0 {
      ReadLeLocal(4, s, x);
      var s1 := ReadLe(4, s).rest;
      ReadLeLocal(4, s1, x);
      var s2 := ReadLe(4, s1).rest;
      ReadLeLocal(4, s2, x);
      ReadTableLocal(strings, n - 1, ReadLe(4, s2).rest, x);
    }
  }

  /** The header is read off the front, whatever follows it. */
  lemma ReadHeaderLocal(s: seq<Byte>, x: seq<Byte>)
    requires ReadHeader(s).Got?
    ensures ReadHeader(s + x) == Got(ReadHeader(s).value, ReadHeader(s).rest + x)
  {
    hide ReadLe, ReadBytes, ReadPool, ReadTable, Traverse;
    ReadBytesLocal(4, s, x);
    var s1 := ReadBytes(4, s).rest;
    ReadLeLocal(4, s1, x);
    var s2 := ReadLe(4, s1).rest;
    ReadPoolLocal(s2, x);
    var (rawStrings, s3) := ReadPool(s2).Extract();
    var strings := Traverse(AsText, rawStrings).value;
    ReadPoolLocal(s3, x);
    var s4 := ReadPool(s3).rest;
    ReadLeLocal(4, s4, x);
    var s5 := ReadLe(4, s4).rest;
    ReadLeLocal(4, s5, x);
    var s6 := ReadLe(4, s5).rest;
    ReadLeLocal(4, s6, x);
    var (count, s7) := ReadLe(4, s6).Extract();
    ReadTableLocal(strings, count, s7, x);
  }

  function TotalLength(spans: seq<Span>): nat {
    if spans == [] then 0 else spans[0].length + TotalLength(spans[1..])
  }

  /** Accepted sections lie one behind the other from the expected offset on,
      and end where the region does. */
  lemma {:induction false} SectionsTile(env: Env, h: Header, symbols: seq<Text>, spans: seq<Span>, expected: nat, region: seq<Byte>)
    requires DecodeSections(env, h, symbols, spans, expected, region).Some?
    ensures forall i :: 0 <= i < |spans| ==> spans[i].offset == expected + TotalLength(spans[..i])
    ensures expected + TotalLength(spans) == |region|
    decreases |spans|
  {
    hide DecodeSection;
    if spans != [] {
      var next := expected + spans[0].length;
      SectionsTile(env, h, symbols, spans[1..], next, region);
      forall i | 0 <= i < |spans|
        ensures spans[i].offset == expected + TotalLength(spans[..i])
      {
        if i > 0 {
          assert spans[i] == spans[1..][i - 1];
          assert spans[..i][0] == spans[0] && spans[..i][1..] == spans[1..][..i - 1];
        }
      }
    }
  }

  /** No strict extension of an accepted file is accepted; equivalently no
      strict prefix is. Encoded files are the special case `RoundTrip` gives. */
  lemma AcceptedFilesArePrefixFree(env: Env, bytes: seq<Byte>, x: seq<Byte>)
    requires DecodeFile(env, bytes).Some? && DecodeFile(env, bytes + x).Some?
    ensures x == []
  {
    hide DecodeSection, ReadHeader, DecodeSections;
    ReadHeaderLocal(bytes, x);
    var (h, region) := ReadHeader(bytes).Extract();
    SectionsTile(env, h, SpanSymbols(h.spans), h.spans, 0, region);
    SectionsTile(env, h, SpanSymbols(h.spans), h.spans, 0, region + x);
  }

  lemma TruncatedEncodingsAreRejected(env: Env, p: Program, k: nat)
    requires Lossless(env)
    requires EncodeFile(env, p).Some? && k < |EncodeFile(env, p).value|
    ensures DecodeFile(env, EncodeFile(env, p).value[..k]).None?
  {
    hide EncodeFile, DecodeFile;
    var bytes := EncodeFile(env, p).value;
    RoundTrip(env, p);
    if DecodeFile(env, bytes[..k]).Some? {
      assert bytes[..k] + bytes[k..] == bytes;
      AcceptedFilesArePrefixFree(env, bytes[..k], bytes[k..]);
    }
  }
}
