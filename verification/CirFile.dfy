/** The CIR file: header, pools, section table and section region. */
module CirFile {
  import opened Wrappers
  import opened Traversal
  import opened CirBytes
  import opened CirIr
  import opened CirEncode
  import opened CirDecode
  import opened CirFunction

  const MAGIC: seq<Byte> := [67, 68, 73, 82]   // "CDIR"
  const VERSION: nat := 0

  // ---------------------------------------------------------------- writing

  function WriteU32(n: nat): Option<seq<Byte>> {
    if n < U32_LIMIT then Some(Le(n, 4)) else None
  }

  function WriteLengths(entries: seq<seq<Byte>>): Option<seq<Byte>> {
    if entries == [] then Some([])
    else
      var b :- WriteU32(|entries[0]|);
      var bs :- WriteLengths(entries[1..]);
      Some(b + bs)
  }

  function Concat(entries: seq<seq<Byte>>): seq<Byte> {
    if entries == [] then [] else entries[0] + Concat(entries[1..])
  }

  /** Count, lengths, then the concatenated bytes. */
  function WritePool(entries: seq<seq<Byte>>): Option<seq<Byte>> {
    var count :- WriteU32(|entries|);
    var lengths :- WriteLengths(entries);
    Some(count + (lengths + Concat(entries)))
  }

  predicate TextLess(a: seq<Byte>, b: seq<Byte>) {
    if b == [] then false
    else if a == [] then true
    else a[0] < b[0] || (a[0] == b[0] && TextLess(a[1..], b[1..]))
  }

  predicate Ascending(symbols: seq<Text>) {
    forall i :: 1 <= i < |symbols| ==> TextLess(symbols[i - 1], symbols[i])
  }

  /** Interns texts in order, returning their indices. */
  function InternAll(texts: seq<Text>, strings: seq<Text>): (r: Option<(seq<nat>, seq<Text>)>)
    ensures r.Some? ==> |r.value.0| == |texts| && strings <= r.value.1
    ensures r.Some? ==> forall i :: 0 <= i < |texts| ==>
              r.value.0[i] < |r.value.1| && r.value.0[i] < U32_LIMIT && r.value.1[r.value.0[i]] == texts[i]
  {
    if texts == [] then Some(([], strings))
    else
      var (i, strings1) :- Intern(strings, texts[0]);
      var (rest, strings2) :- InternAll(texts[1..], strings1);
      Some(([i] + rest, strings2))
  }

  /** Sections in table order, each continuing with the pools the last one left. */
  function EncodeSections(env: Env, symbols: seq<Text>, functions: seq<FunctionIr>, pools: Tables): (r: Option<(seq<seq<Byte>>, Tables)>)
    ensures r.Some? ==> |r.value.0| == |functions|
    ensures r.Some? ==> pools.strings <= r.value.1.strings && pools.data <= r.value.1.data
  {
    if functions == [] then Some(([], pools))
    else
      match EncodeSection(env, symbols, functions[0], pools)
      case Refused => None
      case Wrote(section, pools1) =>
        var (sections, pools2) :- EncodeSections(env, symbols, functions[1..], pools1);
        Some(([section] + sections, pools2))
  }

  function WriteTable(refs: seq<nat>, sections: seq<seq<Byte>>, offset: nat): Option<seq<Byte>>
    requires |refs| == |sections|
  {
    if refs == [] then Some([])
    else
      var symbol :- WriteU32(refs[0]);
      var start :- WriteU32(offset);
      var length :- WriteU32(|sections[0]|);
      if offset + |sections[0]| >= U32_LIMIT then None
      else
        var rows :- WriteTable(refs[1..], sections[1..], offset + |sections[0]|);
        Some((symbol + (start + length)) + rows)
  }

  function Symbols(functions: seq<FunctionIr>): seq<Text> {
    Map((f: FunctionIr) => f.symbolHash, functions)
  }

  /** Everything before the section region. */
  function WriteHeader(p: Program, pools: Tables, targetRef: nat, refs: seq<nat>, sections: seq<seq<Byte>>): Option<seq<Byte>>
    requires |refs| == |sections|
  {
    var strings :- WritePool(pools.strings);
    var data :- WritePool(pools.data);
    var target :- WriteU32(targetRef);
    var entry :- WriteU32(p.entryIndex);
    var count :- WriteU32(|sections|);
    var table :- WriteTable(refs, sections, 0);
    Some(MAGIC + (Le(VERSION, 4) + (strings + (data + (target + (entry + (count + table)))))))
  }

  /** The bytes of a program, or `None` where the original reports an error. */
  function EncodeFile(env: Env, p: Program): Option<seq<Byte>> {
    var symbols := Symbols(p.functions);
    if p.functions == [] || p.entryIndex >= |p.functions| || !Ascending(symbols) then None
    else
      var (targetRef, strings0) :- Intern([], p.target);
      var (refs, strings1) :- InternAll(symbols, strings0);
      var (sections, pools) :- EncodeSections(env, symbols, p.functions, Tables(strings1, [], [], []));
      var header :- WriteHeader(p, pools, targetRef, refs, sections);
      Some(header + Concat(sections))
  }

  // ---------------------------------------------------------------- reading

  function ReadLengths(n: nat, s: seq<Byte>): (r: Dec<seq<nat>>)
    ensures r.Got? ==> |r.value| == n && |r.rest| <= |s|
  {
    if n == 0 then Got([], s)
    else
      var (length, s1) :- ReadLe(4, s);
      var (lengths, rest) :- ReadLengths(n - 1, s1);
      Got([length] + lengths, rest)
  }

  function ReadChunks(lengths: seq<nat>, s: seq<Byte>): (r: Dec<seq<seq<Byte>>>)
    ensures r.Got? ==> |r.value| == |lengths| && |r.rest| <= |s|
    decreases |lengths|
  {
    if lengths == [] then Got([], s)
    else
      var (chunk, s1) :- ReadBytes(lengths[0], s);
      var (chunks, rest) :- ReadChunks(lengths[1..], s1);
      Got([chunk] + chunks, rest)
  }

  function ReadPool(s: seq<Byte>): Dec<seq<seq<Byte>>> {
    var (n, s1) :- ReadLe(4, s);
    var (lengths, s2) :- ReadLengths(n, s1);
    ReadChunks(lengths, s2)
  }

  function AsText(b: seq<Byte>): Option<Text> {
    if ValidUtf8(b) then Some(b) else None
  }

  datatype Span = Span(symbol: Text, offset: nat, length: nat)

  function ReadTable(strings: seq<Text>, n: nat, s: seq<Byte>): (r: Dec<seq<Span>>)
    ensures r.Got? ==> |r.value| == n
  {
    if n == 0 then Got([], s)
    else
      var (symbol, s1) :- Lookup(strings, s);
      var (offset, s2) :- ReadLe(4, s1);
      var (length, s3) :- ReadLe(4, s2);
      var (spans, rest) :- ReadTable(strings, n - 1, s3);
      Got([Span(symbol, offset, length)] + spans, rest)
  }

  datatype Header = Header(strings: seq<Text>, data: seq<seq<Byte>>, target: Text,
                           entryIndex: nat, spans: seq<Span>)

  function ReadHeader(s: seq<Byte>): Dec<Header> {
    var (magic, s1) :- ReadBytes(4, s);
    var (version, s2) :- ReadLe(4, s1);
    if magic != MAGIC || version != VERSION then Fail
    else
      var (rawStrings, s3) :- ReadPool(s2);
      match Traverse(AsText, rawStrings)
      case None => Fail
      case Some(strings) =>
        var (data, s4) :- ReadPool(s3);
        var (target, s5) :- Lookup(strings, s4);
        var (entry, s6) :- ReadLe(4, s5);
        var (count, s7) :- ReadLe(4, s6);
        if count == 0 || entry >= count then Fail
        else
          var (spans, rest) :- ReadTable(strings, count, s7);
          Got(Header(strings, data, target, entry, spans), rest)
  }

  function SpanSymbols(spans: seq<Span>): seq<Text> {
    Map((x: Span) => x.symbol, spans)
  }

  /** Decodes the spans from the `expected` offset on; the last must end the region. */
  function DecodeSections(env: Env, h: Header, symbols: seq<Text>, spans: seq<Span>, expected: nat, region: seq<Byte>): (r: Option<seq<FunctionIr>>)
    ensures r.Some? ==> |r.value| == |spans|
    decreases |spans|
  {
    if spans == [] then
      if expected == |region| then Some([]) else None
    else
      var x := spans[0];
      if x.offset != expected || x.offset + x.length > |region| then None
      else
        var f :- DecodeSection(env, h.strings, h.data, symbols, region[x.offset..x.offset + x.length]);
        if f.symbolHash != x.symbol then None
        else
          var fs :- DecodeSections(env, h, symbols, spans[1..], expected + x.length, region);
          Some([f] + fs)
  }

  function DecodeFile(env: Env, bytes: seq<Byte>): Option<Program> {
    match ReadHeader(bytes)
    case Fail => None
    case Got(h, region) =>
      var functions :- DecodeSections(env, h, SpanSymbols(h.spans), h.spans, 0, region);
      Some(Program(h.target, h.entryIndex, functions))
  }
}
