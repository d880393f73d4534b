/** What the definitions recorded with a layout determine. Type ids and
    definition hashes are content hashes: an id keeps its meaning from root to
    root, except that a named type is defined anew, under another hash that
    still names the type it defines. */
module LayoutKeys {
  import opened Wrappers
  import opened Graphs
  import opened LayoutModel
  import opened LayoutClasses
  import opened LayoutRecursion
  import opened LayoutAgreement

  predicate Named(spec: Spec) { (spec.Record? || spec.Enum?) && spec.def.Some? }

  /** Every definition hash names the type it defines, and a root gives each named
      type one definition, whatever its arguments. */
  ghost predicate OneRoot(types: Types, symbolOf: TypeId -> string, owner: DefHash -> string) {
    && (forall t :: t in types && Named(types[t]) ==> owner(types[t].def.value) == symbolOf(t))
    && (forall t, u :: t in types && u in types && Named(types[t]) && Named(types[u]) && symbolOf(t) == symbolOf(u)
                       ==> types[t].def == types[u].def)
  }

  /** Two roots' tables over the same content: only redefined named types, and
      types one of the roots cannot resolve, differ. */
  ghost predicate SameContent(a: Types, b: Types, symbolOf: TypeId -> string, owner: DefHash -> string) {
    && OneRoot(a, symbolOf, owner) && OneRoot(b, symbolOf, owner)
    && forall t :: t in a && t in b ==>
         || a[t] == b[t]
         || (Named(a[t]) && Named(b[t]) && a[t].def != b[t].def)
         || a[t].Unresolved? || b[t].Unresolved?
  }

  /** The definitions recorded with the layout of `t`. */
  function Recorded(types: Types, t: TypeId): set<DefHash> { Gather(InsideGraph(types), Definitions(types), {}, t) }

  // ---------------------------------------------------------------- equal definitions, equal parts

  lemma LaidOutIsResolved(types: Types, t: TypeId)
    requires LayoutOf(types, {}, t).Ok?
    ensures t in types && !types[t].Unresolved?
  {
    hide RecordLayout, EnumLayout, ClassOf;
  }

  lemma ReachedIsRecorded(types: Types, t: TypeId, u: TypeId)
    requires Reaches(InsideGraph(types), t, u) && u in types && Named(types[u])
    ensures types[u].def.value in Recorded(types, t)
  {
    GatherIsReachability(InsideGraph(types), Definitions(types), t, types[u].def.value);
    assert types[u].def.value in Own(Definitions(types), u);
  }

  lemma RecordedIsReached(types: Types, t: TypeId, d: DefHash) returns (u: TypeId)
    requires d in Recorded(types, t)
    ensures Reaches(InsideGraph(types), t, u) && u in types && Named(types[u]) && types[u].def == Some(d)
  {
    GatherIsReachability(InsideGraph(types), Definitions(types), t, d);
    u :| Reaches(InsideGraph(types), t, u) && d in Own(Definitions(types), u);
  }

  /** A type laid out inside both has the same definition in both. */
  lemma SameSpec(a: Types, b: Types, symbolOf: TypeId -> string, owner: DefHash -> string, t: TypeId, u: TypeId)
    requires SameContent(a, b, symbolOf, owner) && Recorded(a, t) == Recorded(b, t)
    requires Reaches(InsideGraph(a), t, u) && Reaches(InsideGraph(b), t, u)
    requires LayoutOf(a, {}, u).Ok? && LayoutOf(b, {}, u).Ok?
    ensures u in a && u in b && a[u] == b[u]
  {
    hide LayoutOf, Recorded;
    LaidOutIsResolved(a, u);
    LaidOutIsResolved(b, u);
    if a[u] != b[u] {
      ReachedIsRecorded(b, t, u);
      var v := RecordedIsReached(a, t, b[u].def.value);
    }
  }

  lemma {:induction false} SamePath(a: Types, b: Types, symbolOf: TypeId -> string, owner: DefHash -> string, t: TypeId,
                                    path: seq<TypeId>, u: TypeId)
    requires SameContent(a, b, symbolOf, owner) && Recorded(a, t) == Recorded(b, t)
    requires LayoutOf(a, {}, t).Ok? && LayoutOf(b, {}, t).Ok?
    requires IsPath(InsideGraph(a), path, t, u)
    ensures IsPath(InsideGraph(b), path, t, u) && u in a && u in b && a[u] == b[u]
    decreases |path|
  {
    hide LayoutOf, Recorded, SameContent;
    if |path| > 1 {
      var shorter := path[..|path| - 1];
      var v := path[|path| - 2];
      forall i | 0 <= i < |shorter| - 1
        ensures Edge(InsideGraph(a), shorter[i], shorter[i + 1])
      {
        assert Edge(InsideGraph(a), path[i], path[i + 1]);
      }
      SamePath(a, b, symbolOf, owner, t, shorter, v);
      assert Edge(InsideGraph(a), path[|path| - 2], path[|path| - 1]);
      forall i | 0 <= i < |path| - 1
        ensures Edge(InsideGraph(b), path[i], path[i + 1])
      {
        if i + 1 < |shorter| {
          assert Edge(InsideGraph(b), shorter[i], shorter[i + 1]);
        }
      }
    }
    assert IsPath(InsideGraph(b), path, t, u);
    PathHasLayouts(a, {}, path, t, u);
    PathHasLayouts(b, {}, path, t, u);
    SameSpec(a, b, symbolOf, owner, t, u);
  }

  /** Everything laid out inside `t` means the same in both tables. */
  ghost predicate SameInside(a: Types, b: Types, t: TypeId) {
    forall u :: Reaches(InsideGraph(a), t, u) ==> u in a && u in b && a[u] == b[u]
  }

  lemma SameRecordedSameInside(a: Types, b: Types, symbolOf: TypeId -> string, owner: DefHash -> string, t: TypeId)
    requires SameContent(a, b, symbolOf, owner) && Recorded(a, t) == Recorded(b, t)
    requires LayoutOf(a, {}, t).Ok? && LayoutOf(b, {}, t).Ok?
    ensures SameInside(a, b, t)
  {
    hide LayoutOf, Recorded, SameContent;
    forall u | Reaches(InsideGraph(a), t, u)
      ensures u in a && u in b && a[u] == b[u]
    {
      var path :| IsPath(InsideGraph(a), path, t, u);
      SamePath(a, b, symbolOf, owner, t, path, u);
    }
  }

  // ---------------------------------------------------------------- the same shape

  /** Layouts that differ at most in the class. */
  predicate SameShape(l: Layout, m: Layout) { l.size == m.size && l.align == m.align && l.shape == m.shape }

  lemma InsideOfPart(a: Types, b: Types, t: TypeId, part: TypeId)
    requires SameInside(a, b, t) && t in a && part in Inside(a[t])
    ensures SameInside(a, b, part)
  {
    assert Edge(InsideGraph(a), t, part);
    forall u | Reaches(InsideGraph(a), part, u)
      ensures Reaches(InsideGraph(a), t, u)
    {
      ReachesFrom(InsideGraph(a), t, part, u);
    }
  }

  lemma {:induction false} ShapesAgree(a: Types, b: Types, active: set<TypeId>, t: TypeId)
    requires SameInside(a, b, t) && LayoutOf(a, active, t).Ok? && LayoutOf(b, active, t).Ok?
    ensures SameShape(LayoutOf(a, active, t).value, LayoutOf(b, active, t).value)
    decreases a.Keys - active, 1
  {
    hide RecordLayout, EnumLayout, ClassOf, SameInside;
    SpecHere(a, b, t);
    var inner := active + {t};
    match a[t]
    case Vec(e) => InsideOfPart(a, b, t, e); ShapesAgree(a, b, inner, e);
    case Slice(_, e) => InsideOfPart(a, b, t, e); ShapesAgree(a, b, inner, e);
    case FixedArray(e, _) => InsideOfPart(a, b, t, e); ShapesAgree(a, b, inner, e);
    case Record(_, members) =>
      PartsInside(a, b, t);
      FieldShapesAgree(a, b, inner, members, 0, 1, COPY, COPY, []);
    case Enum(_, members) =>
      PartsInside(a, b, t);
      VariantShapesAgree(a, b, inner, members, 0, 1, COPY, COPY, []);
    case _ =>
  }

  lemma SpecHere(a: Types, b: Types, t: TypeId)
    requires SameInside(a, b, t)
    ensures t in a && t in b && a[t] == b[t]
  {
    ReachesItself(InsideGraph(a), t);
  }

  lemma PartsInside(a: Types, b: Types, t: TypeId)
    requires SameInside(a, b, t) && t in a
    ensures forall part :: part in Inside(a[t]) ==> SameInside(a, b, part)
  {
    hide SameInside;
    forall part | part in Inside(a[t])
      ensures SameInside(a, b, part)
    {
      InsideOfPart(a, b, t, part);
    }
  }

  lemma {:induction false} FieldShapesAgree(a: Types, b: Types, active: set<TypeId>, members: seq<TypeId>, end: nat, align: nat,
                                            c: Class, d: Class, placed: seq<Placed>)
    requires forall m :: m in members ==> SameInside(a, b, m)
    requires RecordLayout(a, active, members, end, align, c, placed).Ok? && RecordLayout(b, active, members, end, align, d, placed).Ok?
    ensures SameShape(RecordLayout(a, active, members, end, align, c, placed).value, RecordLayout(b, active, members, end, align, d, placed).value)
    decreases a.Keys - active, 2, |members|
  {
    hide LayoutOf, SameInside;
    if members != [] {
      ShapesAgree(a, b, active, members[0]);
      var f, g := LayoutOf(a, active, members[0]).value, LayoutOf(b, active, members[0]).value;
      var offset := AlignUp(end, f.align).value;
      FieldShapesAgree(a, b, active, members[1..], offset + f.size, Larger(align, f.align), c.Merge(f.class_), d.Merge(g.class_),
                       placed + [Placed(offset, f.size, f.align)]);
    }
  }

  lemma {:induction false} VariantShapesAgree(a: Types, b: Types, active: set<TypeId>, members: seq<TypeId>, size: nat, align: nat,
                                              c: Class, d: Class, payloads: seq<(nat, nat)>)
    requires forall m :: m in members ==> SameInside(a, b, m)
    requires EnumLayout(a, active, members, size, align, c, payloads).Ok? && EnumLayout(b, active, members, size, align, d, payloads).Ok?
    ensures SameShape(EnumLayout(a, active, members, size, align, c, payloads).value, EnumLayout(b, active, members, size, align, d, payloads).value)
    decreases a.Keys - active, 2, |members|
  {
    hide LayoutOf, SameInside;
    if members != [] {
      ShapesAgree(a, b, active, members[0]);
      var f, g := LayoutOf(a, active, members[0]).value, LayoutOf(b, active, members[0]).value;
      VariantShapesAgree(a, b, active, members[1..], Larger(size, f.size), Larger(align, f.align), c.Merge(f.class_), d.Merge(g.class_),
                         payloads + [(f.size, f.align)]);
    }
  }

  // ---------------------------------------------------------------- the class

  /** Flags of the types laid out directly, without their heap payloads. */
  function PlainFlags(types: Types, t: TypeId): set<Flag> {
    Gather(DirectGraph(types), map u | u in types :: OwnFlags(types[u]), {}, t)
  }

  /** Flags of the payloads of the boxes and vectors laid out directly. */
  function HeapFlags(types: Types, t: TypeId): set<Flag> {
    Gather(DirectGraph(types), map u | u in types :: HeapPart(types, types[u]), {}, t)
  }

  lemma ClassSplits(types: Types, t: TypeId)
    requires LayoutOf(types, {}, t).Ok?
    ensures Flags(LayoutOf(types, {}, t).value.class_) == PlainFlags(types, t) + HeapFlags(types, t)
  {
    hide LayoutOf, Gather, OwnFlags, HeapPart, Flags, ClassOf;
    ClassesAreUnions(types, {}, t);
    var g, plain, heap := DirectGraph(types), map u | u in types :: OwnFlags(types[u]), map u | u in types :: HeapPart(types, types[u]);
    forall f
      ensures f in Gather(g, LayoutOwn(types), {}, t) <==> f in Gather(g, plain, {}, t) || f in Gather(g, heap, {}, t)
    {
      GatherIsReachability(g, LayoutOwn(types), t, f);
      GatherIsReachability(g, plain, t, f);
      GatherIsReachability(g, heap, t, f);
      if u :| Reaches(g, t, u) && f in Own(LayoutOwn(types), u) {
        assert f in Own(plain, u) || f in Own(heap, u);
      }
      if u :| Reaches(g, t, u) && f in Own(plain, u) {
        assert f in Own(LayoutOwn(types), u);
      }
      if u :| Reaches(g, t, u) && f in Own(heap, u) {
        assert f in Own(LayoutOwn(types), u);
      }
    }
  }

  /** Direct parts are laid out inside. */
  lemma {:induction false} DirectPathIsInside(types: Types, path: seq<TypeId>, t: TypeId, u: TypeId)
    requires IsPath(DirectGraph(types), path, t, u)
    ensures IsPath(InsideGraph(types), path, t, u)
  {
    forall i | 0 <= i < |path| - 1
      ensures Edge(InsideGraph(types), path[i], path[i + 1])
    {
      assert Edge(DirectGraph(types), path[i], path[i + 1]);
    }
  }

  lemma SameDirectPath(a: Types, b: Types, path: seq<TypeId>, t: TypeId, u: TypeId)
    requires SameInside(a, b, t) && IsPath(DirectGraph(a), path, t, u)
    ensures IsPath(DirectGraph(b), path, t, u) && u in a && u in b && a[u] == b[u]
  {
    DirectPathIsInside(a, path, t, u);
    forall i | 0 <= i < |path|
      ensures path[i] in a && path[i] in b && a[path[i]] == b[path[i]]
    {
      PrefixPath(InsideGraph(a), path, t, u, i);
      assert Reaches(InsideGraph(a), t, path[i]);
    }
    forall i | 0 <= i < |path| - 1
      ensures Edge(DirectGraph(b), path[i], path[i + 1])
    {
      assert Edge(DirectGraph(a), path[i], path[i + 1]);
    }
  }

  lemma PrefixPath<N>(g: Graph<N>, path: seq<N>, t: N, u: N, i: nat)
    requires IsPath(g, path, t, u) && i < |path|
    ensures IsPath(g, path[..i + 1], t, path[i])
  {
    var shorter := path[..i + 1];
    forall j | 0 <= j < |shorter| - 1
      ensures Edge(g, shorter[j], shorter[j + 1])
    {
      assert Edge(g, path[j], path[j + 1]);
    }
  }

  /** Types with the same meaning inside one another are reached alike. */
  lemma SameDirectReach(a: Types, b: Types, t: TypeId, u: TypeId)
    requires SameInside(a, b, t) && SameInside(b, a, t)
    ensures Reaches(DirectGraph(a), t, u) <==> Reaches(DirectGraph(b), t, u)
    ensures Reaches(DirectGraph(a), t, u) ==> u in a && u in b && a[u] == b[u]
  {
    hide SameInside;
    if path :| IsPath(DirectGraph(a), path, t, u) {
      SameDirectPath(a, b, path, t, u);
    }
    if path :| IsPath(DirectGraph(b), path, t, u) {
      SameDirectPath(b, a, path, t, u);
    }
  }

  lemma SamePlainFlags(a: Types, b: Types, t: TypeId)
    requires SameInside(a, b, t) && SameInside(b, a, t)
    ensures PlainFlags(a, t) == PlainFlags(b, t)
  {
    hide Gather, OwnFlags, SameInside;
    var inA, inB := map u | u in a :: OwnFlags(a[u]), map u | u in b :: OwnFlags(b[u]);
    forall f
      ensures f in PlainFlags(a, t) <==> f in PlainFlags(b, t)
    {
      GatherIsReachability(DirectGraph(a), inA, t, f);
      GatherIsReachability(DirectGraph(b), inB, t, f);
      if u :| Reaches(DirectGraph(a), t, u) && f in Own(inA, u) {
        SameDirectReach(a, b, t, u);
        assert f in Own(inB, u);
      }
      if u :| Reaches(DirectGraph(b), t, u) && f in Own(inB, u) {
        SameDirectReach(a, b, t, u);
        assert f in Own(inA, u);
      }
    }
  }

  /** Equal recorded definitions fix the layout up to its class, and fix it
      altogether exactly when the payloads of the boxes and vectors laid out
      directly add the same flags to it. */
  lemma RecordedDefinitionsFixLayout(a: Types, b: Types, symbolOf: TypeId -> string, owner: DefHash -> string, t: TypeId)
    requires SameContent(a, b, symbolOf, owner) && Recorded(a, t) == Recorded(b, t)
    requires LayoutOf(a, {}, t).Ok? && LayoutOf(b, {}, t).Ok?
    ensures SameShape(LayoutOf(a, {}, t).value, LayoutOf(b, {}, t).value)
    ensures PlainFlags(a, t) == PlainFlags(b, t)
    ensures LayoutOf(a, {}, t) == LayoutOf(b, {}, t)
            <==> HeapFlags(a, t) - PlainFlags(a, t) == HeapFlags(b, t) - PlainFlags(b, t)
  {
    hide LayoutOf, Recorded, SameContent, SameInside, PlainFlags, HeapFlags, Flags;
    SwapContent(a, b, symbolOf, owner);
    SameRecordedSameInside(a, b, symbolOf, owner, t);
    SameRecordedSameInside(b, a, symbolOf, owner, t);
    ShapesAgree(a, b, {}, t);
    SamePlainFlags(a, b, t);
    ClassSplits(a, t);
    ClassSplits(b, t);
    var l, m := LayoutOf(a, {}, t).value, LayoutOf(b, {}, t).value;
    SameUnion(PlainFlags(a, t), HeapFlags(a, t), HeapFlags(b, t));
    if Flags(l.class_) == Flags(m.class_) {
      SameFlagsSameClass(l.class_, m.class_);
    }
  }

  lemma SwapContent(a: Types, b: Types, symbolOf: TypeId -> string, owner: DefHash -> string)
    requires SameContent(a, b, symbolOf, owner)
    ensures SameContent(b, a, symbolOf, owner)
  {
  }

  lemma SameUnion<F>(plain: set<F>, x: set<F>, y: set<F>)
    ensures plain + x == plain + y <==> x - plain == y - plain
  {
    if plain + x == plain + y {
      assert x - plain == (plain + x) - plain == (plain + y) - plain == y - plain;
    }
    if x - plain == y - plain {
      assert plain + x == plain + (x - plain) && plain + y == plain + (y - plain);
    }
  }

  /** In particular a layout without a box or a vector laid out directly is fixed
      by its recorded definitions. */
  lemma NoHeapNoSurprise(a: Types, b: Types, symbolOf: TypeId -> string, owner: DefHash -> string, t: TypeId)
    requires SameContent(a, b, symbolOf, owner) && Recorded(a, t) == Recorded(b, t)
    requires LayoutOf(a, {}, t).Ok? && LayoutOf(b, {}, t).Ok?
    requires forall u :: Reaches(DirectGraph(a), t, u) && u in a ==> !a[u].Box? && !a[u].Vec?
    ensures LayoutOf(a, {}, t) == LayoutOf(b, {}, t)
  {
    hide LayoutOf, Recorded, SameContent, SameInside, PlainFlags;
    RecordedDefinitionsFixLayout(a, b, symbolOf, owner, t);
    SwapContent(a, b, symbolOf, owner);
    SameRecordedSameInside(a, b, symbolOf, owner, t);
    SameRecordedSameInside(b, a, symbolOf, owner, t);
    forall u
      ensures Reaches(DirectGraph(a), t, u) <==> Reaches(DirectGraph(b), t, u)
      ensures Reaches(DirectGraph(a), t, u) ==> u in a && u in b && a[u] == b[u]
    {
      SameDirectReach(a, b, t, u);
    }
    NothingOnHeap(a, t);
    NothingOnHeap(b, t);
  }

  lemma NothingOnHeap(types: Types, t: TypeId)
    requires forall u :: Reaches(DirectGraph(types), t, u) && u in types ==> !types[u].Box? && !types[u].Vec?
    ensures HeapFlags(types, t) == {}
  {
    hide Gather;
    var heap := map u | u in types :: HeapPart(types, types[u]);
    forall f
      ensures f !in HeapFlags(types, t)
    {
      GatherIsReachability(DirectGraph(types), heap, t, f);
    }
  }

  // ---------------------------------------------------------------- a definition that is not recorded

  /** A box of a record before and after the record's one member changes from a
      number to a raw pointer: the same content otherwise. */
  function BoxedRecord(box: TypeId, record: TypeId, number: TypeId, pointer: TypeId, def: DefHash, member: TypeId): Types {
    map[box := Box(record), record := Record(Some(def), [member]), number := Scalar(Width8), pointer := RawPointer(true, number)]
  }

  predicate Apart(box: TypeId, record: TypeId, number: TypeId, pointer: TypeId) {
    box != record && box != number && box != pointer && record != number && record != pointer && number != pointer
  }

  /** Redefining a record behind a box changes the layout's class and not the
      definitions recorded with it: one key stands for two layouts. */
  lemma {:induction false} BoxedDefinitionsAreNotRecorded(box: TypeId, record: TypeId, number: TypeId, pointer: TypeId,
                                                          before: DefHash, after: DefHash, symbolOf: TypeId -> string, owner: DefHash -> string)
    requires Apart(box, record, number, pointer) && before != after
    requires owner(before) == owner(after) == symbolOf(record)
    ensures var a := BoxedRecord(box, record, number, pointer, before, number);
            var b := BoxedRecord(box, record, number, pointer, after, pointer);
            && SameContent(a, b, symbolOf, owner)
            && Recorded(a, box) == Recorded(b, box) == {}
            && LayoutOf(a, {}, box) == Ok(Layout(PTR_BYTES, PTR_BYTES, COPY.Boxed(), Whole))
            && LayoutOf(b, {}, box) == Ok(Layout(PTR_BYTES, PTR_BYTES, RAW.Boxed(), Whole))
  {
    hide LayoutOf, Recorded, ClassOf, SameContent, BoxedRecord;
    Rows(box, record, number, pointer, before, number);
    Rows(box, record, number, pointer, after, pointer);
    var a := BoxedRecord(box, record, number, pointer, before, number);
    var b := BoxedRecord(box, record, number, pointer, after, pointer);
    SameButRedefined(box, record, number, pointer, before, after, symbolOf, owner);
    MemberClasses(a, record, number, pointer);
    MemberClasses(b, record, number, pointer);
    RecordClass(a, record, number, before, COPY);
    RecordClass(b, record, pointer, after, RAW);
    BoxLayout(a, box, record, COPY);
    BoxLayout(b, box, record, RAW);
  }

  lemma {:induction false} Rows(box: TypeId, record: TypeId, number: TypeId, pointer: TypeId, def: DefHash, member: TypeId)
    requires Apart(box, record, number, pointer)
    ensures var types := BoxedRecord(box, record, number, pointer, def, member);
            && types.Keys == {box, record, number, pointer} && types[record] == Record(Some(def), [member])
            && types[box] == Box(record) && types[number] == Scalar(Width8) && types[pointer] == RawPointer(true, number)
  {
  }

  lemma {:induction false} SameButRedefined(box: TypeId, record: TypeId, number: TypeId, pointer: TypeId, before: DefHash, after: DefHash,
                                            symbolOf: TypeId -> string, owner: DefHash -> string)
    requires Apart(box, record, number, pointer) && before != after && owner(before) == owner(after) == symbolOf(record)
    ensures SameContent(BoxedRecord(box, record, number, pointer, before, number), BoxedRecord(box, record, number, pointer, after, pointer),
                        symbolOf, owner)
  {
    hide BoxedRecord;
    Rows(box, record, number, pointer, before, number);
    Rows(box, record, number, pointer, after, pointer);
    OneNamedType(BoxedRecord(box, record, number, pointer, before, number), record, symbolOf, owner);
    OneNamedType(BoxedRecord(box, record, number, pointer, after, pointer), record, symbolOf, owner);
    hide OneRoot;
  }

  lemma {:induction false} OneNamedType(types: Types, record: TypeId, symbolOf: TypeId -> string, owner: DefHash -> string)
    requires record in types && Named(types[record]) && owner(types[record].def.value) == symbolOf(record)
    requires forall t :: t in types && Named(types[t]) ==> t == record
    ensures OneRoot(types, symbolOf, owner)
  {
    hide Named;
  }

  lemma {:induction false} MemberClasses(types: Types, record: TypeId, number: TypeId, pointer: TypeId)
    requires number != record && pointer != record && number in types && pointer in types
    requires types[number] == Scalar(Width8) && types[pointer] == RawPointer(true, number)
    ensures ClassOf(types, {record}, number) == Ok(COPY) && ClassOf(types, {record}, pointer) == Ok(RAW)
  {
  }

  lemma {:induction false} RecordClass(types: Types, record: TypeId, member: TypeId, def: DefHash, class_: Class)
    requires record in types && types[record] == Record(Some(def), [member]) && member != record
    requires member in types && ClassOf(types, {record}, member) == Ok(class_) && COPY.Merge(class_) == class_
    ensures ClassOf(types, {}, record) == Ok(class_)
  {
    assert [member][1..] == [] && {} + {record} == {record};
    assert ClassOfAll(types, {record}, [], class_) == Ok(class_);
    assert ClassOfAll(types, {record}, [member], COPY) == Ok(class_);
  }

  lemma {:induction false} BoxLayout(types: Types, box: TypeId, record: TypeId, class_: Class)
    requires box in types && types[box] == Box(record) && record in types && ClassOf(types, {}, record) == Ok(class_)
    ensures LayoutOf(types, {}, box) == Ok(Layout(PTR_BYTES, PTR_BYTES, class_.Boxed(), Whole))
    ensures Recorded(types, box) == {}
  {
    hide ClassOf;
    assert LayoutOf(types, {}, box) == LayoutInner(types, {} + {box}, box);
    assert InsideGraph(types)[box] == [] && Definitions(types)[box] == {};
    assert GatherAll(InsideGraph(types), Definitions(types), {} + {box}, []) == {};
  }
}
