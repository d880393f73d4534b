/** The class a layout records and the class the search computes. A layout looks
    into the heap payloads of what it lays out directly; the search also looks
    behind slices. */
module LayoutAgreement {
  import opened Wrappers
  import opened Graphs
  import opened LayoutModel
  import opened LayoutClasses
  import opened LayoutRecursion

  // ---------------------------------------------------------------- parts laid out directly

  /** Parts whose class is merged into that of the whole. */
  function DirectParts(spec: Spec): seq<TypeId> {
    match spec
    case FixedArray(e, _) => [e]
    case Record(_, members) => members
    case Enum(_, members) => members
    case _ => []
  }

  function DirectGraph(types: Types): Graph<TypeId> { map t | t in types :: DirectParts(types[t]) }

  /** Flags of the class the search computes for a payload. */
  function PayloadFlags(types: Types, t: TypeId): set<Flag> {
    var r := ClassOf(types, {}, t);
    if r.Ok? then Flags(r.value) else {}
  }

  /** What a type owns on the heap: the payload of a box or a vector. */
  function HeapPart(types: Types, spec: Spec): set<Flag> {
    if spec.Box? || spec.Vec? then PayloadFlags(types, spec.element) else {}
  }

  /** What lies behind a slice. */
  function SlicePart(types: Types, spec: Spec): set<Flag> {
    if spec.Slice? then PayloadFlags(types, spec.element) else {}
  }

  function LayoutOwn(types: Types): map<TypeId, set<Flag>> {
    map t | t in types :: OwnFlags(types[t]) + HeapPart(types, types[t])
  }

  function SearchOwn(types: Types): map<TypeId, set<Flag>> {
    map t | t in types :: OwnFlags(types[t]) + HeapPart(types, types[t]) + SlicePart(types, types[t])
  }

  // ---------------------------------------------------------------- the search, unfolded from an empty stack

  /** From the empty stack the search below a node is the search of its parts. */
  lemma GatherUnfolds<N(!new), F(!new)>(g: Graph<N>, own: map<N, set<F>>, n: N)
    requires n in g
    ensures Gather(g, own, {}, n) == Own(own, n) + GatherAll(g, own, {}, g[n])
  {
    forall f
      ensures f in Gather(g, own, {}, n) <==> f in Own(own, n) || f in GatherAll(g, own, {}, g[n])
    {
      GatherIsReachability(g, own, n, f);
      if f in GatherAll(g, own, {}, g[n]) {
        var c := GatheredBelow(g, own, {}, g[n], f);
        var u :| Reaches(g, c, u) && f in Own(own, u);
        ReachesFrom(g, n, c, u);
      }
      if u :| Reaches(g, n, u) && f in Own(own, u) && f !in Own(own, n) {
        FirstStep(g, n, u);
        var c :| Edge(g, n, c) && Reaches(g, c, u);
        GatherIsReachability(g, own, c, f);
        GatherEach(g, own, {}, g[n], c);
      }
    }
  }

  lemma SameFlagsSameClass(a: Class, b: Class)
    requires Flags(a) == Flags(b)
    ensures a == b
  {
    assert forall f :: Has(a, f) <==> Has(b, f) by {
      forall f
        ensures Has(a, f) <==> Has(b, f)
      {
        assert f in Flags(a) <==> f in Flags(b);
      }
    }
    assert Has(a, MoveOnly) == Has(b, MoveOnly) && Has(a, NeedsDrop) == Has(b, NeedsDrop);
    assert Has(a, HasReference) == Has(b, HasReference) && Has(a, HasMutReference) == Has(b, HasMutReference);
    assert Has(a, HasRawPointer) == Has(b, HasRawPointer) && Has(a, HasBox) == Has(b, HasBox);
    assert Has(a, HasOwned) == Has(b, HasOwned) && Has(a, HasCapability) == Has(b, HasCapability);
  }

  /** The class of an aggregate is the merge of the classes of its members. */
  lemma AggregateClass(types: Types, t: TypeId, class_: Class)
    requires t in types && (types[t].Record? || types[t].Enum?)
    requires ClassOfAll(types, {}, types[t].members, COPY) == Ok(class_)
    ensures ClassOf(types, {}, t) == Ok(class_)
  {
    var g, own, members := OwningGraph(types), FlagMap(types, t), types[t].members;
    assert forall m :: m in members ==> m in Owning(types[t]);
    SearchGathers(types, t, {}, t);
    SearchGathersAll(types, t, {}, members, COPY);
    GatherUnfolds(g, own, t);
    NothingByItself(types[t]);
    assert Flags(COPY) + GatherAll(g, own, {}, members) == Own(own, t) + GatherAll(g, own, {}, g[t]);
    assert Flags(ClassOf(types, {}, t).value) == Flags(class_);
    SameFlagsSameClass(ClassOf(types, {}, t).value, class_);
  }

  /** The class of a wrapper follows from the class of what it wraps. */
  lemma WrapperClass(types: Types, t: TypeId)
    requires t in types && Wrapper(types[t])
    requires ClassOf(types, {}, types[t].element).Ok?
    ensures ClassOf(types, {}, t) == Wrap(types[t], ClassOf(types, {}, types[t].element))
  {
    var g, own, spec, e := OwningGraph(types), FlagMap(types, t), types[t], types[t].element;
    assert e in Owning(spec);
    SearchGathers(types, t, {}, t);
    SearchGathers(types, t, {}, e);
    GatherUnfolds(g, own, t);
    SingleGather(g, own, {}, e);
    assert g[t] == [e];
    WrapHolds(spec, ClassOf(types, {}, e), Gather(g, own, {}, e));
    SameFlagsSameClass(ClassOf(types, {}, t).value, Wrap(spec, ClassOf(types, {}, e)).value);
  }

  // ---------------------------------------------------------------- both classes, by what is laid out directly

  /** The two classes of a laid-out type, as unions over its direct parts. */
  ghost predicate Classified(types: Types, t: TypeId, l: Layout) {
    && ClassOf(types, {}, t).Ok?
    && Flags(l.class_) == Gather(DirectGraph(types), LayoutOwn(types), {}, t)
    && Flags(ClassOf(types, {}, t).value) == Gather(DirectGraph(types), SearchOwn(types), {}, t)
  }

  /** Both unions, one level unfolded. */
  lemma UnionsUnfold(types: Types, t: TypeId)
    requires t in types
    ensures Gather(DirectGraph(types), LayoutOwn(types), {}, t)
            == OwnFlags(types[t]) + HeapPart(types, types[t])
               + GatherAll(DirectGraph(types), LayoutOwn(types), {}, DirectParts(types[t]))
    ensures Gather(DirectGraph(types), SearchOwn(types), {}, t)
            == OwnFlags(types[t]) + HeapPart(types, types[t]) + SlicePart(types, types[t])
               + GatherAll(DirectGraph(types), SearchOwn(types), {}, DirectParts(types[t]))
  {
    hide Gather, GatherAll, OwnFlags, HeapPart, SlicePart;
    GatherUnfolds(DirectGraph(types), LayoutOwn(types), t);
    GatherUnfolds(DirectGraph(types), SearchOwn(types), t);
  }

  lemma {:induction false} ClassesAreUnions(types: Types, active: set<TypeId>, t: TypeId)
    requires LayoutOf(types, active, t).Ok?
    ensures Classified(types, t, LayoutOf(types, active, t).value)
    decreases types.Keys - active, 1
  {
    hide RecordLayout, EnumLayout, LayoutOwn, SearchOwn, DirectGraph, Flags, Classified, Gather, GatherAll, ClassOf;
    var inner := active + {t};
    var spec := types[t];
    if spec.Record? {
      FieldUnions(types, inner, spec.members, 0, 1, COPY, COPY, []);
      AggregateUnion(types, t, LayoutOf(types, active, t).value);
    } else if spec.Enum? {
      VariantUnions(types, inner, spec.members, 0, 1, COPY, COPY, []);
      AggregateUnion(types, t, LayoutOf(types, active, t).value);
    } else if spec.FixedArray? {
      ClassesAreUnions(types, inner, spec.element);
      ArrayUnion(types, t, LayoutOf(types, inner, spec.element).value, LayoutOf(types, active, t).value);
    } else {
      if spec.Slice? || spec.Vec? {
        ClassesAreUnions(types, inner, spec.element);
        ClassifiedHasClass(types, spec.element, LayoutOf(types, inner, spec.element).value);
      }
      LeafUnion(types, active, t);
    }
  }

  lemma ClassifiedHasClass(types: Types, t: TypeId, l: Layout)
    requires Classified(types, t, l)
    ensures ClassOf(types, {}, t).Ok?
  {
  }

  /** An aggregate adds nothing of its own to its members. */
  lemma AggregateUnion(types: Types, t: TypeId, l: Layout)
    requires t in types && (types[t].Record? || types[t].Enum?)
    requires Flags(l.class_) == GatherAll(DirectGraph(types), LayoutOwn(types), {}, types[t].members)
    requires ClassOfAll(types, {}, types[t].members, COPY).Ok?
    requires Flags(ClassOfAll(types, {}, types[t].members, COPY).value)
             == GatherAll(DirectGraph(types), SearchOwn(types), {}, types[t].members)
    ensures Classified(types, t, l)
  {
    hide ClassOf, ClassOfAll, Gather, GatherAll, Flags, DirectGraph, LayoutOwn, SearchOwn, OwnFlags;
    UnionsUnfold(types, t);
    NothingByItself(types[t]);
    AggregateClass(types, t, ClassOfAll(types, {}, types[t].members, COPY).value);
  }

  lemma ArrayUnion(types: Types, t: TypeId, item: Layout, l: Layout)
    requires t in types && types[t].FixedArray? && Classified(types, types[t].element, item) && l.class_ == item.class_
    ensures Classified(types, t, l)
  {
    hide ClassOf, Gather, GatherAll, Flags, DirectGraph, LayoutOwn, SearchOwn;
    var e := types[t].element;
    UnionsUnfold(types, t);
    SingleGather(DirectGraph(types), LayoutOwn(types), {}, e);
    SingleGather(DirectGraph(types), SearchOwn(types), {}, e);
    WrapperClass(types, t);
  }

  /** A type without direct parts is classified by itself. */
  lemma LeafUnion(types: Types, active: set<TypeId>, t: TypeId)
    requires LayoutOf(types, active, t).Ok? && DirectParts(types[t]) == [] && !types[t].Record? && !types[t].Enum?
    requires types[t].Slice? || types[t].Vec? ==> ClassOf(types, {}, types[t].element).Ok?
    ensures Classified(types, t, LayoutOf(types, active, t).value)
  {
    hide Gather, GatherAll, ClassOf, Flags, DirectGraph, LayoutOwn, SearchOwn, OwnFlags;
    var spec, l := types[t], LayoutOf(types, active, t).value;
    UnionsUnfold(types, t);
    NoParts(DirectGraph(types), LayoutOwn(types));
    NoParts(DirectGraph(types), SearchOwn(types));
    if Wrapper(spec) {
      WrapperClass(types, t);
      var payload := ClassOf(types, {}, spec.element);
      NeverBroken(payload.value);
      WrapHolds(spec, payload, Flags(payload.value));
      if spec.Slice? {
        LeafFlags(spec);
      }
    } else {
      LeafHolds(spec, t);
      SearchStep(types, {}, t);
      ScalarClass(types, active, t);
    }
  }

  lemma NoParts<N, F>(g: Graph<N>, own: map<N, set<F>>)
    ensures GatherAll(g, own, {}, []) == {}
  {
  }

  lemma NeverBroken(c: Class)
    ensures Broken !in Flags(c)
  {
  }

  lemma LeafFlags(spec: Spec)
    requires spec.Slice?
    ensures OwnFlags(spec) == Flags(ReferenceClass(spec.mutable))
  {
  }

  lemma ScalarClass(types: Types, active: set<TypeId>, t: TypeId)
    requires LayoutOf(types, active, t).Ok? && Owning(types[t]) == [] && !types[t].Record? && !types[t].Enum?
    ensures LeafClass(types[t], t) == Ok(LayoutOf(types, active, t).value.class_)
  {
    hide ClassOf;
  }

  lemma {:induction false} FieldUnions(types: Types, active: set<TypeId>, members: seq<TypeId>, end: nat, align: nat,
                                       class_: Class, search: Class, placed: seq<Placed>)
    requires RecordLayout(types, active, members, end, align, class_, placed).Ok?
    ensures Flags(RecordLayout(types, active, members, end, align, class_, placed).value.class_)
            == Flags(class_) + GatherAll(DirectGraph(types), LayoutOwn(types), {}, members)
    ensures ClassOfAll(types, {}, members, search).Ok?
    ensures Flags(ClassOfAll(types, {}, members, search).value)
            == Flags(search) + GatherAll(DirectGraph(types), SearchOwn(types), {}, members)
    ensures Flags(COPY) == {}
    decreases types.Keys - active, 2, |members|
  {
    hide LayoutOf, ClassOf, Flags, Gather, GatherAll, AlignUp, DirectGraph, LayoutOwn, SearchOwn;
    NothingInCopy();
    NoParts(DirectGraph(types), LayoutOwn(types));
    NoParts(DirectGraph(types), SearchOwn(types));
    if members != [] {
      ClassesAreUnions(types, active, members[0]);
      var f := LayoutOf(types, active, members[0]).value;
      var c := ClassOf(types, {}, members[0]).value;
      var offset := AlignUp(end, f.align).value;
      MergeFlags(class_, f.class_);
      MergeFlags(search, c);
      FieldUnions(types, active, members[1..], offset + f.size, Larger(align, f.align), class_.Merge(f.class_), search.Merge(c),
                  placed + [Placed(offset, f.size, f.align)]);
      UnionStep(Flags(class_), DirectGraph(types), LayoutOwn(types), members);
      UnionStep(Flags(search), DirectGraph(types), SearchOwn(types), members);
    }
  }

  lemma UnionStep<N, F>(before: set<F>, g: Graph<N>, own: map<N, set<F>>, ns: seq<N>)
    requires ns != []
    ensures (before + Gather(g, own, {}, ns[0])) + GatherAll(g, own, {}, ns[1..]) == before + GatherAll(g, own, {}, ns)
  {
    hide Gather;
  }

  lemma {:induction false} VariantUnions(types: Types, active: set<TypeId>, members: seq<TypeId>, size: nat, align: nat,
                                         class_: Class, search: Class, payloads: seq<(nat, nat)>)
    requires EnumLayout(types, active, members, size, align, class_, payloads).Ok?
    ensures Flags(EnumLayout(types, active, members, size, align, class_, payloads).value.class_)
            == Flags(class_) + GatherAll(DirectGraph(types), LayoutOwn(types), {}, members)
    ensures ClassOfAll(types, {}, members, search).Ok?
    ensures Flags(ClassOfAll(types, {}, members, search).value)
            == Flags(search) + GatherAll(DirectGraph(types), SearchOwn(types), {}, members)
    ensures Flags(COPY) == {}
    decreases types.Keys - active, 2, |members|
  {
    hide LayoutOf, ClassOf, Flags, Gather, AlignUp, DirectGraph, LayoutOwn, SearchOwn;
    NothingInCopy();
    if members != [] {
      ClassesAreUnions(types, active, members[0]);
      var v := LayoutOf(types, active, members[0]).value;
      var c := ClassOf(types, {}, members[0]).value;
      MergeFlags(class_, v.class_);
      MergeFlags(search, c);
      VariantUnions(types, active, members[1..], Larger(size, v.size), Larger(align, v.align), class_.Merge(v.class_), search.Merge(c),
                    payloads + [(v.size, v.align)]);
    }
  }

  lemma NothingInCopy()
    ensures Flags(COPY) == {}
  {
  }

  // ---------------------------------------------------------------- agreement

  /** What lies behind the slices laid out directly is already in the class. */
  ghost predicate SlicesAddNothing(types: Types, t: TypeId, class_: Class) {
    forall u :: Reaches(DirectGraph(types), t, u) && u in types && types[u].Slice?
                ==> PayloadFlags(types, types[u].element) <= Flags(class_)
  }

  /** For every type with a layout: the search finds the layout's class exactly
      when no slice laid out directly hides a flag the class does not have. */
  lemma AgreementExactly(types: Types, active: set<TypeId>, t: TypeId)
    requires LayoutOf(types, active, t).Ok?
    ensures ClassOf(types, {}, t) == Ok(LayoutOf(types, active, t).value.class_)
            <==> SlicesAddNothing(types, t, LayoutOf(types, active, t).value.class_)
  {
    hide LayoutOf, ClassOf, Gather, Flags, PayloadFlags, OwnFlags;
    var g, layoutClass := DirectGraph(types), LayoutOf(types, active, t).value.class_;
    ClassesAreUnions(types, active, t);
    var searchClass := ClassOf(types, {}, t).value;
    forall f
      ensures f in Flags(layoutClass) <==> exists u :: Reaches(g, t, u) && f in Own(LayoutOwn(types), u)
      ensures f in Flags(searchClass) <==> exists u :: Reaches(g, t, u) && f in Own(SearchOwn(types), u)
    {
      GatherIsReachability(g, LayoutOwn(types), t, f);
      GatherIsReachability(g, SearchOwn(types), t, f);
    }
    if SlicesAddNothing(types, t, layoutClass) {
      forall f
        ensures f in Flags(searchClass) <==> f in Flags(layoutClass)
      {
        if u :| Reaches(g, t, u) && f in Own(SearchOwn(types), u) {
          assert f in Own(LayoutOwn(types), u) || f in SlicePart(types, types[u]);
        }
        if u :| Reaches(g, t, u) && f in Own(LayoutOwn(types), u) {
          assert f in Own(SearchOwn(types), u);
        }
      }
      assert Flags(searchClass) == Flags(layoutClass);
      SameFlagsSameClass(searchClass, layoutClass);
    } else {
      var u :| Reaches(g, t, u) && u in types && types[u].Slice? && !(PayloadFlags(types, types[u].element) <= Flags(layoutClass));
      var f :| f in PayloadFlags(types, types[u].element) && f !in Flags(layoutClass);
      assert f in Own(SearchOwn(types), u);
    }
  }

  /** Without a slice laid out directly the two classes agree. */
  lemma LayoutClassIsSearchClass(types: Types, active: set<TypeId>, t: TypeId)
    requires LayoutOf(types, active, t).Ok?
    requires forall u :: Reaches(DirectGraph(types), t, u) && u in types ==> !types[u].Slice?
    ensures ClassOf(types, {}, t) == Ok(LayoutOf(types, active, t).value.class_)
  {
    hide LayoutOf, ClassOf;
    AgreementExactly(types, active, t);
  }
}
