/** The class search computes the union of ownership flags over everything a type
    owns, and agrees with the class of its layout. */
module LayoutClasses {
  import opened Wrappers
  import opened Graphs
  import opened LayoutModel

  datatype Flag = MoveOnly | NeedsDrop | HasReference | HasMutReference | HasRawPointer | HasBox | HasOwned | HasCapability | Broken

  predicate Has(c: Class, f: Flag) {
    match f
    case MoveOnly => c.moveOnly
    case NeedsDrop => c.needsDrop
    case HasReference => c.reference
    case HasMutReference => c.mutReference
    case HasRawPointer => c.rawPointer
    case HasBox => c.box
    case HasOwned => c.owned
    case HasCapability => c.capability
    case Broken => false
  }

  function Flags(c: Class): set<Flag> { set f: Flag | Has(c, f) }

  /** What a type contributes whatever it contains; a type without a meaning is `Broken`. */
  function OwnFlags(spec: Spec): set<Flag> {
    match spec
    case Param(_) => {Broken}
    case Unresolved => {Broken}
    case Reference(mutable, _) => Flags(ReferenceClass(mutable))
    case Slice(mutable, _) => Flags(ReferenceClass(mutable))
    case RawPointer(_, _) => {HasRawPointer}
    case Box(_) => {MoveOnly, NeedsDrop, HasBox, HasOwned}
    case Vec(_) => {MoveOnly, NeedsDrop, HasOwned}
    case Text => {MoveOnly, NeedsDrop, HasOwned}
    case _ => {}
  }

  /** Every type mentioned somewhere, so that a missing one is `Broken` too. */
  function Mentioned(types: Types): set<TypeId> {
    types.Keys + (set t, e | t in types && e in Owning(types[t]) :: e)
  }

  function FlagMap(types: Types, extra: TypeId): map<TypeId, set<Flag>> {
    map t | t in Mentioned(types) + {extra} :: if t in types then OwnFlags(types[t]) else {Broken}
  }

  /** The flags of everything reachable from `t` through owned parts. */
  ghost predicate Owned(types: Types, t: TypeId, f: Flag) {
    exists u :: Reaches(OwningGraph(types), t, u) && f in Own(FlagMap(types, t), u)
  }

  // ---------------------------------------------------------------- the search

  predicate Holds(r: Answer<Class>, flags: set<Flag>) {
    if Broken in flags then r.Err? else r.Ok? && Flags(r.value) == flags
  }

  /** A type that holds no other. */
  function LeafClass(spec: Spec, t: TypeId): Answer<Class>
    requires Owning(spec) == []
  {
    match spec
    case Param(_) => Err(NoLayout(t))
    case Unresolved => Err(NoLayout(t))
    case Reference(mutable, _) => Ok(ReferenceClass(mutable))
    case RawPointer(_, _) => Ok(RAW)
    case Text => Ok(COPY.OwnedBuffer())
    case _ => Ok(COPY)
  }

  predicate Wrapper(spec: Spec) { spec.Box? || spec.Vec? || spec.Slice? || spec.FixedArray? }

  /** A type that holds one other. */
  function Wrap(spec: Spec, payload: Answer<Class>): Answer<Class> {
    match spec
    case Box(_) => if payload.Ok? then Ok(payload.value.Boxed()) else payload
    case Vec(_) => if payload.Ok? then Ok(payload.value.OwnedBuffer()) else payload
    case Slice(mutable, _) => if payload.Ok? then Ok(ReferenceClass(mutable).Merge(payload.value)) else payload
    case _ => payload
  }

  lemma SearchStep(types: Types, active: set<TypeId>, t: TypeId)
    requires t in types && t !in active
    ensures ClassOf(types, active, t)
            == var spec := types[t];
               if spec.Record? || spec.Enum? then ClassOfAll(types, active + {t}, spec.members, COPY)
               else if Wrapper(spec) then Wrap(spec, ClassOf(types, active + {t}, spec.element))
               else LeafClass(spec, t)
  {
    hide ClassOfAll;
  }

  lemma GatherStep(types: Types, root: TypeId, active: set<TypeId>, t: TypeId)
    requires t in types && t !in active
    ensures Gather(OwningGraph(types), FlagMap(types, root), active, t)
            == OwnFlags(types[t]) + GatherAll(OwningGraph(types), FlagMap(types, root), active + {t}, Owning(types[t]))
    ensures forall e :: e in Owning(types[t]) ==> e in Mentioned(types) + {root}
  {
    hide GatherAll, OwnFlags;
  }

  lemma WrapHolds(spec: Spec, payload: Answer<Class>, flags: set<Flag>)
    requires Wrapper(spec) && Holds(payload, flags)
    ensures Holds(Wrap(spec, payload), OwnFlags(spec) + flags)
  {
    if payload.Ok? {
      var c, w := payload.value, Wrap(spec, payload).value;
      forall f
        ensures f in Flags(w) <==> f in OwnFlags(spec) || f in Flags(c)
      {
        assert Has(w, f) <==> f in OwnFlags(spec) || Has(c, f);
      }
    }
  }

  lemma LeafHolds(spec: Spec, t: TypeId)
    requires Owning(spec) == []
    ensures Holds(LeafClass(spec, t), OwnFlags(spec))
  {
    if LeafClass(spec, t).Ok? {
      assert Flags(LeafClass(spec, t).value) == OwnFlags(spec);
    }
  }

  lemma MergeHolds(class_: Class, r: Answer<Class>, flags: set<Flag>)
    requires r.Ok? && Holds(r, flags)
    ensures Flags(class_.Merge(r.value)) == Flags(class_) + flags
    ensures Broken !in flags && Broken !in Flags(class_)
  {
    MergeFlags(class_, r.value);
    assert !Has(class_, Broken);
  }

  lemma MergeFlags(a: Class, b: Class)
    ensures Flags(a.Merge(b)) == Flags(a) + Flags(b)
  {
    hide Has;
    forall f
      ensures f in Flags(a.Merge(b)) <==> f in Flags(a) || f in Flags(b)
    {
      MergeHas(a, b, f);
    }
  }

  lemma MergeHas(a: Class, b: Class, f: Flag)
    ensures Has(a.Merge(b), f) <==> Has(a, f) || Has(b, f)
  {
    match f
    case Broken =>
    case _ =>
  }

  lemma {:induction false} SearchGathers(types: Types, root: TypeId, active: set<TypeId>, t: TypeId)
    requires t in Mentioned(types) + {root} && active <= types.Keys
    ensures Holds(ClassOf(types, active, t), Gather(OwningGraph(types), FlagMap(types, root), active, t))
    decreases types.Keys - active, 1
  {
    if t !in active && t in types {
      hide ClassOf, ClassOfAll, Gather, GatherAll, Holds, Flags, FlagMap, Mentioned, OwnFlags;
      GatherStep(types, root, active, t);
      SearchStep(types, active, t);
      var inner := active + {t};
      var spec := types[t];
      if spec.Record? || spec.Enum? {
        SearchGathersAll(types, root, inner, spec.members, COPY);
        NothingByItself(spec);
      } else if Wrapper(spec) {
        assert spec.element in Owning(spec);
        SearchGathers(types, root, inner, spec.element);
        SingleGather(OwningGraph(types), FlagMap(types, root), inner, spec.element);
        WrapHolds(spec, ClassOf(types, inner, spec.element), Gather(OwningGraph(types), FlagMap(types, root), inner, spec.element));
      } else {
        LeafHolds(spec, t);
        EmptyGather(types, root, inner);
      }
    }
  }

  lemma NothingByItself(spec: Spec)
    requires spec.Record? || spec.Enum?
    ensures OwnFlags(spec) == Flags(COPY) == {}
  {
  }

  lemma EmptyGather(types: Types, root: TypeId, active: set<TypeId>)
    ensures GatherAll(OwningGraph(types), FlagMap(types, root), active, []) == {}
  {
  }

  lemma SingleGather<N, F>(g: Graph<N>, own: map<N, set<F>>, active: set<N>, n: N)
    ensures GatherAll(g, own, active, [n]) == Gather(g, own, active, n)
  {
    assert GatherAll(g, own, active, [n][1..]) == {};
  }

  lemma {:induction false} SearchGathersAll(types: Types, root: TypeId, active: set<TypeId>, members: seq<TypeId>, class_: Class)
    requires active <= types.Keys && forall m :: m in members ==> m in Mentioned(types) + {root}
    ensures Holds(ClassOfAll(types, active, members, class_),
                  Flags(class_) + GatherAll(OwningGraph(types), FlagMap(types, root), active, members))
    decreases types.Keys - active, 2, |members|
  {
    hide ClassOf, Gather, Flags, FlagMap, Mentioned;
    if members == [] {
      PlainHolds(class_);
      assert Flags(class_) + {} == Flags(class_);
    } else {
      SearchGathers(types, root, active, members[0]);
      var c, flags := ClassOf(types, active, members[0]), Gather(OwningGraph(types), FlagMap(types, root), active, members[0]);
      if c.Ok? {
        SearchGathersAll(types, root, active, members[1..], class_.Merge(c.value));
        MergeHolds(class_, c, flags);
        var rest := GatherAll(OwningGraph(types), FlagMap(types, root), active, members[1..]);
        assert (Flags(class_) + flags) + rest == Flags(class_) + (flags + rest);
      }
    }
  }

  lemma PlainHolds(class_: Class)
    ensures Broken !in Flags(class_)
  {
  }

  /** The search succeeds exactly when nothing reachable is without a meaning, and
      then a flag is set exactly when some reachable type sets it. */
  lemma ClassIsReachability(types: Types, t: TypeId)
    ensures ClassOf(types, {}, t).Ok? <==> !Owned(types, t, Broken)
    ensures ClassOf(types, {}, t).Ok? ==> forall f :: f in Flags(ClassOf(types, {}, t).value) <==> Owned(types, t, f)
  {
    var g, own := OwningGraph(types), FlagMap(types, t);
    SearchGathers(types, t, {}, t);
    forall f
      ensures f in Gather(g, own, {}, t) <==> Owned(types, t, f)
    {
      GatherIsReachability(g, own, t, f);
    }
  }
}
