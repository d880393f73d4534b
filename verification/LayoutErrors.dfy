/** Which errors a layout can end in. */
module LayoutErrors {
  import opened Wrappers
  import opened Graphs
  import opened LayoutModel
  import opened LayoutRecursion
  import opened LayoutRegions

  /** Types a type mentions, laid out or only pointed to. */
  function Mentions(spec: Spec): seq<TypeId> {
    match spec
    case Reference(_, referent) => [referent]
    case RawPointer(_, pointee) => [pointee]
    case _ => Owning(spec)
  }

  /** Every type has a layout of its own kind and mentions only types of the table. */
  predicate Meaningful(types: Types) {
    forall t :: t in types ==>
      && !types[t].Param? && !types[t].Unresolved? && types[t] != Scalar(UnknownScalar)
      && forall u :: u in Mentions(types[t]) ==> u in types
  }

  lemma {:induction false} SearchSucceeds(types: Types, active: set<TypeId>, t: TypeId)
    requires Meaningful(types) && t in types
    ensures ClassOf(types, active, t).Ok?
    decreases types.Keys - active, 1
  {
    hide Meaningful;
    Here(types, t);
    if t !in active {
      var inner := active + {t};
      match types[t]
      case Box(e) => SearchSucceeds(types, inner, e);
      case Vec(e) => SearchSucceeds(types, inner, e);
      case Slice(_, e) => SearchSucceeds(types, inner, e);
      case FixedArray(e, _) => SearchSucceeds(types, inner, e);
      case Record(_, members) => SearchesSucceed(types, inner, members, COPY);
      case Enum(_, members) => SearchesSucceed(types, inner, members, COPY);
      case _ =>
    }
  }

  lemma {:induction false} SearchesSucceed(types: Types, active: set<TypeId>, members: seq<TypeId>, class_: Class)
    requires Meaningful(types) && forall m :: m in members ==> m in types
    ensures ClassOfAll(types, active, members, class_).Ok?
    decreases types.Keys - active, 2, |members|
  {
    hide Meaningful, ClassOf;
    if members != [] {
      SearchSucceeds(types, active, members[0]);
      SearchesSucceed(types, active, members[1..], class_.Merge(ClassOf(types, active, members[0]).value));
    }
  }

  lemma Here(types: Types, t: TypeId)
    requires Meaningful(types) && t in types
    ensures !types[t].Param? && !types[t].Unresolved? && types[t] != Scalar(UnknownScalar)
    ensures forall u :: u in Mentions(types[t]) ==> u in types
  {
  }

  predicate Ordinary<T>(r: Answer<T>) { r.Err? ==> r.error.Recursive? || r.error == Overflow }

  /** Only recursion or a 64-bit overflow can keep a meaningful type from a layout. */
  lemma {:induction false} OnlyRecursionOrOverflow(types: Types, active: set<TypeId>, t: TypeId)
    requires Meaningful(types) && t in types
    ensures Ordinary(LayoutOf(types, active, t))
    decreases types.Keys - active, 1
  {
    if t !in active {
      hide Meaningful, RecordLayout, EnumLayout, ClassOf;
      Here(types, t);
      var inner := active + {t};
      var spec := types[t];
      if spec.Record? {
        FieldsOrdinary(types, inner, spec.members, 0, 1, COPY, []);
      } else if spec.Enum? {
        VariantsOrdinary(types, inner, spec.members, 0, 1, COPY, []);
      } else if spec.Box? {
        SearchSucceeds(types, {}, spec.element);
      } else if spec.Vec? || spec.Slice? || spec.FixedArray? {
        OnlyRecursionOrOverflow(types, inner, spec.element);
        SearchSucceeds(types, {}, spec.element);
        if LayoutOf(types, inner, spec.element).Ok? {
          PositiveAlign(types, inner, spec.element);
        }
      }
    }
  }

  lemma PositiveAlign(types: Types, active: set<TypeId>, t: TypeId)
    requires LayoutOf(types, active, t).Ok?
    ensures LayoutOf(types, active, t).value.align > 0
  {
    hide LayoutOf;
    LayoutIsSound(types, active, t);
    SoundAlign(LayoutOf(types, active, t).value);
  }

  lemma {:induction false} FieldsOrdinary(types: Types, active: set<TypeId>, members: seq<TypeId>,
                                          end: nat, align: nat, class_: Class, placed: seq<Placed>)
    requires Meaningful(types) && align > 0 && forall m :: m in members ==> m in types
    ensures Ordinary(RecordLayout(types, active, members, end, align, class_, placed))
    decreases types.Keys - active, 2, |members|
  {
    hide Meaningful, LayoutOf;
    if members != [] {
      OnlyRecursionOrOverflow(types, active, members[0]);
      var field := LayoutOf(types, active, members[0]);
      if field.Ok? {
        var f := field.value;
        PositiveAlign(types, active, members[0]);
        var offset := AlignUp(end, f.align);
        if offset.Ok? && offset.value + f.size <= MAX {
          FieldsOrdinary(types, active, members[1..], offset.value + f.size, Larger(align, f.align), class_.Merge(f.class_),
                         placed + [Placed(offset.value, f.size, f.align)]);
        }
      }
    }
  }

  lemma {:induction false} VariantsOrdinary(types: Types, active: set<TypeId>, members: seq<TypeId>,
                                            size: nat, align: nat, class_: Class, payloads: seq<(nat, nat)>)
    requires Meaningful(types) && align > 0 && forall m :: m in members ==> m in types
    ensures Ordinary(EnumLayout(types, active, members, size, align, class_, payloads))
    decreases types.Keys - active, 2, |members|
  {
    hide Meaningful, LayoutOf;
    if members != [] {
      OnlyRecursionOrOverflow(types, active, members[0]);
      var payload := LayoutOf(types, active, members[0]);
      if payload.Ok? {
        var v := payload.value;
        PositiveAlign(types, active, members[0]);
        VariantsOrdinary(types, active, members[1..], Larger(size, v.size), Larger(align, v.align), class_.Merge(v.class_),
                         payloads + [(v.size, v.align)]);
      }
    }
  }

  /** In a closed table of meaningful types, a type whose sizes fit 64 bits is
      refused exactly when a cycle of parts can be reached from it. */
  lemma RefusedExactlyWhenUnbounded(types: Types, t: TypeId)
    requires Meaningful(types) && t in types && LayoutOf(types, {}, t) != Err(Overflow)
    ensures LayoutOf(types, {}, t).Err? <==> Unbounded(types, t)
  {
    OnlyRecursionOrOverflow(types, {}, t);
    RecursionIsACycle(types, t);
  }
}
