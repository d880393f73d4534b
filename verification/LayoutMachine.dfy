/** The layout computer: loops over members with the types being computed on a
    set that every path leaves as it found it. */
module LayoutMachine {
  import opened Wrappers
  import opened Graphs
  import opened LayoutModel
  import opened LayoutRecursion

  class TypeStack {
    var names: set<TypeId>

    constructor ()
      ensures names == {}
    {
      names := {};
    }
  }

  class LayoutComputer {
    const types: Types
    var active: set<TypeId>
    var dependencies: set<DefHash>

    constructor (types: Types)
      ensures this.types == types && active == {} && dependencies == {}
    {
      this.types := types;
      active, dependencies := {}, {};
    }

    /** Definitions met below `t`. */
    ghost function Met(stack: set<TypeId>, t: TypeId): set<DefHash> {
      Gather(InsideGraph(types), Definitions(types), stack, t)
    }

    ghost function MetAll(stack: set<TypeId>, ts: seq<TypeId>): set<DefHash> {
      GatherAll(InsideGraph(types), Definitions(types), stack, ts)
    }

    // -------------------------------------------------------------- layouts

    method LayoutType(t: TypeId) returns (r: Answer<Layout>)
      modifies this
      ensures active == old(active)
      ensures r == LayoutOf(types, old(active), t)
      ensures r.Ok? ==> dependencies == old(dependencies) + Met(old(active), t)
      decreases types.Keys - active, 1
    {
      hide LayoutInner;
      if t in active {
        return Err(Recursive(t));
      }
      if t !in types {
        return Err(NoLayout(t));
      }
      active := active + {t};
      r := LayoutTypeInner(t);
      active := active - {t};
    }

    method LayoutTypeInner(t: TypeId) returns (r: Answer<Layout>)
      requires t in types && t in active
      modifies this
      ensures active == old(active)
      ensures r == LayoutInner(types, old(active), t)
      ensures r.Ok? ==> dependencies == old(dependencies) + Definition(types[t]) + MetAll(old(active), Inside(types[t]))
      decreases types.Keys - active, 3
    {
      hide RecordLayout, EnumLayout, LayoutOf, ClassOf, Gather;
      var spec := types[t];
      if spec.Record? {
        if spec.def.Some? {
          dependencies := dependencies + {spec.def.value};
        }
        r := LayoutRecord(spec.members);
      } else if spec.Enum? {
        if spec.def.Some? {
          dependencies := dependencies + {spec.def.value};
        }
        r := LayoutEnum(spec.members);
      } else if spec.Vec? || spec.Slice? || spec.FixedArray? {
        r := LayoutElement(t);
      } else if spec.Box? {
        if spec.element !in types {
          return Err(NoLayout(spec.element));
        }
        var stack := new TypeStack();
        var payload :- ClassFlags(spec.element, stack);
        return Ok(Layout(PTR_BYTES, PTR_BYTES, payload.Boxed(), Whole));
      } else {
        r := LayoutInner(types, active, t);
      }
    }

    /** Vectors, slices and arrays lay out their element first. */
    method LayoutElement(t: TypeId) returns (r: Answer<Layout>)
      requires t in types && t in active && (types[t].Vec? || types[t].Slice? || types[t].FixedArray?)
      modifies this
      ensures active == old(active)
      ensures r == LayoutInner(types, old(active), t)
      ensures r.Ok? ==> dependencies == old(dependencies) + MetAll(old(active), Inside(types[t]))
      decreases types.Keys - active, 2
    {
      hide RecordLayout, EnumLayout, LayoutOf, ClassOf, Gather;
      var spec := types[t];
      assert MetAll(active, [spec.element]) == Met(active, spec.element) by {
        assert MetAll(active, [spec.element][1..]) == {};
      }
      var item :- LayoutType(spec.element);
      var payload := COPY;
      if spec.Vec? {
        var stack := new TypeStack();
        payload :- ClassFlags(spec.element, stack);
      }
      var stride :- AlignUp(item.size, item.align);
      var placed := Placed(0, item.size, item.align);
      match spec
      case Vec(_) => return Ok(Layout(PTR_BYTES + 16, PTR_BYTES, payload.OwnedBuffer(), Pointing(placed, stride)));
      case Slice(mutable, _) => return Ok(Layout(PTR_BYTES + 8, PTR_BYTES, ReferenceClass(mutable), Pointing(placed, stride)));
      case FixedArray(_, len) =>
        var size :- CheckedMul(stride, len);
        return Ok(Layout(size, item.align, item.class_, Elements(stride, len, placed)));
    }

    method LayoutRecord(members: seq<TypeId>) returns (r: Answer<Layout>)
      modifies this
      ensures active == old(active)
      ensures r == RecordLayout(types, old(active), members, 0, 1, COPY, [])
      ensures r.Ok? ==> dependencies == old(dependencies) + MetAll(old(active), members)
      decreases types.Keys - active, 2
    {
      hide LayoutOf, Gather;
      var end, align, class_, placed, i := 0, 1, COPY, [], 0;
      while i < |members|
        invariant 0 <= i <= |members| && active == old(active)
        invariant RecordLayout(types, active, members, 0, 1, COPY, [])
                  == RecordLayout(types, active, members[i..], end, align, class_, placed)
        invariant old(dependencies) + MetAll(active, members) == dependencies + MetAll(active, members[i..])
      {
        assert members[i..][0] == members[i] && members[i..][1..] == members[i + 1..];
        var field :- LayoutType(members[i]);
        var offset :- AlignUp(end, field.align);
        align := Larger(align, field.align);
        end :- CheckedAdd(offset, field.size);
        class_ := class_.Merge(field.class_);
        placed := placed + [Placed(offset, field.size, field.align)];
        i := i + 1;
      }
      var size :- AlignUp(end, align);
      return Ok(Layout(size, align, class_, Fields(placed)));
    }

    method LayoutEnum(members: seq<TypeId>) returns (r: Answer<Layout>)
      modifies this
      ensures active == old(active)
      ensures r == EnumLayout(types, old(active), members, 0, 1, COPY, [])
      ensures r.Ok? ==> dependencies == old(dependencies) + MetAll(old(active), members)
      decreases types.Keys - active, 2
    {
      hide LayoutOf, Gather, Tagged;
      var size, align, class_, payloads, i := 0, 1, COPY, [], 0;
      while i < |members|
        invariant 0 <= i <= |members| && active == old(active)
        invariant EnumLayout(types, active, members, 0, 1, COPY, [])
                  == EnumLayout(types, active, members[i..], size, align, class_, payloads)
        invariant old(dependencies) + MetAll(active, members) == dependencies + MetAll(active, members[i..])
      {
        assert members[i..][0] == members[i] && members[i..][1..] == members[i + 1..];
        var payload :- LayoutType(members[i]);
        size := Larger(size, payload.size);
        align := Larger(align, payload.align);
        class_ := class_.Merge(payload.class_);
        payloads := payloads + [(payload.size, payload.align)];
        i := i + 1;
      }
      r := Tagged(size, align, class_, payloads);
    }

    // -------------------------------------------------------------- classes

    /** The stack is another one than the layout's, so a box cuts recursion. */
    method ClassFlags(t: TypeId, stack: TypeStack) returns (r: Answer<Class>)
      modifies stack
      ensures stack.names == old(stack.names)
      ensures r == ClassOf(types, old(stack.names), t)
      decreases types.Keys - stack.names, 1
    {
      hide ClassOfAll;
      if t in stack.names {
        return Ok(COPY);
      }
      if t !in types {
        return Err(NoLayout(t));
      }
      stack.names := stack.names + {t};
      match types[t] {
        case Scalar(_) => r := Ok(COPY);
        case Param(_) => r := Err(NoLayout(t));
        case Unresolved => r := Err(NoLayout(t));
        case Reference(mutable, _) => r := Ok(ReferenceClass(mutable));
        case RawPointer(_, _) => r := Ok(RAW);
        case Box(element) =>
          r := ClassFlags(element, stack);
          if r.Ok? {
            r := Ok(r.value.Boxed());
          }
        case Vec(element) =>
          r := ClassFlags(element, stack);
          if r.Ok? {
            r := Ok(r.value.OwnedBuffer());
          }
        case Text => r := Ok(COPY.OwnedBuffer());
        case Slice(mutable, element) =>
          r := ClassFlags(element, stack);
          if r.Ok? {
            r := Ok(ReferenceClass(mutable).Merge(r.value));
          }
        case FixedArray(element, _) => r := ClassFlags(element, stack);
        case Record(_, members) => r := ClassFlagsOfAll(members, stack);
        case Enum(_, members) => r := ClassFlagsOfAll(members, stack);
      }
      stack.names := stack.names - {t};
    }

    method ClassFlagsOfAll(members: seq<TypeId>, stack: TypeStack) returns (r: Answer<Class>)
      modifies stack
      ensures stack.names == old(stack.names)
      ensures r == ClassOfAll(types, old(stack.names), members, COPY)
      decreases types.Keys - stack.names, 2
    {
      hide ClassOf;
      var class_, i := COPY, 0;
      while i < |members|
        invariant 0 <= i <= |members| && stack.names == old(stack.names)
        invariant ClassOfAll(types, stack.names, members, COPY) == ClassOfAll(types, stack.names, members[i..], class_)
      {
        assert members[i..][0] == members[i] && members[i..][1..] == members[i + 1..];
        var c :- ClassFlags(members[i], stack);
        class_ := class_.Merge(c);
        i := i + 1;
      }
      return Ok(class_);
    }
  }

  /** A layout together with the definitions it depends on: those of the types
      laid out inside it. */
  method ComputeTypeLayout(types: Types, t: TypeId) returns (r: Answer<(Layout, set<DefHash>)>)
    ensures LayoutOf(types, {}, t).Err? ==> r == Err(LayoutOf(types, {}, t).error)
    ensures LayoutOf(types, {}, t).Ok? ==> r.Ok? && r.value.0 == LayoutOf(types, {}, t).value
    ensures r.Ok? ==> forall d :: d in r.value.1 <==>
              exists u :: Reaches(InsideGraph(types), t, u) && d in Own(Definitions(types), u)
  {
    var computer := new LayoutComputer(types);
    var layout :- computer.LayoutType(t);
    forall d
      ensures d in computer.dependencies <==> exists u :: Reaches(InsideGraph(types), t, u) && d in Own(Definitions(types), u)
    {
      GatherIsReachability(InsideGraph(types), Definitions(types), t, d);
    }
    return Ok((layout, computer.dependencies));
  }
}
