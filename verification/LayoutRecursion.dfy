/** A layout is refused as recursive exactly when a cycle of parts laid out
    inside one another can be reached; boxes and references cut it. */
module LayoutRecursion {
  import opened Wrappers
  import opened Graphs
  import opened LayoutModel

  /** A cycle of direct parts can be reached from `t`. */
  ghost predicate Unbounded(types: Types, t: TypeId) {
    exists u :: Reaches(InsideGraph(types), t, u) && OnCycle(InsideGraph(types), u)
  }

  // ---------------------------------------------------------------- less on the stack

  lemma {:induction false} FewerActive(types: Types, active: set<TypeId>, less: set<TypeId>, t: TypeId)
    requires less <= active && LayoutOf(types, active, t).Ok?
    ensures LayoutOf(types, less, t) == LayoutOf(types, active, t)
    decreases types.Keys - active, 1
  {
    hide RecordLayout, EnumLayout, ClassOf;
    if t in types {
      var a, l := active + {t}, less + {t};
      match types[t]
      case Vec(e) => FewerActive(types, a, l, e);
      case Slice(_, e) => FewerActive(types, a, l, e);
      case FixedArray(e, _) => FewerActive(types, a, l, e);
      case Record(_, members) => FewerActiveFields(types, a, l, members, 0, 1, COPY, []);
      case Enum(_, members) => FewerActiveVariants(types, a, l, members, 0, 1, COPY, []);
      case _ =>
    }
  }

  lemma {:induction false} FewerActiveFields(types: Types, active: set<TypeId>, less: set<TypeId>, members: seq<TypeId>,
                                             end: nat, align: nat, class_: Class, placed: seq<Placed>)
    requires less <= active && RecordLayout(types, active, members, end, align, class_, placed).Ok?
    ensures RecordLayout(types, less, members, end, align, class_, placed) == RecordLayout(types, active, members, end, align, class_, placed)
    ensures forall m :: m in members ==> LayoutOf(types, active, m).Ok?
    decreases types.Keys - active, 2, |members|
  {
    if members != [] {
      FewerActive(types, active, less, members[0]);
      var field := LayoutOf(types, active, members[0]).value;
      var offset := AlignUp(end, field.align).value;
      FewerActiveFields(types, active, less, members[1..], offset + field.size, Larger(align, field.align), class_.Merge(field.class_),
                        placed + [Placed(offset, field.size, field.align)]);
    }
  }

  lemma {:induction false} FewerActiveVariants(types: Types, active: set<TypeId>, less: set<TypeId>, members: seq<TypeId>,
                                               size: nat, align: nat, class_: Class, payloads: seq<(nat, nat)>)
    requires less <= active && EnumLayout(types, active, members, size, align, class_, payloads).Ok?
    ensures EnumLayout(types, less, members, size, align, class_, payloads) == EnumLayout(types, active, members, size, align, class_, payloads)
    ensures forall m :: m in members ==> LayoutOf(types, active, m).Ok?
    decreases types.Keys - active, 2, |members|
  {
    hide Tagged;
    if members != [] {
      FewerActive(types, active, less, members[0]);
      var payload := LayoutOf(types, active, members[0]).value;
      FewerActiveVariants(types, active, less, members[1..], Larger(size, payload.size), Larger(align, payload.align),
                          class_.Merge(payload.class_), payloads + [(payload.size, payload.align)]);
    }
  }

  /** A type with a layout has parts with layouts, its own name on the stack. */
  lemma PartHasLayout(types: Types, active: set<TypeId>, t: TypeId, part: TypeId)
    requires LayoutOf(types, active, t).Ok? && t in types && part in Inside(types[t])
    ensures LayoutOf(types, active + {t}, part).Ok?
  {
    hide RecordLayout, EnumLayout, ClassOf;
    match types[t]
    case Record(_, members) => FewerActiveFields(types, active + {t}, active + {t}, members, 0, 1, COPY, []);
    case Enum(_, members) => FewerActiveVariants(types, active + {t}, active + {t}, members, 0, 1, COPY, []);
    case _ =>
  }

  lemma {:induction false} PathHasLayouts(types: Types, active: set<TypeId>, path: seq<TypeId>, t: TypeId, u: TypeId)
    requires LayoutOf(types, active, t).Ok? && IsPath(InsideGraph(types), path, t, u)
    ensures LayoutOf(types, active, u).Ok?
    decreases |path|
  {
    if |path| > 1 {
      assert Edge(InsideGraph(types), path[0], path[1]);
      PartHasLayout(types, active, t, path[1]);
      FewerActive(types, active + {t}, active, path[1]);
      PathSuffix(InsideGraph(types), path, t, u, 1);
      PathHasLayouts(types, active, path[1..], path[1], u);
    }
  }

  // ---------------------------------------------------------------- recursion is a cycle

  lemma {:induction false} RefusedOnCycle(types: Types, active: set<TypeId>, t: TypeId)
    requires LayoutOf(types, active, t).Err? && LayoutOf(types, active, t).error.Recursive?
    ensures var u := LayoutOf(types, active, t).error.type_;
            Reaches(InsideGraph(types), t, u) && (u in active || OnCycle(InsideGraph(types), u))
    decreases types.Keys - active, 1
  {
    hide RecordLayout, EnumLayout, ClassOf;
    var g, u := InsideGraph(types), LayoutOf(types, active, t).error.type_;
    if t in active {
      ReachesItself(g, t);
    } else {
      var inner := active + {t};
      var part: TypeId;
      if types[t].Record? {
        part := RefusedField(types, inner, types[t].members, 0, 1, COPY, []);
      } else if types[t].Enum? {
        part := RefusedVariant(types, inner, types[t].members, 0, 1, COPY, []);
      } else {
        part := RefusedElement(types, inner, t);
      }
      assert Edge(g, t, part);
      ReachesFrom(g, t, part, u);
    }
  }

  lemma {:induction false} RefusedElement(types: Types, active: set<TypeId>, t: TypeId) returns (part: TypeId)
    requires t in types && t in active && !types[t].Record? && !types[t].Enum?
    requires var r := LayoutInner(types, active, t); r.Err? && r.error.Recursive?
    ensures part in Inside(types[t])
    ensures var u := LayoutInner(types, active, t).error.type_;
            Reaches(InsideGraph(types), part, u) && (u in active || OnCycle(InsideGraph(types), u))
    decreases types.Keys - active, 2, 0
  {
    hide ClassOf;
    var spec := types[t];
    if spec.Box? || spec.Vec? {
      SearchIsNotRecursive(types, {}, spec.element);
    }
    if spec.Vec? || spec.Slice? || spec.FixedArray? {
      part := spec.element;
      RefusedOnCycle(types, active, part);
    } else {
      assert false;
    }
  }

  lemma {:induction false} SearchIsNotRecursive(types: Types, active: set<TypeId>, t: TypeId)
    ensures var r := ClassOf(types, active, t); r.Err? ==> r.error.NoLayout?
    decreases types.Keys - active, 1
  {
    if t !in active && t in types {
      var inner := active + {t};
      match types[t]
      case Box(e) => SearchIsNotRecursive(types, inner, e);
      case Vec(e) => SearchIsNotRecursive(types, inner, e);
      case Slice(_, e) => SearchIsNotRecursive(types, inner, e);
      case FixedArray(e, _) => SearchIsNotRecursive(types, inner, e);
      case Record(_, members) => SearchAllIsNotRecursive(types, inner, members, COPY);
      case Enum(_, members) => SearchAllIsNotRecursive(types, inner, members, COPY);
      case _ =>
    }
  }

  lemma {:induction false} SearchAllIsNotRecursive(types: Types, active: set<TypeId>, members: seq<TypeId>, class_: Class)
    ensures var r := ClassOfAll(types, active, members, class_); r.Err? ==> r.error.NoLayout?
    decreases types.Keys - active, 2, |members|
  {
    if members != [] {
      SearchIsNotRecursive(types, active, members[0]);
      var c := ClassOf(types, active, members[0]);
      if c.Ok? {
        SearchAllIsNotRecursive(types, active, members[1..], class_.Merge(c.value));
      }
    }
  }

  lemma {:induction false} RefusedField(types: Types, active: set<TypeId>, members: seq<TypeId>,
                                        end: nat, align: nat, class_: Class, placed: seq<Placed>) returns (part: TypeId)
    requires var r := RecordLayout(types, active, members, end, align, class_, placed); r.Err? && r.error.Recursive?
    ensures part in members
    ensures var u := RecordLayout(types, active, members, end, align, class_, placed).error.type_;
            Reaches(InsideGraph(types), part, u) && (u in active || OnCycle(InsideGraph(types), u))
    decreases types.Keys - active, 2, |members|
  {
    var field := LayoutOf(types, active, members[0]);
    if field.Err? {
      RefusedOnCycle(types, active, members[0]);
      part := members[0];
    } else {
      var f := field.value;
      var offset := AlignUp(end, f.align).value;
      part := RefusedField(types, active, members[1..], offset + f.size, Larger(align, f.align), class_.Merge(f.class_),
                           placed + [Placed(offset, f.size, f.align)]);
    }
  }

  lemma {:induction false} RefusedVariant(types: Types, active: set<TypeId>, members: seq<TypeId>,
                                          size: nat, align: nat, class_: Class, payloads: seq<(nat, nat)>) returns (part: TypeId)
    requires var r := EnumLayout(types, active, members, size, align, class_, payloads); r.Err? && r.error.Recursive?
    ensures part in members
    ensures var u := EnumLayout(types, active, members, size, align, class_, payloads).error.type_;
            Reaches(InsideGraph(types), part, u) && (u in active || OnCycle(InsideGraph(types), u))
    decreases types.Keys - active, 2, |members|
  {
    if members == [] {
      TaggedIsNotRecursive(size, align, class_, payloads);
      assert false;
    } else {
      hide Tagged;
      var payload := LayoutOf(types, active, members[0]);
      if payload.Err? {
        RefusedOnCycle(types, active, members[0]);
        part := members[0];
      } else {
        var v := payload.value;
        part := RefusedVariant(types, active, members[1..], Larger(size, v.size), Larger(align, v.align),
                               class_.Merge(v.class_), payloads + [(v.size, v.align)]);
      }
    }
  }

  lemma TaggedIsNotRecursive(size: nat, align: nat, class_: Class, payloads: seq<(nat, nat)>)
    ensures var r := Tagged(size, align, class_, payloads); r.Err? ==> !r.error.Recursive?
  {
  }

  /** A layout means no reachable cycle, and a refusal names a type on one. */
  lemma RecursionIsACycle(types: Types, t: TypeId)
    ensures LayoutOf(types, {}, t).Ok? ==> !Unbounded(types, t)
    ensures var r := LayoutOf(types, {}, t);
            r.Err? && r.error.Recursive? ==> Reaches(InsideGraph(types), t, r.error.type_) && OnCycle(InsideGraph(types), r.error.type_)
  {
    var g, r := InsideGraph(types), LayoutOf(types, {}, t);
    if r.Err? && r.error.Recursive? {
      RefusedOnCycle(types, {}, t);
    }
    if r.Ok? && Unbounded(types, t) {
      var u :| Reaches(g, t, u) && OnCycle(g, u);
      var path :| IsPath(g, path, t, u);
      PathHasLayouts(types, {}, path, t, u);
      var c :| Edge(g, u, c) && Reaches(g, c, u);
      PartHasLayout(types, {}, u, c);
      assert {} + {u} == {u};
      var back :| IsPath(g, back, c, u);
      PathHasLayouts(types, {u}, back, c, u);
      assert false;
    }
  }
}
