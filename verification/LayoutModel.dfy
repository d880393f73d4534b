/** Type layout: sizes, alignments and offsets, and the ownership class of a
    type. Both are computed by searches that keep the types being computed on a
    set; meeting one again is an error for a layout and a cut for a class. */
module LayoutModel {
  import opened Wrappers
  import opened Graphs

  type TypeId = string
  type DefHash = string

  datatype Builtin = Width1 | Width2 | Width4 | Width8 | BoolScalar | UnitScalar | UnknownScalar

  /** A type as the root expands it; named records and enums carry their definition. */
  datatype Spec =
    | Scalar(builtin: Builtin)
    | Param(index: nat)
    | Unresolved
    | Reference(mutable: bool, referent: TypeId)
    | RawPointer(mutable: bool, pointee: TypeId)
    | Box(element: TypeId)
    | Vec(element: TypeId)
    | Text
    | Slice(mutable: bool, element: TypeId)
    | FixedArray(element: TypeId, len: nat)
    | Record(def: Option<DefHash>, members: seq<TypeId>)
    | Enum(def: Option<DefHash>, members: seq<TypeId>)

  type Types = map<TypeId, Spec>

  datatype Error = Recursive(type_: TypeId) | Overflow | ZeroAlign | NoLayout(type_: TypeId)

  type Answer<+T> = Result<T, Error>

  // ---------------------------------------------------------------- ownership classes

  datatype Class = Class(
    moveOnly: bool, needsDrop: bool, reference: bool, mutReference: bool,
    rawPointer: bool, box: bool, owned: bool, capability: bool)
  {
    function Merge(other: Class): Class {
      Class(moveOnly || other.moveOnly, needsDrop || other.needsDrop, reference || other.reference,
            mutReference || other.mutReference, rawPointer || other.rawPointer, box || other.box,
            owned || other.owned, capability || other.capability)
    }

    function Boxed(): Class { Class(true, true, reference, mutReference, rawPointer, true, true, capability) }

    function OwnedBuffer(): Class { Class(true, true, reference, mutReference, rawPointer, box, true, capability) }
  }

  const COPY := Class(false, false, false, false, false, false, false, false)
  const SHARED := COPY.(reference := true)
  const MUTABLE := COPY.(moveOnly := true, reference := true, mutReference := true)
  const RAW := COPY.(rawPointer := true)

  function ReferenceClass(mutable: bool): Class { if mutable then MUTABLE else SHARED }

  /** The class search: a type already on the stack counts as plain data. */
  function ClassOf(types: Types, active: set<TypeId>, t: TypeId): Answer<Class>
    decreases types.Keys - active, 1
  {
    if t in active then Ok(COPY)
    else if t !in types then Err(NoLayout(t))
    else
      var inner := active + {t};
      match types[t]
      case Scalar(_) => Ok(COPY)
      case Param(_) => Err(NoLayout(t))
      case Unresolved => Err(NoLayout(t))
      case Reference(mutable, _) => Ok(ReferenceClass(mutable))
      case RawPointer(_, _) => Ok(RAW)
      case Box(element) =>
        var payload :- ClassOf(types, inner, element);
        Ok(payload.Boxed())
      case Vec(element) =>
        var payload :- ClassOf(types, inner, element);
        Ok(payload.OwnedBuffer())
      case Text => Ok(COPY.OwnedBuffer())
      case Slice(mutable, element) =>
        var payload :- ClassOf(types, inner, element);
        Ok(ReferenceClass(mutable).Merge(payload))
      case FixedArray(element, _) => ClassOf(types, inner, element)
      case Record(_, members) => ClassOfAll(types, inner, members, COPY)
      case Enum(_, members) => ClassOfAll(types, inner, members, COPY)
  }

  function ClassOfAll(types: Types, active: set<TypeId>, members: seq<TypeId>, class_: Class): Answer<Class>
    decreases types.Keys - active, 2, |members|
  {
    if members == [] then Ok(class_)
    else
      var c :- ClassOf(types, active, members[0]);
      ClassOfAll(types, active, members[1..], class_.Merge(c))
  }

  // ---------------------------------------------------------------- layouts

  const MAX: nat := 0xFFFF_FFFF_FFFF_FFFF
  const PTR_BYTES: nat := 8
  const TAG_BYTES: nat := 8

  function AlignUp(value: nat, align: nat): (r: Answer<nat>)
    ensures r.Ok? ==> align > 0 && value <= r.value < value + align && r.value % align == 0 && r.value <= MAX
    ensures align > 0 && value + (align - 1) <= MAX ==> r.Ok?
  {
    if align == 0 then Err(ZeroAlign)
    else if value + (align - 1) > MAX then Err(Overflow)
    else
      var q := (value + (align - 1)) / align;
      assert (q * align) % align == 0 by { MultipleOf(q, align); }
      assert value <= q * align < value + align;
      Ok(q * align)
  }

  lemma MultipleOf(q: nat, a: nat)
    requires a > 0
    ensures (q * a) % a == 0
  {
    Remainder(q * a, q, a);
  }

  lemma Remainder(x: nat, q: nat, a: nat)
    requires a > 0 && x == q * a
    ensures x % a == 0
  {
    var d, r := x / a, x % a;
    assert x == d * a + r;
    assert (q - d) * a == q * a - d * a == r;
    if q > d {
      LeastMultiple(q - d, a);
    } else if q < d {
      assert (d - q) * a == d * a - q * a;
      LeastMultiple(d - q, a);
    }
  }

  lemma LeastMultiple(k: nat, a: nat)
    requires k > 0
    ensures k * a >= a
  {
    assert k * a == (k - 1) * a + a;
  }

  function CheckedAdd(a: nat, b: nat): Answer<nat> { if a + b <= MAX then Ok(a + b) else Err(Overflow) }

  function CheckedMul(a: nat, b: nat): Answer<nat> { if a * b <= MAX then Ok(a * b) else Err(Overflow) }

  function Larger(a: nat, b: nat): nat { if a < b then b else a }

  datatype Placed = Placed(offset: nat, size: nat, align: nat)

  datatype Shape =
    | Whole
    | Fields(fields: seq<Placed>)
    | Variants(payloadOffset: nat, payloadSize: nat, variants: seq<Placed>)
    | Elements(stride: nat, count: nat, item: Placed)
    | Pointing(item: Placed, stride: nat)

  datatype Layout = Layout(size: nat, align: nat, class_: Class, shape: Shape)

  function LayoutOf(types: Types, active: set<TypeId>, t: TypeId): Answer<Layout>
    decreases types.Keys - active, 1
  {
    if t in active then Err(Recursive(t))
    else if t !in types then Err(NoLayout(t))
    else LayoutInner(types, active + {t}, t)
  }

  function LayoutInner(types: Types, active: set<TypeId>, t: TypeId): Answer<Layout>
    requires t in types && t in active
    decreases types.Keys - active, 3
  {
    match types[t]
    case Scalar(builtin) => ScalarLayout(builtin, t)
    case Param(_) => Err(NoLayout(t))
    case Unresolved => Err(NoLayout(t))
    case Reference(mutable, referent) =>
      if referent !in types then Err(NoLayout(referent)) else Ok(Layout(PTR_BYTES, PTR_BYTES, ReferenceClass(mutable), Whole))
    case RawPointer(_, pointee) =>
      if pointee !in types then Err(NoLayout(pointee)) else Ok(Layout(PTR_BYTES, PTR_BYTES, RAW, Whole))
    case Box(element) =>
      if element !in types then Err(NoLayout(element))
      else
        var payload :- ClassOf(types, {}, element);
        Ok(Layout(PTR_BYTES, PTR_BYTES, payload.Boxed(), Whole))
    case Vec(element) =>
      var item :- LayoutOf(types, active, element);
      var payload :- ClassOf(types, {}, element);
      var stride :- AlignUp(item.size, item.align);
      Ok(Layout(PTR_BYTES + 16, PTR_BYTES, payload.OwnedBuffer(), Pointing(Placed(0, item.size, item.align), stride)))
    case Text => Ok(Layout(PTR_BYTES + 16, PTR_BYTES, COPY.OwnedBuffer(), Pointing(Placed(0, 1, 1), 1)))
    case Slice(mutable, element) =>
      var item :- LayoutOf(types, active, element);
      var stride :- AlignUp(item.size, item.align);
      Ok(Layout(PTR_BYTES + 8, PTR_BYTES, ReferenceClass(mutable), Pointing(Placed(0, item.size, item.align), stride)))
    case FixedArray(element, len) =>
      var item :- LayoutOf(types, active, element);
      var stride :- AlignUp(item.size, item.align);
      var size :- CheckedMul(stride, len);
      Ok(Layout(size, item.align, item.class_, Elements(stride, len, Placed(0, item.size, item.align))))
    case Record(_, members) => RecordLayout(types, active, members, 0, 1, COPY, [])
    case Enum(_, members) => EnumLayout(types, active, members, 0, 1, COPY, [])
  }

  function ScalarLayout(builtin: Builtin, t: TypeId): Answer<Layout> {
    match builtin
    case Width1 => Ok(Layout(1, 1, COPY, Whole))
    case Width2 => Ok(Layout(2, 2, COPY, Whole))
    case Width4 => Ok(Layout(4, 4, COPY, Whole))
    case Width8 => Ok(Layout(8, 8, COPY, Whole))
    case BoolScalar => Ok(Layout(1, 1, COPY, Whole))
    case UnitScalar => Ok(Layout(0, 1, COPY, Whole))
    case UnknownScalar => Err(NoLayout(t))
  }

  /** The field loop with `end` the end of the fields placed so far. */
  function RecordLayout(types: Types, active: set<TypeId>, members: seq<TypeId>,
                        end: nat, align: nat, class_: Class, placed: seq<Placed>): Answer<Layout>
    decreases types.Keys - active, 2, |members|
  {
    if members == [] then
      var size :- AlignUp(end, align);
      Ok(Layout(size, align, class_, Fields(placed)))
    else
      var field :- LayoutOf(types, active, members[0]);
      var offset :- AlignUp(end, field.align);
      var next :- CheckedAdd(offset, field.size);
      RecordLayout(types, active, members[1..], next, Larger(align, field.align), class_.Merge(field.class_),
                   placed + [Placed(offset, field.size, field.align)])
  }

  /** The variant loop, then the tag in front of the widest payload. */
  function EnumLayout(types: Types, active: set<TypeId>, members: seq<TypeId>,
                      size: nat, align: nat, class_: Class, payloads: seq<(nat, nat)>): Answer<Layout>
    decreases types.Keys - active, 2, |members|
  {
    if members == [] then Tagged(size, align, class_, payloads)
    else
      var payload :- LayoutOf(types, active, members[0]);
      EnumLayout(types, active, members[1..], Larger(size, payload.size), Larger(align, payload.align),
                 class_.Merge(payload.class_), payloads + [(payload.size, payload.align)])
  }

  function Tagged(size: nat, align: nat, class_: Class, payloads: seq<(nat, nat)>): Answer<Layout> {
    var whole := Larger(TAG_BYTES, align);
    var offset :- AlignUp(TAG_BYTES, align);
    var end :- CheckedAdd(offset, size);
    var total :- AlignUp(end, whole);
    Ok(Layout(total, whole, class_,
              Variants(offset, size, seq(|payloads|, i requires 0 <= i < |payloads| => Placed(offset, payloads[i].0, payloads[i].1)))))
  }

  // ---------------------------------------------------------------- dependencies

  /** Types laid out inside a type. */
  function Inside(spec: Spec): seq<TypeId> {
    match spec
    case Vec(e) => [e]
    case Slice(_, e) => [e]
    case FixedArray(e, _) => [e]
    case Record(_, members) => members
    case Enum(_, members) => members
    case _ => []
  }

  /** Types the class search looks into. */
  function Owning(spec: Spec): seq<TypeId> {
    match spec
    case Box(e) => [e]
    case _ => Inside(spec)
  }

  function InsideGraph(types: Types): Graph<TypeId> { map t | t in types :: Inside(types[t]) }

  function OwningGraph(types: Types): Graph<TypeId> { map t | t in types :: Owning(types[t]) }

  /** The definitions a layout records as what it depends on. */
  function Definition(spec: Spec): set<DefHash> {
    match spec
    case Record(def, _) => if def.Some? then {def.value} else {}
    case Enum(def, _) => if def.Some? then {def.value} else {}
    case _ => {}
  }

  function Definitions(types: Types): map<TypeId, set<DefHash>> { map t | t in types :: Definition(types[t]) }
}
