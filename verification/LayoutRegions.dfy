/** Where the parts of a value lie: inside it, aligned, apart from one another
    and from the tag. */
module LayoutRegions {
  import opened Wrappers
  import opened Graphs
  import opened LayoutModel
  import opened LayoutRecursion

  predicate Power(align: nat) { align == 1 || align == 2 || align == 4 || align == 8 }

  /** The layout of a type by itself. */
  predicate Laid(types: Types, t: TypeId) { LayoutOf(types, {}, t).Ok? }

  function Of(types: Types, t: TypeId): Layout
    requires Laid(types, t)
  {
    LayoutOf(types, {}, t).value
  }

  // ---------------------------------------------------------------- alignment

  predicate Aligned(offset: nat, align: nat) { align > 0 && offset % align == 0 }

  lemma Divides(offset: nat, big: nat, small: nat)
    requires Power(big) && Power(small) && small <= big && Aligned(offset, big)
    ensures Aligned(offset, small) && Aligned(big, small)
  {
    if big == 8 {
      assert offset == 8 * (offset / 8);
      Eighths(offset, offset / 8);
    } else if big == 4 {
      assert offset == 4 * (offset / 4);
      assert offset == 2 * (2 * (offset / 4));
    }
  }

  lemma Eighths(offset: nat, q: nat)
    requires offset == 8 * q
    ensures offset % 4 == 0 && offset % 2 == 0
  {
    MultipleOf(2 * q, 4);
    MultipleOf(4 * q, 2);
    assert offset == (2 * q) * 4 && offset == (4 * q) * 2;
  }

  /** A part stays aligned wherever its container is aligned. */
  lemma AlignedInside(base: nat, offset: nat, big: nat, small: nat)
    requires Power(big) && Power(small) && small <= big && Aligned(base, big) && Aligned(offset, small)
    ensures Aligned(base + offset, small)
  {
    Divides(base, big, small);
    if small == 8 {
      assert (base + offset) % 8 == 0;
    } else if small == 4 {
      assert (base + offset) % 4 == 0;
    } else if small == 2 {
      assert (base + offset) % 2 == 0;
    }
  }

  lemma LargerPower(a: nat, b: nat)
    requires Power(a) && Power(b)
    ensures Power(Larger(a, b)) && a <= Larger(a, b) && b <= Larger(a, b)
  {
  }

  // ---------------------------------------------------------------- one level

  /** Fields in order, aligned, one after the other, the last ending by `end`. */
  predicate InOrder(placed: seq<Placed>, end: nat, align: nat) {
    && Power(align)
    && (forall i :: 0 <= i < |placed| ==>
          && Power(placed[i].align) && placed[i].align <= align
          && Aligned(placed[i].offset, placed[i].align)
          && placed[i].offset + placed[i].size <= end)
    && (forall i, j :: 0 <= i < j < |placed| ==> placed[i].offset + placed[i].size <= placed[j].offset)
  }

  /** Each placed part has the size and alignment of its type. */
  predicate Sized(types: Types, placed: seq<Placed>, members: seq<TypeId>) {
    && |placed| == |members|
    && forall i :: 0 <= i < |members| ==>
         Laid(types, members[i]) && placed[i].size == Of(types, members[i]).size && placed[i].align == Of(types, members[i]).align
  }

  /** What any layout guarantees about itself. */
  predicate Sound(l: Layout) {
    && Power(l.align) && Aligned(l.size, l.align) && l.size <= MAX
    && match l.shape
       case Fields(fields) => InOrder(fields, l.size, l.align)
       case Variants(offset, payload, variants) =>
         && TAG_BYTES <= offset && offset + payload <= l.size
         && forall i :: 0 <= i < |variants| ==>
              && variants[i].offset == offset && Aligned(offset, variants[i].align)
              && Power(variants[i].align) && variants[i].align <= l.align && variants[i].size <= payload
       case Elements(stride, count, item) =>
         && stride == item.size && item.align == l.align && l.size == stride * count
       case _ => true
  }

  lemma {:induction false} LayoutIsSound(types: Types, active: set<TypeId>, t: TypeId)
    requires LayoutOf(types, active, t).Ok?
    ensures Sound(LayoutOf(types, active, t).value)
    ensures t in types && (types[t].Record? ==> LayoutOf(types, active, t).value.shape.Fields?
                                                && Sized(types, LayoutOf(types, active, t).value.shape.fields, types[t].members))
    ensures types[t].Enum? ==> LayoutOf(types, active, t).value.shape.Variants?
                               && Sized(types, LayoutOf(types, active, t).value.shape.variants, types[t].members)
    ensures types[t].FixedArray? ==> LayoutOf(types, active, t).value.shape.Elements? && Laid(types, types[t].element)
                                     && LayoutOf(types, active, t).value.shape.item.size == Of(types, types[t].element).size
                                     && LayoutOf(types, active, t).value.shape.item.align == Of(types, types[t].element).align
                                     && LayoutOf(types, active, t).value.shape.count == types[t].len
    decreases types.Keys - active, 3
  {
    hide Sound, Sized, ClassOf, RecordLayout, EnumLayout;
    var inner := active + {t};
    match types[t]
    case Record(_, members) =>
      InOrderEmpty();
      SizedEmpty(types);
      RecordIsSound(types, inner, members, 0, 1, COPY, [], []);
      assert [] + members == members;
    case Enum(_, members) =>
      EnumIsSound(types, inner, members, 0, 1, COPY, [], []);
      assert [] + members == members;
    case FixedArray(e, len) =>
      LayoutIsSound(types, inner, e);
      FewerActive(types, inner, {}, e);
      ArrayIsSound(LayoutOf(types, inner, e).value, len, LayoutOf(types, active, t).value);
    case _ => WholeIsSound(types, active, t);
  }

  lemma InOrderEmpty()
    ensures InOrder([], 0, 1)
  {
  }

  lemma SizedEmpty(types: Types)
    ensures Sized(types, [], [])
  {
  }

  lemma WholeIsSound(types: Types, active: set<TypeId>, t: TypeId)
    requires LayoutOf(types, active, t).Ok? && !types[t].Record? && !types[t].Enum? && !types[t].FixedArray?
    ensures Sound(LayoutOf(types, active, t).value)
  {
  }

  /** Rounding a sound size up to its alignment changes nothing. */
  lemma StrideIsSize(l: Layout)
    requires Sound(l) && AlignUp(l.size, l.align).Ok?
    ensures AlignUp(l.size, l.align) == Ok(l.size)
  {
    match l.align
    case 1 =>
    case 2 =>
    case 4 =>
    case _ =>
  }

  lemma ArrayIsSound(item: Layout, len: nat, whole: Layout)
    requires Sound(item) && AlignUp(item.size, item.align).Ok?
    requires var stride := AlignUp(item.size, item.align).value;
             stride * len <= MAX
             && whole == Layout(stride * len, item.align, item.class_, Elements(stride, len, Placed(0, item.size, item.align)))
    ensures Sound(whole)
  {
    StrideIsSize(item);
    var q := item.size / item.align;
    assert item.size == q * item.align;
    Reorder(len, q, item.align);
    MultipleOf(len * q, item.align);
    assert len * item.size == item.size * len;
  }

  lemma Reorder(i: nat, q: nat, align: nat)
    ensures (i * q) * align == i * (q * align)
  {
  }

  lemma Distribute(i: nat, k: nat, stride: nat)
    ensures (i + 1 + k) * stride == i * stride + stride + k * stride && k * stride >= 0
  {
  }

  lemma PlaceNext(placed: seq<Placed>, end: nat, align: nat, size: nat, fieldAlign: nat)
    requires InOrder(placed, end, align) && Power(fieldAlign)
    requires AlignUp(end, fieldAlign).Ok?
    ensures var offset := AlignUp(end, fieldAlign).value;
            InOrder(placed + [Placed(offset, size, fieldAlign)], offset + size, Larger(align, fieldAlign))
  {
    LargerPower(align, fieldAlign);
  }

  lemma Rounded(placed: seq<Placed>, end: nat, align: nat, class_: Class)
    requires InOrder(placed, end, align) && AlignUp(end, align).Ok?
    ensures Sound(Layout(AlignUp(end, align).value, align, class_, Fields(placed)))
  {
  }

  lemma SizedNext(types: Types, placed: seq<Placed>, members: seq<TypeId>, offset: nat, m: TypeId)
    requires Sized(types, placed, members) && Laid(types, m)
    ensures Sized(types, placed + [Placed(offset, Of(types, m).size, Of(types, m).align)], members + [m])
  {
  }

  lemma {:induction false} RecordIsSound(types: Types, active: set<TypeId>, members: seq<TypeId>,
                                         end: nat, align: nat, class_: Class, placed: seq<Placed>, done: seq<TypeId>)
    requires InOrder(placed, end, align) && Sized(types, placed, done)
    requires RecordLayout(types, active, members, end, align, class_, placed).Ok?
    ensures var l := RecordLayout(types, active, members, end, align, class_, placed).value;
            Sound(l) && l.shape.Fields? && Sized(types, l.shape.fields, done + members)
    decreases types.Keys - active, 4, |members|
  {
    hide InOrder, Sound, Sized, LayoutOf, AlignUp, Power;
    if members == [] {
      Rounded(placed, end, align, class_);
      assert done + members == done;
    } else {
      LayoutIsSound(types, active, members[0]);
      FewerActive(types, active, {}, members[0]);
      var f := LayoutOf(types, active, members[0]).value;
      SoundAlign(f);
      PlaceNext(placed, end, align, f.size, f.align);
      var offset := AlignUp(end, f.align).value;
      SizedNext(types, placed, done, offset, members[0]);
      RecordIsSound(types, active, members[1..], offset + f.size, Larger(align, f.align), class_.Merge(f.class_),
                    placed + [Placed(offset, f.size, f.align)], done + [members[0]]);
      assert (done + [members[0]]) + members[1..] == done + members;
    }
  }

  lemma SoundAlign(l: Layout)
    requires Sound(l)
    ensures Power(l.align) && Aligned(l.size, l.align)
  {
  }

  /** Payloads seen so far fit the running size and alignment. */
  predicate Fits(types: Types, payloads: seq<(nat, nat)>, members: seq<TypeId>, size: nat, align: nat) {
    && Power(align) && |payloads| == |members|
    && forall i :: 0 <= i < |members| ==>
         && Laid(types, members[i]) && payloads[i] == (Of(types, members[i]).size, Of(types, members[i]).align)
         && Power(payloads[i].1) && payloads[i].0 <= size && payloads[i].1 <= align
  }

  lemma FitsNext(types: Types, payloads: seq<(nat, nat)>, members: seq<TypeId>, size: nat, align: nat, m: TypeId)
    requires Fits(types, payloads, members, size, align) && Laid(types, m) && Power(Of(types, m).align)
    ensures Fits(types, payloads + [(Of(types, m).size, Of(types, m).align)], members + [m],
                 Larger(size, Of(types, m).size), Larger(align, Of(types, m).align))
  {
    LargerPower(align, Of(types, m).align);
  }

  lemma TaggedIsSound(types: Types, size: nat, align: nat, class_: Class, payloads: seq<(nat, nat)>, members: seq<TypeId>)
    requires Fits(types, payloads, members, size, align) && Tagged(size, align, class_, payloads).Ok?
    ensures var l := Tagged(size, align, class_, payloads).value;
            Sound(l) && l.shape.Variants? && Sized(types, l.shape.variants, members)
  {
    var l := Tagged(size, align, class_, payloads).value;
    var offset := l.shape.payloadOffset;
    forall i | 0 <= i < |payloads|
      ensures Aligned(offset, payloads[i].1)
    {
      Divides(offset, align, payloads[i].1);
    }
  }

  lemma {:induction false} EnumIsSound(types: Types, active: set<TypeId>, members: seq<TypeId>,
                                       size: nat, align: nat, class_: Class, payloads: seq<(nat, nat)>, done: seq<TypeId>)
    requires Fits(types, payloads, done, size, align)
    requires EnumLayout(types, active, members, size, align, class_, payloads).Ok?
    ensures var l := EnumLayout(types, active, members, size, align, class_, payloads).value;
            Sound(l) && l.shape.Variants? && Sized(types, l.shape.variants, done + members)
    decreases types.Keys - active, 4, |members|
  {
    hide Sound, Sized, LayoutOf, Fits, Tagged, Power;
    if members == [] {
      TaggedIsSound(types, size, align, class_, payloads, done);
      assert done + members == done;
    } else {
      LayoutIsSound(types, active, members[0]);
      FewerActive(types, active, {}, members[0]);
      var v := LayoutOf(types, active, members[0]).value;
      SoundAlign(v);
      FitsNext(types, payloads, done, size, align, members[0]);
      EnumIsSound(types, active, members[1..], Larger(size, v.size), Larger(align, v.align), class_.Merge(v.class_),
                  payloads + [(v.size, v.align)], done + [members[0]]);
      assert (done + [members[0]]) + members[1..] == done + members;
    }
  }

  // ---------------------------------------------------------------- places

  datatype Step = FieldStep(index: nat) | ElementStep(index: nat) | VariantStep(index: nat)

  /** A part of a value: where it starts and what it is. */
  function Part(types: Types, t: TypeId, step: Step): Option<(nat, TypeId)> {
    if !Laid(types, t) || t !in types then None
    else
      match (types[t], step, Of(types, t).shape)
      case (Record(_, members), FieldStep(i), Fields(placed)) =>
        if i < |members| && i < |placed| then Some((placed[i].offset, members[i])) else None
      case (Enum(_, members), VariantStep(i), Variants(offset, _, variants)) =>
        if i < |members| && i < |variants| then Some((variants[i].offset, members[i])) else None
      case (FixedArray(e, _), ElementStep(i), Elements(stride, count, _)) =>
        if i < count then Some((i * stride, e)) else None
      case _ => None
  }

  function Locate(types: Types, t: TypeId, path: seq<Step>): Option<(nat, TypeId)>
    decreases |path|
  {
    if path == [] then Some((0, t))
    else
      var (start, part) :- Part(types, t, path[0]);
      var (offset, u) :- Locate(types, part, path[1..]);
      Some((start + offset, u))
  }

  lemma PartFits(types: Types, t: TypeId, step: Step)
    requires Laid(types, t) && Part(types, t, step).Some?
    ensures var (start, part) := Part(types, t, step).value;
            && Laid(types, part) && start + Of(types, part).size <= Of(types, t).size
            && Power(Of(types, t).align) && Power(Of(types, part).align) && Of(types, part).align <= Of(types, t).align
            && Aligned(start, Of(types, part).align)
            && (types[t].Enum? ==> TAG_BYTES <= start)
  {
    var l := Of(types, t);
    var (start, part) := Part(types, t, step).value;
    LayoutIsSound(types, {}, t);
    if types[t].FixedArray? {
      LayoutIsSound(types, {}, part);
      ElementFits(l, Of(types, part), step.index);
    }
  }

  lemma ElementFits(l: Layout, item: Layout, i: nat)
    requires Sound(l) && Sound(item) && l.shape.Elements? && i < l.shape.count
    requires l.shape.stride == item.size && l.align == item.align
    ensures i * l.shape.stride + item.size <= l.size && Aligned(i * l.shape.stride, item.align)
  {
    var stride, rest := l.shape.stride, l.shape.count - (i + 1);
    Distribute(i, rest, stride);
    var q := stride / item.align;
    assert stride == q * item.align;
    Reorder(i, q, item.align);
    MultipleOf(i * q, item.align);
  }

  /** Every part of a value lies inside it, aligned to its own type. */
  lemma {:induction false} PlacesFit(types: Types, t: TypeId, path: seq<Step>)
    requires Laid(types, t) && Locate(types, t, path).Some?
    ensures var (offset, u) := Locate(types, t, path).value;
            && Laid(types, u) && offset + Of(types, u).size <= Of(types, t).size
            && Power(Of(types, t).align) && Power(Of(types, u).align) && Of(types, u).align <= Of(types, t).align
            && Aligned(offset, Of(types, u).align)
    decreases |path|
  {
    hide Part, LayoutOf;
    if path == [] {
      LayoutIsSound(types, {}, t);
    } else {
      PartFits(types, t, path[0]);
      var (start, part) := Part(types, t, path[0]).value;
      PlacesFit(types, part, path[1..]);
      var (offset, u) := Locate(types, part, path[1..]).value;
      AlignedInside(start, offset, Of(types, part).align, Of(types, u).align);
    }
  }

  /** Wherever an aligned value starts, its parts are aligned. */
  lemma PlacesAreAligned(types: Types, t: TypeId, path: seq<Step>, base: nat)
    requires Laid(types, t) && Locate(types, t, path).Some? && Aligned(base, Of(types, t).align)
    ensures var (offset, u) := Locate(types, t, path).value;
            Laid(types, u) && Aligned(base + offset, Of(types, u).align)
  {
    PlacesFit(types, t, path);
    var (offset, u) := Locate(types, t, path).value;
    AlignedInside(base, offset, Of(types, t).align, Of(types, u).align);
  }

  /** Two places of one value: they part ways at a record or an array, since one
      value holds one variant of each enum. */
  predicate Apart(p: seq<Step>, q: seq<Step>)
    decreases |p|
  {
    p != [] && q != [] && (if p[0] == q[0] then Apart(p[1..], q[1..]) else !p[0].VariantStep? || !q[0].VariantStep?)
  }

  lemma PartsDisjoint(types: Types, t: TypeId, a: Step, b: Step)
    requires Laid(types, t) && a != b && Part(types, t, a).Some? && Part(types, t, b).Some?
    requires !a.VariantStep? || !b.VariantStep?
    ensures var ((x, u), (y, v)) := (Part(types, t, a).value, Part(types, t, b).value);
            Laid(types, u) && Laid(types, v) && (x + Of(types, u).size <= y || y + Of(types, v).size <= x)
  {
    LayoutIsSound(types, {}, t);
    PartFits(types, t, a);
    PartFits(types, t, b);
    if types[t].FixedArray? {
      LayoutIsSound(types, {}, types[t].element);
      ElementsApart(Of(types, t).shape.stride, a.index, b.index);
    }
  }

  lemma ElementsApart(stride: nat, i: nat, j: nat)
    requires i != j
    ensures i * stride + stride <= j * stride || j * stride + stride <= i * stride
  {
    if i < j {
      Distribute(i, j - i - 1, stride);
    } else {
      Distribute(j, i - j - 1, stride);
    }
  }

  /** Distinct places of one value never overlap. */
  lemma {:induction false} PlacesAreDisjoint(types: Types, t: TypeId, p: seq<Step>, q: seq<Step>)
    requires Laid(types, t) && Apart(p, q)
    requires Locate(types, t, p).Some? && Locate(types, t, q).Some?
    ensures var ((x, u), (y, v)) := (Locate(types, t, p).value, Locate(types, t, q).value);
            Laid(types, u) && Laid(types, v) && (x + Of(types, u).size <= y || y + Of(types, v).size <= x)
    decreases |p|
  {
    hide Part, LayoutOf;
    PlacesFit(types, t, p);
    PlacesFit(types, t, q);
    PartFits(types, t, p[0]);
    PartFits(types, t, q[0]);
    var a, b := Part(types, t, p[0]).value, Part(types, t, q[0]).value;
    if p[0] == q[0] {
      PlacesAreDisjoint(types, a.1, p[1..], q[1..]);
    } else {
      PartsDisjoint(types, t, p[0], q[0]);
      PlacesFit(types, a.1, p[1..]);
      PlacesFit(types, b.1, q[1..]);
    }
  }

  /** Nothing inside an enum, wherever it sits, overlaps its tag. */
  lemma {:induction false} TagIsApart(types: Types, t: TypeId, p: seq<Step>, q: seq<Step>)
    requires Laid(types, t) && Locate(types, t, p).Some? && Locate(types, t, p + q).Some?
    requires q != [] && Locate(types, t, p).value.1 in types && types[Locate(types, t, p).value.1].Enum?
    ensures Locate(types, t, p).value.0 + TAG_BYTES <= Locate(types, t, p + q).value.0
    decreases |p|
  {
    hide Part, LayoutOf;
    if p == [] {
      assert p + q == q;
      PartFits(types, t, q[0]);
    } else {
      assert (p + q)[0] == p[0] && (p + q)[1..] == p[1..] + q;
      PartFits(types, t, p[0]);
      TagIsApart(types, Part(types, t, p[0]).value.1, p[1..], q);
    }
  }
}
