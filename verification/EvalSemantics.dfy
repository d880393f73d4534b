/** Big-step meaning of typed expressions: a store of cells is threaded through,
    locals are a list indexed from the innermost, and an early return is an
    outcome of its own. */
module EvalSemantics {
  import opened Wrappers

  type Cell = nat
  type Heap = seq<Value>

  /** Aggregates hold the cells of their parts, so that places alias them. */
  datatype Value =
    | Int(number: int)
    | Flag(truth: bool)
    | UnitValue
    | Ref(mutable: bool, referent: Cell)
    | Boxed(content: Cell)
    | Slice(elements: seq<Cell>, mutable: bool)
    | ArrayOf(elements: seq<Cell>)
    | RecordOf(names: seq<string>, cells: seq<Cell>)
    | EnumOf(variant: string, payload: Cell)

  datatype Expr =
    | IntLit(number: int)
    | BoolLit(truth: bool)
    | UnitLit
    | Param(index: nat)
    | Local(depth: nat)
    | Call(symbol: string, args: seq<Expr>)
    | Binary(op: string, left: Expr, right: Expr)
    | Unary(op: string, operand: Expr)
    | Borrow(mutable: bool, target: Expr)
    | SliceOf(target: Expr, mutable: bool)
    | BoxNew(value: Expr)
    | Unbox(value: Expr)
    | Assign(target: Expr, value: Expr)
    | Let(value: Expr, body: Expr)
    | If(cond: Expr, thenExpr: Expr, elseExpr: Expr)
    | Return(value: Expr)
    | Fold(target: Expr, init: Expr, body: Expr)
    | Loop(init: Expr, cond: Expr, body: Expr)
    | ArrayLit(items: seq<Expr>)
    | ArrayFill(value: Expr, count: nat)
    | ArraySet(array_: Expr, index_: Expr, value: Expr)
    | Index(target: Expr, index_: Expr)
    | RecordLit(names: seq<string>, items: seq<Expr>)
    | Field(target: Expr, name: string)
    | Construct(variant: string, value: Expr)
    | Case(scrutinee: Expr, arms: seq<Arm>)

  datatype Arm = Arm(test: ArmTest, guard: Option<Expr>, body: Expr)

  datatype ArmTest =
    | Always
    | IntIs(number: int)
    | IntIn(lo: int, hi: int, inclusive: bool)
    | BoolIs(truth: bool)
    | VariantIs(chain: Chain)

  /** A payload pattern follows one payload per level. */
  datatype Chain = Chain(variant: string, sub: SubPattern)
  datatype SubPattern = Ignore | Bind | Nested(chain: Chain)

  datatype Function = Function(arity: nat, body: Option<Expr>)

  /** Arithmetic, and the run-time type check of arguments, are parameters. */
  datatype Program = Program(
    functions: map<string, Function>,
    accepts: (string, Heap, seq<Value>) -> bool,
    binary: (string, Value, Value) -> Option<Value>,
    unary: (string, Value) -> Option<Value>)

  datatype Failure = CallCeiling | LoopCeiling | Stuck

  datatype Outcome<+T> = Done(value: T) | Returned(result: Value) | Failed(failure: Failure)

  /** The store afterwards, and how evaluation ended. */
  datatype Run<+T> = Run(heap: Heap, out: Outcome<T>) {
    predicate IsFailure() { !out.Done? }

    function PropagateFailure<U>(): Run<U>
      requires IsFailure()
    {
      match out
      case Returned(v) => Run(heap, Returned(v))
      case Failed(f) => Run(heap, Failed(f))
    }

    function Extract(): (Heap, T)
      requires !IsFailure()
    {
      (heap, out.value)
    }
  }

  function Stop<T>(h: Heap): Run<T> { Run(h, Failed(Stuck)) }

  /** The value of a pure step, or a run-time error. */
  function Lift<T>(h: Heap, r: Option<T>): Run<T> {
    match r
    case None => Stop(h)
    case Some(v) => Run(h, Done(v))
  }

  // ---------------------------------------------------------------- the store

  function Read(h: Heap, c: Cell): Value { if c < |h| then h[c] else UnitValue }

  function Write(h: Heap, c: Cell, v: Value): Heap { if c < |h| then h[c := v] else h }

  /** A deep copy in fresh cells; references and slices keep sharing. */
  function Clone(h: Heap, v: Value, fuel: nat): Run<Value>
    decreases fuel, 0
  {
    match v
    case Boxed(c) =>
      var (h1, cs) :- CloneCells(h, [c], fuel);
      Lift(h1, if |cs| == 1 then Some(Boxed(cs[0])) else None)
    case ArrayOf(cells) =>
      var (h1, cs) :- CloneCells(h, cells, fuel);
      Run(h1, Done(ArrayOf(cs)))
    case RecordOf(names, cells) =>
      var (h1, cs) :- CloneCells(h, cells, fuel);
      Run(h1, Done(RecordOf(names, cs)))
    case EnumOf(variant, c) =>
      var (h1, cs) :- CloneCells(h, [c], fuel);
      Lift(h1, if |cs| == 1 then Some(EnumOf(variant, cs[0])) else None)
    case _ => Run(h, Done(v))
  }

  function CloneCells(h: Heap, cells: seq<Cell>, fuel: nat): Run<seq<Cell>>
    decreases fuel, if fuel == 0 then 0 else -1, |cells|
  {
    if cells == [] then Run(h, Done([]))
    else if fuel == 0 then Stop(h)
    else
      var (h1, v) :- Clone(h, Read(h, cells[0]), fuel - 1);
      var (h2, rest) :- CloneCells(h1 + [v], cells[1..], fuel);
      Run(h2, Done([|h1|] + rest))
  }

  /** What reading a cell yields. */
  function Copy(h: Heap, c: Cell): Run<Value> { Clone(h, Read(h, c), |h|) }

  function Copies(h: Heap, v: Value, count: nat): Run<seq<Cell>>
    decreases count
  {
    if count == 0 then Run(h, Done([]))
    else
      var (h1, c) :- Clone(h, v, |h|);
      var (h2, rest) :- Copies(h1 + [c], v, count - 1);
      Run(h2, Done([|h1|] + rest))
  }

  /** The cell of a field, through references. */
  function FieldCell(h: Heap, c: Cell, name: string, fuel: nat): Option<Cell>
    decreases fuel
  {
    match Read(h, c)
    case RecordOf(names, cells) => Lookup(names, cells, name)
    case Ref(_, target) => if fuel == 0 then None else FieldCell(h, target, name, fuel - 1)
    case _ => None
  }

  function Lookup(names: seq<string>, cells: seq<Cell>, name: string): Option<Cell>
    decreases |names|
  {
    if names == [] || |names| > |cells| then None
    else if names[|names| - 1] == name then Some(cells[|names| - 1])
    else Lookup(names[..|names| - 1], cells, name)
  }

  function ElementOf(h: Heap, v: Value, i: nat, fuel: nat): Option<Cell>
    decreases fuel
  {
    match v
    case Slice(elements, _) => if i < |elements| then Some(elements[i]) else None
    case ArrayOf(elements) => if i < |elements| then Some(elements[i]) else None
    case Ref(_, target) => if fuel == 0 then None else ElementOf(h, Read(h, target), i, fuel - 1)
    case _ => None
  }

  function SliceCells(h: Heap, v: Value, fuel: nat): Option<seq<Cell>>
    decreases fuel
  {
    match v
    case ArrayOf(elements) => Some(elements)
    case Ref(_, target) => if fuel == 0 then None else SliceCells(h, Read(h, target), fuel - 1)
    case _ => None
  }

  function Unboxed(h: Heap, c: Cell): Cell {
    match Read(h, c)
    case Boxed(content) => content
    case _ => c
  }

  function AsIndex(v: Value): Option<nat> {
    match v
    case Int(n) => if n >= 0 then Some(n) else None
    case _ => None
  }

  // ---------------------------------------------------------------- arms

  /** `None`: no match. `Some(None)`: a match that binds nothing. */
  function MatchChain(h: Heap, chain: Chain, c: Cell): Option<Option<Cell>>
    decreases chain
  {
    match Read(h, c)
    case EnumOf(variant, payload) =>
      if variant != chain.variant then None
      else
        (match chain.sub
         case Bind => Some(Some(payload))
         case Ignore => Some(None)
         case Nested(inner) => MatchChain(h, inner, payload))
    case _ => None
  }

  /** First arm of an enum case that is the default or matches; guards do not count. */
  function EnumArm(h: Heap, arms: seq<Arm>, c: Cell): (r: Option<(nat, Option<Cell>)>)
    ensures r.Some? ==> r.value.0 < |arms|
    decreases |arms|
  {
    if arms == [] then None
    else
      match TestEnum(h, arms[0], c)
      case Some(leaf) => Some((0, leaf))
      case None =>
        var (i, leaf) :- EnumArm(h, arms[1..], c);
        Some((i + 1, leaf))
  }

  function TestEnum(h: Heap, arm: Arm, c: Cell): Option<Option<Cell>> {
    match arm.test
    case Always => Some(None)
    case VariantIs(chain) => MatchChain(h, chain, c)
    case _ => None
  }

  predicate TestInt(arm: Arm, n: int) {
    match arm.test
    case Always => true
    case IntIs(m) => m == n
    case IntIn(lo, hi, inclusive) => lo <= n && (if inclusive then n <= hi else n < hi)
    case _ => false
  }

  /** A boolean case takes the matching literal wherever it is, else the first default. */
  function BoolArm(arms: seq<Arm>, b: bool): (r: Option<nat>)
    ensures r.Some? ==> r.value < |arms|
  {
    var literal := FindArm(arms, BoolIs(b));
    if literal.Some? then literal else FindArm(arms, Always)
  }

  function FindArm(arms: seq<Arm>, test: ArmTest): (r: Option<nat>)
    ensures r.Some? ==> r.value < |arms| && arms[r.value].test == test && forall j :: 0 <= j < r.value ==> arms[j].test != test
    ensures r.None? ==> forall j :: 0 <= j < |arms| ==> arms[j].test != test
    decreases |arms|
  {
    if arms == [] then None
    else if arms[0].test == test then Some(0)
    else
      match FindArm(arms[1..], test)
      case None =>
        assert forall j :: 0 < j < |arms| ==> arms[j] == arms[1..][j - 1];
        None
      case Some(i) =>
        assert forall j :: 0 < j < |arms| ==> arms[j] == arms[1..][j - 1];
        Some(i + 1)
  }

  // ---------------------------------------------------------------- evaluation

  /** `calls` is how many more calls may be active, `loops` the iteration ceiling. */
  datatype Limits = Limits(calls: nat, loops: nat)

  function Eval(p: Program, lim: Limits, h: Heap, args: seq<Cell>, locals: seq<Cell>, e: Expr): Run<Value>
    decreases lim.calls, 1, e, 0, 0
  {
    match e
    case IntLit(n) => Run(h, Done(Int(n)))
    case BoolLit(b) => Run(h, Done(Flag(b)))
    case UnitLit => Run(h, Done(UnitValue))
    case Param(i) => if i < |args| then Copy(h, args[i]) else Stop(h)
    case Local(d) => if d < |locals| then Copy(h, locals[|locals| - 1 - d]) else Stop(h)
    case Call(symbol, items) =>
      var (h1, vs) :- EvalAll(p, lim, h, args, locals, items);
      EvalSymbol(p, lim, h1, symbol, vs)
    case Binary(op, left, right) =>
      var (h1, l) :- Eval(p, lim, h, args, locals, left);
      var (h2, r) :- Eval(p, lim, h1, args, locals, right);
      Lift(h2, p.binary(op, l, r))
    case Unary(op, operand) =>
      var (h1, v) :- Eval(p, lim, h, args, locals, operand);
      Lift(h1, p.unary(op, v))
    case Borrow(mutable, target) =>
      var (h1, c) :- PlaceOf(p, lim, h, args, locals, target);
      Run(h1, Done(Ref(mutable, Unboxed(h1, c))))
    case SliceOf(target, mutable) =>
      var (h1, c) :- PlaceOf(p, lim, h, args, locals, target);
      (match SliceCells(h1, Read(h1, c), |h1|)
       case None => Stop(h1)
       case Some(cells) => Run(h1, Done(Slice(cells, mutable))))
    case BoxNew(value) =>
      var (h1, v) :- Eval(p, lim, h, args, locals, value);
      Run(h1 + [v], Done(Boxed(|h1|)))
    case Unbox(value) =>
      var (h1, v) :- Eval(p, lim, h, args, locals, value);
      if v.Boxed? then Run(h1, Done(Read(h1, v.content))) else Stop(h1)
    case Assign(target, value) =>
      var (h1, v) :- Eval(p, lim, h, args, locals, value);
      var (h2, c) :- PlaceOf(p, lim, h1, args, locals, target);
      Run(Write(h2, c, v), Done(UnitValue))
    case Let(value, body) =>
      var (h1, v) :- Eval(p, lim, h, args, locals, value);
      Eval(p, lim, h1 + [v], args, locals + [|h1|], body)
    case If(cond, thenExpr, elseExpr) =>
      var (h1, v) :- Eval(p, lim, h, args, locals, cond);
      if v == Flag(true) then Eval(p, lim, h1, args, locals, thenExpr)
      else if v == Flag(false) then Eval(p, lim, h1, args, locals, elseExpr)
      else Stop(h1)
    case Return(value) =>
      var (h1, v) :- Eval(p, lim, h, args, locals, value);
      Run(h1, Returned(v))
    case Fold(target, init, body) =>
      var (h1, v) :- Eval(p, lim, h, args, locals, target);
      if !v.ArrayOf? && !v.Slice? then Stop(h1)
      else
        var (h2, acc) :- Eval(p, lim, h1, args, locals, init);
        FoldSteps(p, lim, h2, args, locals, v.elements, acc, body)
    case Loop(init, cond, body) =>
      var (h1, acc) :- Eval(p, lim, h, args, locals, init);
      LoopSteps(p, lim, h1, args, locals, e, acc, 0)
    case ArrayLit(items) =>
      var (h1, cs) :- EvalCells(p, lim, h, args, locals, items);
      Run(h1, Done(ArrayOf(cs)))
    case ArrayFill(value, count) =>
      var (h1, v) :- Eval(p, lim, h, args, locals, value);
      var (h2, cs) :- Copies(h1, v, count);
      Run(h2, Done(ArrayOf(cs)))
    case ArraySet(array_, index_, value) =>
      var (h1, a) :- Eval(p, lim, h, args, locals, array_);
      var (h2, iv) :- Eval(p, lim, h1, args, locals, index_);
      var (_, i) :- Lift(h2, AsIndex(iv));
      var (h3, v) :- Eval(p, lim, h2, args, locals, value);
      var (h4, c) :- Clone(h3, a, |h3|);
      if c.ArrayOf? && i < |c.elements| then Run(h4 + [v], Done(ArrayOf(c.elements[i := |h4|]))) else Stop(h4)
    case Index(target, index_) =>
      var place := PlaceOf(p, lim, h, args, locals, target);
      if place.out.Done? || !PlainPlace(target) then
        var (h1, c) :- place;
        ElementAt(p, lim, h1, args, locals, true, UnitValue, c, index_)
      else
        var (h1, v) :- Eval(p, lim, place.heap, args, locals, target);
        ElementAt(p, lim, h1, args, locals, false, v, 0, index_)
    case RecordLit(names, items) =>
      var (h1, cs) :- EvalCells(p, lim, h, args, locals, items);
      Run(h1, Done(RecordOf(names, cs)))
    case Field(_, _) =>
      var (h1, c) :- PlaceOf(p, lim, h, args, locals, e);
      Copy(h1, c)
    case Construct(variant, value) =>
      var (h1, v) :- Eval(p, lim, h, args, locals, value);
      Run(h1 + [v], Done(EnumOf(variant, |h1|)))
    case Case(scrutinee, arms) =>
      var (h1, v) :- Eval(p, lim, h, args, locals, scrutinee);
      match v
      case EnumOf(_, _) =>
        var h2 := h1 + [v];
        (match EnumArm(h2, arms, |h1|)
         case None => Stop(h2)
         case Some((i, leaf)) =>
           Eval(p, lim, h2, args, if leaf.Some? then locals + [leaf.value] else locals, arms[i].body))
      case Int(n) => IntArms(p, lim, h1, args, locals, arms, n)
      case Flag(b) =>
        (match BoolArm(arms, b)
         case None => Stop(h1)
         case Some(i) => Eval(p, lim, h1, args, locals, arms[i].body))
      case _ => Stop(h1)
  }

  /** The element of the place `c` as it stands after the index, or of a value. */
  function ElementAt(p: Program, lim: Limits, h: Heap, args: seq<Cell>, locals: seq<Cell>,
                     place: bool, v: Value, c: Cell, index_: Expr): Run<Value>
    decreases lim.calls, 1, index_, 1, 0
  {
    var (h1, iv) :- Eval(p, lim, h, args, locals, index_);
    var (_, i) :- Lift(h1, AsIndex(iv));
    var (_, item) :- Lift(h1, ElementOf(h1, if place then Read(h1, c) else v, i, |h1|));
    Copy(h1, item)
  }

  /** A chain of fields over a name, or no place at all: finding it has no effect. */
  predicate PlainPlace(e: Expr) {
    match e
    case Field(target, _) => PlainPlace(target)
    case Index(_, _) => false
    case _ => true
  }

  /** The cell an expression denotes. */
  function PlaceOf(p: Program, lim: Limits, h: Heap, args: seq<Cell>, locals: seq<Cell>, e: Expr): Run<Cell>
    decreases lim.calls, 1, e, 0, -1
  {
    match e
    case Param(i) => if i < |args| then Run(h, Done(args[i])) else Stop(h)
    case Local(d) => if d < |locals| then Run(h, Done(locals[|locals| - 1 - d])) else Stop(h)
    case Field(target, name) =>
      var (h1, c) :- PlaceOf(p, lim, h, args, locals, target);
      Lift(h1, FieldCell(h1, Unboxed(h1, c), name, |h1|))
    case Index(target, index_) =>
      var (h1, c) :- PlaceOf(p, lim, h, args, locals, target);
      var (h2, iv) :- Eval(p, lim, h1, args, locals, index_);
      var (_, i) :- Lift(h2, AsIndex(iv));
      Lift(h2, ElementOf(h2, Read(h2, c), i, |h2|))
    case _ => Stop(h)
  }

  function EvalAll(p: Program, lim: Limits, h: Heap, args: seq<Cell>, locals: seq<Cell>, items: seq<Expr>): Run<seq<Value>>
    decreases lim.calls, 1, items, 0, 0
  {
    if items == [] then Run(h, Done([]))
    else
      var (h1, v) :- Eval(p, lim, h, args, locals, items[0]);
      var (h2, vs) :- EvalAll(p, lim, h1, args, locals, items[1..]);
      Run(h2, Done([v] + vs))
  }

  /** Each part goes to its own fresh cell as soon as it is evaluated. */
  function EvalCells(p: Program, lim: Limits, h: Heap, args: seq<Cell>, locals: seq<Cell>, items: seq<Expr>): Run<seq<Cell>>
    decreases lim.calls, 1, items, 0, 0
  {
    if items == [] then Run(h, Done([]))
    else
      var (h1, v) :- Eval(p, lim, h, args, locals, items[0]);
      var (h2, cs) :- EvalCells(p, lim, h1 + [v], args, locals, items[1..]);
      Run(h2, Done([|h1|] + cs))
  }

  /** The item under the accumulator on the locals, one step per element. */
  function FoldSteps(p: Program, lim: Limits, h: Heap, args: seq<Cell>, locals: seq<Cell>,
                     items: seq<Cell>, acc: Value, body: Expr): Run<Value>
    decreases lim.calls, 1, body, 1, |items|
  {
    if items == [] then Run(h, Done(acc))
    else
      var (h1, item) :- Copy(h, items[0]);
      var (h2, next) :- Eval(p, lim, h1 + [item, acc], args, locals + [|h1|, |h1| + 1], body);
      FoldSteps(p, lim, h2, args, locals, items[1..], next, body)
  }

  /** The accumulator's cell is shared by the condition and the body of one round. */
  function LoopSteps(p: Program, lim: Limits, h: Heap, args: seq<Cell>, locals: seq<Cell>,
                     e: Expr, acc: Value, count: nat): Run<Value>
    requires e.Loop? && count <= lim.loops
    decreases lim.calls, 1, e, -1, lim.loops - count
  {
    var (h1, copy) :- Clone(h, acc, |h|);
    var inner := locals + [|h1|];
    var (h2, v) :- Eval(p, lim, h1 + [copy], args, inner, e.cond);
    if v == Flag(false) then Run(h2, Done(acc))
    else if v != Flag(true) then Stop(h2)
    else
      var (h3, next) :- Eval(p, lim, h2, args, inner, e.body);
      if count + 1 > lim.loops then Run(h3, Failed(LoopCeiling))
      else LoopSteps(p, lim, h3, args, locals, e, next, count + 1)
  }

  /** An integer case tries the arms in order; a false guard falls through. */
  function IntArms(p: Program, lim: Limits, h: Heap, args: seq<Cell>, locals: seq<Cell>, arms: seq<Arm>, n: int): Run<Value>
    decreases lim.calls, 1, arms, 0, 0
  {
    if arms == [] then Stop(h)
    else if !TestInt(arms[0], n) then IntArms(p, lim, h, args, locals, arms[1..], n)
    else
      var (h1, v) :- GuardOf(p, lim, h, args, locals, arms[0]);
      if v == Flag(true) then ArmBody(p, lim, h1, args, locals, arms[0])
      else if v == Flag(false) then IntArms(p, lim, h1, args, locals, arms[1..], n)
      else Stop(h1)
  }

  function GuardOf(p: Program, lim: Limits, h: Heap, args: seq<Cell>, locals: seq<Cell>, arm: Arm): Run<Value>
    decreases lim.calls, 1, arm, 0, 0
  {
    match arm.guard
    case None => Run(h, Done(Flag(true)))
    case Some(g) => Eval(p, lim, h, args, locals, g)
  }

  function ArmBody(p: Program, lim: Limits, h: Heap, args: seq<Cell>, locals: seq<Cell>, arm: Arm): Run<Value>
    decreases lim.calls, 1, arm, 0, 0
  {
    Eval(p, lim, h, args, locals, arm.body)
  }

  /** A call; a body that returned early is a call that produced the value. */
  function EvalSymbol(p: Program, lim: Limits, h: Heap, symbol: string, vs: seq<Value>): Run<Value>
    decreases lim.calls, 0
  {
    if lim.calls == 0 then Run(h, Failed(CallCeiling))
    else if symbol !in p.functions then Stop(h)
    else
      var f := p.functions[symbol];
      if f.arity != |vs| || !p.accepts(symbol, h, vs) || f.body.None? then Stop(h)
      else
        var run := Eval(p, Limits(lim.calls - 1, lim.loops), h + vs, seq(|vs|, i requires 0 <= i => |h| + i), [], f.body.value);
        match run.out
        case Returned(v) => Run(run.heap, Done(v))
        case _ => run
  }
}
