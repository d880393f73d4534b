/** The evaluator as it runs: one store, one return slot, one call counter, and
    a stack of locals that every form pushes to and pops from. An early return
    travels as a sentinel error while its value waits in the slot. */
module EvalMachine {
  import opened Wrappers
  import opened EvalSemantics

  /** `SlotEmpty`: a sentinel arrived at a call boundary without a value. */
  datatype Signal = Sentinel | SlotEmpty | Broken(failure: Failure)

  type Answer<+T> = Result<T, Signal>

  class Locals {
    var cells: seq<Cell>

    constructor ()
      ensures cells == []
    {
      cells := [];
    }

    method Push(c: Cell)
      modifies this
      ensures cells == old(cells) + [c]
    {
      cells := cells + [c];
    }

    method Pop()
      requires cells != []
      modifies this
      ensures cells == old(cells[..|cells| - 1])
    {
      cells := cells[..|cells| - 1];
    }
  }

  class Evaluator {
    const program: Program
    const maxCalls: nat
    const maxLoops: nat
    var heap: Heap
    var slot: Option<Value>
    var callDepth: nat

    constructor (program: Program, maxCalls: nat, maxLoops: nat)
      ensures this.program == program && this.maxCalls == maxCalls && this.maxLoops == maxLoops
      ensures Idle() && callDepth == 0 && heap == []
    {
      this.program := program;
      this.maxCalls := maxCalls;
      this.maxLoops := maxLoops;
      heap := [];
      slot := None;
      callDepth := 0;
    }

    /** No return is under way. */
    ghost predicate Idle()
      reads this
    {
      slot.None? && callDepth <= maxCalls
    }

    ghost function Left(): Limits
      reads this
      requires Idle()
    {
      Limits(maxCalls - callDepth, maxLoops)
    }

    /** The machine ended where the semantics says: the same store, and the slot
        holds a value exactly while the sentinel is under way. */
    ghost predicate Ends<T>(run: Run<T>, r: Answer<T>)
      reads this
    {
      && heap == run.heap
      && match run.out
         case Done(v) => r == Ok(v) && slot.None?
         case Returned(v) => r == Err(Sentinel) && slot == Some(v)
         case Failed(f) => r == Err(Broken(f)) && slot.None?
    }

    // -------------------------------------------------------------- the store

    method Alloc(v: Value) returns (c: Cell)
      modifies this`heap
      ensures c == |old(heap)| && heap == old(heap) + [v]
    {
      c := |heap|;
      heap := heap + [v];
    }

    /** The deep copy of a value. */
    method CloneValue(v: Value) returns (r: Answer<Value>)
      requires slot.None?
      modifies this`heap
      ensures Ends(Clone(old(heap), v, |old(heap)|), r)
    {
      var run := Clone(heap, v, |heap|);
      CloneNeverReturns(heap, v, |heap|);
      heap := run.heap;
      match run.out {
        case Done(copy) => return Ok(copy);
        case Failed(f) => return Err(Broken(f));
        case Returned(_) =>
          assert false;
      }
    }

    method CloneCell(c: Cell) returns (r: Answer<Value>)
      requires slot.None?
      modifies this`heap
      ensures Ends(Copy(old(heap), c), r)
    {
      r := CloneValue(Read(heap, c));
    }

    // -------------------------------------------------------------- return

    method RaiseReturn(v: Value) returns (s: Signal)
      modifies this`slot
      ensures s == Sentinel && slot == Some(v)
    {
      slot := Some(v);
      return Sentinel;
    }

    /** At a call boundary the sentinel becomes the call's value. */
    method TakeReturn(s: Signal) returns (r: Answer<Value>)
      modifies this`slot
      ensures s == Sentinel && old(slot).Some? ==> r == Ok(old(slot).value) && slot.None?
      ensures s == Sentinel && old(slot).None? ==> r == Err(SlotEmpty) && slot.None?
      ensures s != Sentinel ==> r == Err(s) && slot == old(slot)
    {
      if s != Sentinel {
        return Err(s);
      }
      var taken := slot;
      slot := None;
      match taken {
        case Some(v) => return Ok(v);
        case None => return Err(SlotEmpty);
      }
    }

    // -------------------------------------------------------------- calls

    /** Counts the call while its body runs, on every way out. */
    method RunSymbol(symbol: string, vs: seq<Value>) returns (r: Answer<Value>)
      requires Idle()
      modifies this
      ensures callDepth == old(callDepth)
      ensures Ends(EvalSymbol(program, old(Left()), old(heap), symbol, vs), r)
      ensures r != Err(Sentinel) && r != Err(SlotEmpty) && Idle()
      decreases maxCalls - callDepth, 0
    {
      hide Eval;
      if callDepth + 1 > maxCalls {
        return Err(Broken(CallCeiling));
      }
      callDepth := callDepth + 1;
      r := RunCounted(symbol, vs);
      callDepth := callDepth - 1;
    }

    method RunCounted(symbol: string, vs: seq<Value>) returns (r: Answer<Value>)
      requires Idle() && 0 < callDepth
      modifies this
      ensures callDepth == old(callDepth)
      ensures Ends(EvalSymbol(program, Limits(old(Left()).calls + 1, maxLoops), old(heap), symbol, vs), r)
      ensures r != Err(Sentinel) && r != Err(SlotEmpty)
      decreases maxCalls - callDepth, 3
    {
      hide Eval;
      if symbol !in program.functions {
        return Err(Broken(Stuck));
      }
      var f := program.functions[symbol];
      if f.arity != |vs| || !program.accepts(symbol, heap, vs) || f.body.None? {
        return Err(Broken(Stuck));
      }
      ghost var start := heap;
      var cells: seq<Cell> := [];
      while |cells| < |vs|
        invariant |cells| <= |vs| && Idle() && callDepth == old(callDepth)
        invariant heap == start + vs[..|cells|]
        invariant cells == seq(|cells|, i requires 0 <= i => |start| + i)
      {
        var c := Alloc(vs[|cells|]);
        assert vs[..|cells|] + [vs[|cells|]] == vs[..|cells| + 1];
        cells := cells + [c];
      }
      assert vs[..|vs|] == vs;
      var locals := new Locals();
      var body := RunExpr(f.body.value, cells, locals);
      match body {
        case Ok(v) => return Ok(v);
        case Err(s) =>
          r := TakeReturn(s);
      }
    }

    // -------------------------------------------------------------- expressions

    method RunExpr(e: Expr, args: seq<Cell>, locals: Locals) returns (r: Answer<Value>)
      requires Idle()
      modifies this, locals
      ensures callDepth == old(callDepth) && locals.cells == old(locals.cells)
      ensures Ends(Eval(program, old(Left()), old(heap), args, old(locals.cells), e), r)
      decreases maxCalls - callDepth, 1, e, 1, 0
    {
      hide Eval;
      if e.Let? {
        r := RunLet(e, args, locals);
      } else if e.If? {
        r := RunIf(e, args, locals);
      } else if e.Return? {
        r := RunReturn(e, args, locals);
      } else if e.Fold? {
        r := RunFold(e, args, locals);
      } else if e.Loop? {
        r := RunLoop(e, args, locals);
      } else if e.Case? {
        r := RunCase(e, args, locals);
      } else if e.Call? {
        r := RunCall(e, args, locals);
      } else if e.Assign? {
        r := RunAssign(e, args, locals);
      } else if e.Index? {
        r := RunIndex(e, args, locals);
      } else if e.ArraySet? {
        r := RunArraySet(e, args, locals);
      } else if e.ArrayFill? {
        r := RunArrayFill(e, args, locals);
      } else if e.Binary? {
        r := RunBinary(e, args, locals);
      } else if e.Unary? {
        r := RunUnary(e, args, locals);
      } else if e.BoxNew? || e.Unbox? || e.Construct? {
        r := RunBuild(e, args, locals);
      } else if e.ArrayLit? || e.RecordLit? {
        r := RunAggregate(e, args, locals);
      } else if e.Borrow? || e.SliceOf? || e.Field? {
        r := RunPlaceValue(e, args, locals);
      } else {
        r := RunLeaf(e, args, locals);
      }
    }

    method RunLeaf(e: Expr, args: seq<Cell>, locals: Locals) returns (r: Answer<Value>)
      requires Idle() && (e.IntLit? || e.BoolLit? || e.UnitLit? || e.Param? || e.Local?)
      modifies this, locals
      ensures callDepth == old(callDepth) && locals.cells == old(locals.cells)
      ensures Ends(Eval(program, old(Left()), old(heap), args, old(locals.cells), e), r)
      decreases maxCalls - callDepth, 1, e, 0, 0
    {
      match e {
        case IntLit(n) => return Ok(Int(n));
        case BoolLit(b) => return Ok(Flag(b));
        case UnitLit => return Ok(UnitValue);
        case Param(i) =>
          if i >= |args| {
            return Err(Broken(Stuck));
          }
          r := CloneCell(args[i]);
        case Local(d) =>
          if d >= |locals.cells| {
            return Err(Broken(Stuck));
          }
          r := CloneCell(locals.cells[|locals.cells| - 1 - d]);
      }
    }

    /** The local is popped whether the body yields, returns or fails. */
    method RunLet(e: Expr, args: seq<Cell>, locals: Locals) returns (r: Answer<Value>)
      requires Idle() && e.Let?
      modifies this, locals
      ensures callDepth == old(callDepth) && locals.cells == old(locals.cells)
      ensures Ends(Eval(program, old(Left()), old(heap), args, old(locals.cells), e), r)
      decreases maxCalls - callDepth, 1, e, 0, 0
    {
      hide PlaceOf, EvalAll, EvalCells, FoldSteps, LoopSteps, IntArms, EvalSymbol, Clone;
      var v :- RunExpr(e.value, args, locals);
      var c := Alloc(v);
      locals.Push(c);
      var body := RunExpr(e.body, args, locals);
      locals.Pop();
      return body;
    }

    method RunIf(e: Expr, args: seq<Cell>, locals: Locals) returns (r: Answer<Value>)
      requires Idle() && e.If?
      modifies this, locals
      ensures callDepth == old(callDepth) && locals.cells == old(locals.cells)
      ensures Ends(Eval(program, old(Left()), old(heap), args, old(locals.cells), e), r)
      decreases maxCalls - callDepth, 1, e, 0, 0
    {
      hide PlaceOf, EvalAll, EvalCells, FoldSteps, LoopSteps, IntArms, EvalSymbol, Clone;
      var cond :- RunExpr(e.cond, args, locals);
      if cond == Flag(true) {
        r := RunExpr(e.thenExpr, args, locals);
      } else if cond == Flag(false) {
        r := RunExpr(e.elseExpr, args, locals);
      } else {
        return Err(Broken(Stuck));
      }
    }

    method RunReturn(e: Expr, args: seq<Cell>, locals: Locals) returns (r: Answer<Value>)
      requires Idle() && e.Return?
      modifies this, locals
      ensures callDepth == old(callDepth) && locals.cells == old(locals.cells)
      ensures Ends(Eval(program, old(Left()), old(heap), args, old(locals.cells), e), r)
      decreases maxCalls - callDepth, 1, e, 0, 0
    {
      hide PlaceOf, EvalAll, EvalCells, FoldSteps, LoopSteps, IntArms, EvalSymbol, Clone;
      var v :- RunExpr(e.value, args, locals);
      var s := RaiseReturn(v);
      return Err(s);
    }

    method RunFold(e: Expr, args: seq<Cell>, locals: Locals) returns (r: Answer<Value>)
      requires Idle() && e.Fold?
      modifies this, locals
      ensures callDepth == old(callDepth) && locals.cells == old(locals.cells)
      ensures Ends(Eval(program, old(Left()), old(heap), args, old(locals.cells), e), r)
      decreases maxCalls - callDepth, 1, e, 0, 0
    {
      hide PlaceOf, EvalAll, EvalCells, FoldSteps, LoopSteps, IntArms, EvalSymbol, Clone;
      var target :- RunExpr(e.target, args, locals);
      if !target.ArrayOf? && !target.Slice? {
        return Err(Broken(Stuck));
      }
      var acc :- RunExpr(e.init, args, locals);
      r := RunFoldSteps(target.elements, acc, e.body, args, locals);
    }

    /** Two locals per element, popped before the outcome is looked at. */
    method RunFoldSteps(items: seq<Cell>, init: Value, body: Expr, args: seq<Cell>, locals: Locals) returns (r: Answer<Value>)
      requires Idle()
      modifies this, locals
      ensures callDepth == old(callDepth) && locals.cells == old(locals.cells)
      ensures Ends(FoldSteps(program, old(Left()), old(heap), args, old(locals.cells), items, init, body), r)
      decreases maxCalls - callDepth, 1, body, 2, 0
    {
      hide Eval, Clone;
      var acc, i := init, 0;
      while i < |items|
        invariant 0 <= i <= |items|
        invariant Idle() && callDepth == old(callDepth) && locals.cells == old(locals.cells)
        invariant FoldSteps(program, Left(), old(heap), args, locals.cells, items, init, body)
                  == FoldSteps(program, Left(), heap, args, locals.cells, items[i..], acc, body)
      {
        assert items[i..][1..] == items[i + 1..];
        ghost var base := locals.cells;
        var item :- CloneCell(items[i]);
        ghost var store := heap;
        var c := Alloc(item);
        locals.Push(c);
        c := Alloc(acc);
        locals.Push(c);
        assert locals.cells == base + [c - 1, c] && heap == store + [item, acc];
        var next := RunExpr(body, args, locals);
        locals.Pop();
        locals.Pop();
        assert locals.cells == base;
        acc :- next;
        i := i + 1;
      }
      return Ok(acc);
    }

    method RunLoop(e: Expr, args: seq<Cell>, locals: Locals) returns (r: Answer<Value>)
      requires Idle() && e.Loop?
      modifies this, locals
      ensures callDepth == old(callDepth) && locals.cells == old(locals.cells)
      ensures Ends(Eval(program, old(Left()), old(heap), args, old(locals.cells), e), r)
      decreases maxCalls - callDepth, 1, e, 0, 0
    {
      hide PlaceOf, EvalAll, EvalCells, FoldSteps, IntArms, EvalSymbol, Clone;
      var acc :- RunExpr(e.init, args, locals);
      r := RunLoopSteps(e, acc, args, locals);
    }

    /** One local per round, for the condition and the body. */
    method RunLoopSteps(e: Expr, init: Value, args: seq<Cell>, locals: Locals) returns (r: Answer<Value>)
      requires Idle() && e.Loop?
      modifies this, locals
      ensures callDepth == old(callDepth) && locals.cells == old(locals.cells)
      ensures Ends(LoopSteps(program, old(Left()), old(heap), args, old(locals.cells), e, init, 0), r)
      decreases maxCalls - callDepth, 1, e, -1, 0
    {
      hide Eval, Clone;
      var acc, count := init, 0;
      while true
        invariant 0 <= count <= maxLoops
        invariant Idle() && callDepth == old(callDepth) && locals.cells == old(locals.cells)
        invariant LoopSteps(program, Left(), old(heap), args, locals.cells, e, init, 0)
                  == LoopSteps(program, Left(), heap, args, locals.cells, e, acc, count)
        decreases maxLoops - count
      {
        var copy :- CloneValue(acc);
        var c := Alloc(copy);
        locals.Push(c);
        var cond := RunExpr(e.cond, args, locals);
        match cond {
          case Err(s) =>
            locals.Pop();
            return Err(s);
          case Ok(v) =>
            if v == Flag(false) {
              locals.Pop();
              break;
            }
            if v != Flag(true) {
              locals.Pop();
              return Err(Broken(Stuck));
            }
        }
        var next := RunExpr(e.body, args, locals);
        locals.Pop();
        acc :- next;
        count := count + 1;
        if count > maxLoops {
          return Err(Broken(LoopCeiling));
        }
      }
      return Ok(acc);
    }

    /** An enum arm may bind the payload cell itself, so it aliases the scrutinee. */
    method RunCase(e: Expr, args: seq<Cell>, locals: Locals) returns (r: Answer<Value>)
      requires Idle() && e.Case?
      modifies this, locals
      ensures callDepth == old(callDepth) && locals.cells == old(locals.cells)
      ensures Ends(Eval(program, old(Left()), old(heap), args, old(locals.cells), e), r)
      decreases maxCalls - callDepth, 1, e, 0, 0
    {
      hide PlaceOf, EvalAll, EvalCells, FoldSteps, LoopSteps, IntArms, EvalSymbol, Clone, EnumArm, BoolArm;
      var v :- RunExpr(e.scrutinee, args, locals);
      if v.EnumOf? {
        var c := Alloc(v);
        var arm := FirstEnumArm(e.arms, c);
        if arm.None? {
          return Err(Broken(Stuck));
        }
        var (i, leaf) := arm.value;
        if leaf.None? {
          r := RunExpr(e.arms[i].body, args, locals);
        } else {
          locals.Push(leaf.value);
          r := RunExpr(e.arms[i].body, args, locals);
          locals.Pop();
        }
      } else if v.Int? {
        r := RunIntArms(e.arms, v.number, args, locals);
      } else if v.Flag? {
        var arm := BoolArm(e.arms, v.truth);
        if arm.None? {
          return Err(Broken(Stuck));
        }
        r := RunExpr(e.arms[arm.value].body, args, locals);
      } else {
        return Err(Broken(Stuck));
      }
    }

    method FirstEnumArm(arms: seq<Arm>, c: Cell) returns (r: Option<(nat, Option<Cell>)>)
      ensures r == EnumArm(heap, arms, c)
    {
      var i := 0;
      while i < |arms|
        invariant 0 <= i <= |arms|
        invariant EnumArm(heap, arms, c)
                  == match EnumArm(heap, arms[i..], c)
                     case None => None
                     case Some((k, leaf)) => Some((i + k, leaf))
      {
        assert arms[i..][1..] == arms[i + 1..] && arms[i..][0] == arms[i];
        var leaf := TestEnum(heap, arms[i], c);
        if leaf.Some? {
          return Some((i, leaf.value));
        }
        i := i + 1;
      }
      return None;
    }

    method RunIntArms(arms: seq<Arm>, n: int, args: seq<Cell>, locals: Locals) returns (r: Answer<Value>)
      requires Idle()
      modifies this, locals
      ensures callDepth == old(callDepth) && locals.cells == old(locals.cells)
      ensures Ends(IntArms(program, old(Left()), old(heap), args, old(locals.cells), arms, n), r)
      decreases maxCalls - callDepth, 1, arms, 2, 0
    {
      hide Eval, GuardOf, ArmBody;
      var i := 0;
      while i < |arms|
        invariant 0 <= i <= |arms|
        invariant Idle() && callDepth == old(callDepth) && locals.cells == old(locals.cells)
        invariant IntArms(program, Left(), old(heap), args, locals.cells, arms, n)
                  == IntArms(program, Left(), heap, args, locals.cells, arms[i..], n)
      {
        assert arms[i..][1..] == arms[i + 1..] && arms[i..][0] == arms[i];
        if TestInt(arms[i], n) {
          var holds :- RunGuard(arms[i], args, locals);
          if holds == Flag(true) {
            r := RunArmBody(arms[i], args, locals);
            return;
          }
          if holds != Flag(false) {
            return Err(Broken(Stuck));
          }
        }
        i := i + 1;
      }
      return Err(Broken(Stuck));
    }

    method RunGuard(arm: Arm, args: seq<Cell>, locals: Locals) returns (r: Answer<Value>)
      requires Idle()
      modifies this, locals
      ensures callDepth == old(callDepth) && locals.cells == old(locals.cells)
      ensures Ends(GuardOf(program, old(Left()), old(heap), args, old(locals.cells), arm), r)
      decreases maxCalls - callDepth, 1, arm, 2, 0
    {
      hide Eval;
      match arm.guard {
        case None => return Ok(Flag(true));
        case Some(g) => r := RunExpr(g, args, locals);
      }
    }

    method RunArmBody(arm: Arm, args: seq<Cell>, locals: Locals) returns (r: Answer<Value>)
      requires Idle()
      modifies this, locals
      ensures callDepth == old(callDepth) && locals.cells == old(locals.cells)
      ensures Ends(ArmBody(program, old(Left()), old(heap), args, old(locals.cells), arm), r)
      decreases maxCalls - callDepth, 1, arm, 2, 0
    {
      hide Eval;
      r := RunExpr(arm.body, args, locals);
    }

    method RunCall(e: Expr, args: seq<Cell>, locals: Locals) returns (r: Answer<Value>)
      requires Idle() && e.Call?
      modifies this, locals
      ensures callDepth == old(callDepth) && locals.cells == old(locals.cells)
      ensures Ends(Eval(program, old(Left()), old(heap), args, old(locals.cells), e), r)
      decreases maxCalls - callDepth, 1, e, 0, 0
    {
      hide PlaceOf, EvalAll, EvalCells, FoldSteps, LoopSteps, IntArms, EvalSymbol, Clone;
      var vs :- RunAll(e.args, args, locals);
      r := RunSymbol(e.symbol, vs);
    }

    method RunAll(items: seq<Expr>, args: seq<Cell>, locals: Locals) returns (r: Answer<seq<Value>>)
      requires Idle()
      modifies this, locals
      ensures callDepth == old(callDepth) && locals.cells == old(locals.cells)
      ensures Ends(EvalAll(program, old(Left()), old(heap), args, old(locals.cells), items), r)
      decreases maxCalls - callDepth, 1, items, 2, 0
    {
      hide Eval;
      var vs: seq<Value>, i := [], 0;
      while i < |items|
        invariant 0 <= i <= |items|
        invariant Idle() && callDepth == old(callDepth) && locals.cells == old(locals.cells)
        invariant EvalAll(program, Left(), old(heap), args, locals.cells, items)
                  == Before(vs, EvalAll(program, Left(), heap, args, locals.cells, items[i..]))
      {
        assert items[i..][1..] == items[i + 1..] && items[i..][0] == items[i];
        var v :- RunExpr(items[i], args, locals);
        BeforeAppend(vs, v, EvalAll(program, Left(), heap, args, locals.cells, items[i + 1..]));
        vs := vs + [v];
        i := i + 1;
      }
      assert vs + [] == vs;
      return Ok(vs);
    }

    method RunCells(items: seq<Expr>, args: seq<Cell>, locals: Locals) returns (r: Answer<seq<Cell>>)
      requires Idle()
      modifies this, locals
      ensures callDepth == old(callDepth) && locals.cells == old(locals.cells)
      ensures Ends(EvalCells(program, old(Left()), old(heap), args, old(locals.cells), items), r)
      decreases maxCalls - callDepth, 1, items, 2, 0
    {
      hide Eval;
      var cs: seq<Cell>, i := [], 0;
      while i < |items|
        invariant 0 <= i <= |items|
        invariant Idle() && callDepth == old(callDepth) && locals.cells == old(locals.cells)
        invariant EvalCells(program, Left(), old(heap), args, locals.cells, items)
                  == Before(cs, EvalCells(program, Left(), heap, args, locals.cells, items[i..]))
      {
        assert items[i..][1..] == items[i + 1..] && items[i..][0] == items[i];
        var v :- RunExpr(items[i], args, locals);
        var c := Alloc(v);
        BeforeAppend(cs, c, EvalCells(program, Left(), heap, args, locals.cells, items[i + 1..]));
        cs := cs + [c];
        i := i + 1;
      }
      assert cs + [] == cs;
      return Ok(cs);
    }

    /** The value is evaluated before the place is found. */
    method RunAssign(e: Expr, args: seq<Cell>, locals: Locals) returns (r: Answer<Value>)
      requires Idle() && e.Assign?
      modifies this, locals
      ensures callDepth == old(callDepth) && locals.cells == old(locals.cells)
      ensures Ends(Eval(program, old(Left()), old(heap), args, old(locals.cells), e), r)
      decreases maxCalls - callDepth, 1, e, 0, 0
    {
      hide PlaceOf, EvalAll, EvalCells, FoldSteps, LoopSteps, IntArms, EvalSymbol, Clone;
      var v :- RunExpr(e.value, args, locals);
      var c :- RunPlace(e.target, args, locals);
      heap := Write(heap, c, v);
      return Ok(UnitValue);
    }

    /** A target that is no place is evaluated for its value instead. */
    method RunIndex(e: Expr, args: seq<Cell>, locals: Locals) returns (r: Answer<Value>)
      requires Idle() && e.Index?
      modifies this, locals
      ensures callDepth == old(callDepth) && locals.cells == old(locals.cells)
      ensures Ends(Eval(program, old(Left()), old(heap), args, old(locals.cells), e), r)
      decreases maxCalls - callDepth, 1, e, 0, 0
    {
      hide PlaceOf, EvalAll, EvalCells, FoldSteps, LoopSteps, IntArms, EvalSymbol, Clone, ElementOf, ElementAt;
      var place := RunPlace(e.target, args, locals);
      if place.Err? && PlainPlace(e.target) {
        PlainPlaceIsCalm(program, old(Left()), old(heap), args, locals.cells, e.target);
        var v :- RunExpr(e.target, args, locals);
        r := RunElement(false, v, 0, e.index_, args, locals);
      } else {
        var c :- place;
        r := RunElement(true, UnitValue, c, e.index_, args, locals);
      }
    }

    /** The element of a place as it is after the index, or of a value. */
    method RunElement(place: bool, v: Value, c: Cell, index_: Expr, args: seq<Cell>, locals: Locals) returns (r: Answer<Value>)
      requires Idle()
      modifies this, locals
      ensures callDepth == old(callDepth) && locals.cells == old(locals.cells)
      ensures Ends(ElementAt(program, old(Left()), old(heap), args, old(locals.cells), place, v, c, index_), r)
      decreases maxCalls - callDepth, 1, index_, 2, 0
    {
      hide Eval, ElementOf, Clone;
      var iv :- RunExpr(index_, args, locals);
      var i := AsIndex(iv);
      if i.None? {
        return Err(Broken(Stuck));
      }
      var item := ElementOf(heap, if place then Read(heap, c) else v, i.value, |heap|);
      if item.None? {
        return Err(Broken(Stuck));
      }
      r := CloneCell(item.value);
    }

    method RunArraySet(e: Expr, args: seq<Cell>, locals: Locals) returns (r: Answer<Value>)
      requires Idle() && e.ArraySet?
      modifies this, locals
      ensures callDepth == old(callDepth) && locals.cells == old(locals.cells)
      ensures Ends(Eval(program, old(Left()), old(heap), args, old(locals.cells), e), r)
      decreases maxCalls - callDepth, 1, e, 0, 0
    {
      hide PlaceOf, EvalAll, EvalCells, FoldSteps, LoopSteps, IntArms, EvalSymbol, Clone;
      var a :- RunExpr(e.array_, args, locals);
      var iv :- RunExpr(e.index_, args, locals);
      var i := AsIndex(iv);
      if i.None? {
        return Err(Broken(Stuck));
      }
      var v :- RunExpr(e.value, args, locals);
      var copy :- CloneValue(a);
      if !copy.ArrayOf? || i.value >= |copy.elements| {
        return Err(Broken(Stuck));
      }
      var c := Alloc(v);
      return Ok(ArrayOf(copy.elements[i.value := c]));
    }

    method RunArrayFill(e: Expr, args: seq<Cell>, locals: Locals) returns (r: Answer<Value>)
      requires Idle() && e.ArrayFill?
      modifies this, locals
      ensures callDepth == old(callDepth) && locals.cells == old(locals.cells)
      ensures Ends(Eval(program, old(Left()), old(heap), args, old(locals.cells), e), r)
      decreases maxCalls - callDepth, 1, e, 0, 0
    {
      hide PlaceOf, EvalAll, EvalCells, FoldSteps, LoopSteps, IntArms, EvalSymbol, Clone, Copies;
      var v :- RunExpr(e.value, args, locals);
      var cs :- RunCopies(v, e.count);
      return Ok(ArrayOf(cs));
    }

    method RunCopies(v: Value, count: nat) returns (r: Answer<seq<Cell>>)
      requires slot.None?
      modifies this`heap
      ensures Ends(Copies(old(heap), v, count), r)
    {
      hide Clone;
      var cs: seq<Cell> := [];
      while |cs| < count
        invariant |cs| <= count
        invariant Copies(old(heap), v, count) == Before(cs, Copies(heap, v, count - |cs|))
      {
        var copy :- CloneValue(v);
        var c := Alloc(copy);
        BeforeAppend(cs, c, Copies(heap, v, count - |cs| - 1));
        cs := cs + [c];
      }
      assert cs + [] == cs;
      return Ok(cs);
    }

    method RunBinary(e: Expr, args: seq<Cell>, locals: Locals) returns (r: Answer<Value>)
      requires Idle() && e.Binary?
      modifies this, locals
      ensures callDepth == old(callDepth) && locals.cells == old(locals.cells)
      ensures Ends(Eval(program, old(Left()), old(heap), args, old(locals.cells), e), r)
      decreases maxCalls - callDepth, 1, e, 0, 0
    {
      hide PlaceOf, EvalAll, EvalCells, FoldSteps, LoopSteps, IntArms, EvalSymbol, Clone;
      var left :- RunExpr(e.left, args, locals);
      var right :- RunExpr(e.right, args, locals);
      var v := program.binary(e.op, left, right);
      return if v.Some? then Ok(v.value) else Err(Broken(Stuck));
    }

    method RunUnary(e: Expr, args: seq<Cell>, locals: Locals) returns (r: Answer<Value>)
      requires Idle() && e.Unary?
      modifies this, locals
      ensures callDepth == old(callDepth) && locals.cells == old(locals.cells)
      ensures Ends(Eval(program, old(Left()), old(heap), args, old(locals.cells), e), r)
      decreases maxCalls - callDepth, 1, e, 0, 0
    {
      hide PlaceOf, EvalAll, EvalCells, FoldSteps, LoopSteps, IntArms, EvalSymbol, Clone;
      var operand :- RunExpr(e.operand, args, locals);
      var v := program.unary(e.op, operand);
      return if v.Some? then Ok(v.value) else Err(Broken(Stuck));
    }

    method RunBuild(e: Expr, args: seq<Cell>, locals: Locals) returns (r: Answer<Value>)
      requires Idle() && (e.BoxNew? || e.Unbox? || e.Construct?)
      modifies this, locals
      ensures callDepth == old(callDepth) && locals.cells == old(locals.cells)
      ensures Ends(Eval(program, old(Left()), old(heap), args, old(locals.cells), e), r)
      decreases maxCalls - callDepth, 1, e, 0, 0
    {
      hide PlaceOf, EvalAll, EvalCells, FoldSteps, LoopSteps, IntArms, EvalSymbol, Clone;
      match e {
        case BoxNew(value) =>
          var v :- RunExpr(value, args, locals);
          var c := Alloc(v);
          return Ok(Boxed(c));
        case Unbox(value) =>
          var v :- RunExpr(value, args, locals);
          return if v.Boxed? then Ok(Read(heap, v.content)) else Err(Broken(Stuck));
        case Construct(variant, value) =>
          var v :- RunExpr(value, args, locals);
          var c := Alloc(v);
          return Ok(EnumOf(variant, c));
      }
    }

    method RunAggregate(e: Expr, args: seq<Cell>, locals: Locals) returns (r: Answer<Value>)
      requires Idle() && (e.ArrayLit? || e.RecordLit?)
      modifies this, locals
      ensures callDepth == old(callDepth) && locals.cells == old(locals.cells)
      ensures Ends(Eval(program, old(Left()), old(heap), args, old(locals.cells), e), r)
      decreases maxCalls - callDepth, 1, e, 0, 0
    {
      hide PlaceOf, EvalAll, EvalCells, FoldSteps, LoopSteps, IntArms, EvalSymbol, Clone;
      match e {
        case ArrayLit(items) =>
          var cs :- RunCells(items, args, locals);
          return Ok(ArrayOf(cs));
        case RecordLit(names, items) =>
          var cs :- RunCells(items, args, locals);
          return Ok(RecordOf(names, cs));
      }
    }

    method RunPlaceValue(e: Expr, args: seq<Cell>, locals: Locals) returns (r: Answer<Value>)
      requires Idle() && (e.Borrow? || e.SliceOf? || e.Field?)
      modifies this, locals
      ensures callDepth == old(callDepth) && locals.cells == old(locals.cells)
      ensures Ends(Eval(program, old(Left()), old(heap), args, old(locals.cells), e), r)
      decreases maxCalls - callDepth, 1, e, 0, 0
    {
      hide PlaceOf, EvalAll, EvalCells, FoldSteps, LoopSteps, IntArms, EvalSymbol, Clone, SliceCells;
      match e {
        case Borrow(mutable, target) =>
          var c :- RunPlace(target, args, locals);
          return Ok(Ref(mutable, Unboxed(heap, c)));
        case SliceOf(target, mutable) =>
          var c :- RunPlace(target, args, locals);
          var cells := SliceCells(heap, Read(heap, c), |heap|);
          return if cells.Some? then Ok(Slice(cells.value, mutable)) else Err(Broken(Stuck));
        case Field(_, _) =>
          var c :- RunPlace(e, args, locals);
          r := CloneCell(c);
      }
    }

    method RunPlace(e: Expr, args: seq<Cell>, locals: Locals) returns (r: Answer<Cell>)
      requires Idle()
      modifies this, locals
      ensures callDepth == old(callDepth) && locals.cells == old(locals.cells)
      ensures Ends(PlaceOf(program, old(Left()), old(heap), args, old(locals.cells), e), r)
      decreases maxCalls - callDepth, 1, e, -1, 0
    {
      hide Eval, FieldCell, ElementOf, Read, Unboxed, AsIndex;
      match e {
        case Param(i) =>
          return if i < |args| then Ok(args[i]) else Err(Broken(Stuck));
        case Local(d) =>
          return if d < |locals.cells| then Ok(locals.cells[|locals.cells| - 1 - d]) else Err(Broken(Stuck));
        case Field(target, name) =>
          var c :- RunPlace(target, args, locals);
          var cell := FieldCell(heap, Unboxed(heap, c), name, |heap|);
          return if cell.Some? then Ok(cell.value) else Err(Broken(Stuck));
        case Index(target, index_) =>
          var c :- RunPlace(target, args, locals);
          var iv :- RunExpr(index_, args, locals);
          var i := AsIndex(iv);
          if i.None? {
            return Err(Broken(Stuck));
          }
          var cell := ElementOf(heap, Read(heap, c), i.value, |heap|);
          return if cell.Some? then Ok(cell.value) else Err(Broken(Stuck));
        case _ =>
          return Err(Broken(Stuck));
      }
    }
  }

  /** Results so far, then those still to come. */
  function Before<T>(done: seq<T>, rest: Run<seq<T>>): (all: Run<seq<T>>)
    ensures done == [] ==> all == rest
  {
    if rest.IsFailure() then rest
    else
      assert [] + rest.out.value == rest.out.value;
      Run(rest.heap, Done(done + rest.out.value))
  }

  lemma BeforeAppend<T>(done: seq<T>, x: T, rest: Run<seq<T>>)
    ensures rest.out.Done? ==> Before(done, Run(rest.heap, Done([x] + rest.out.value))) == Before(done + [x], rest)
  {
    if rest.out.Done? {
      assert done + ([x] + rest.out.value) == (done + [x]) + rest.out.value;
    }
  }

  /** Finding a plain place changes nothing, and can only succeed or be refused. */
  lemma {:induction false} PlainPlaceIsCalm(p: Program, lim: Limits, h: Heap, args: seq<Cell>, locals: seq<Cell>, e: Expr)
    requires PlainPlace(e)
    ensures PlaceOf(p, lim, h, args, locals, e).heap == h
    ensures var out := PlaceOf(p, lim, h, args, locals, e).out; out.Done? || out == Failed(Stuck)
    decreases e
  {
    hide Eval;
    if e.Field? {
      PlainPlaceIsCalm(p, lim, h, args, locals, e.target);
    }
  }

  lemma {:induction false} CloneNeverReturns(h: Heap, v: Value, fuel: nat)
    ensures !Clone(h, v, fuel).out.Returned?
    decreases fuel, 0
  {
    match v
    case Boxed(c) => CellsNeverReturn(h, [c], fuel);
    case ArrayOf(cells) => CellsNeverReturn(h, cells, fuel);
    case RecordOf(_, cells) => CellsNeverReturn(h, cells, fuel);
    case EnumOf(_, c) => CellsNeverReturn(h, [c], fuel);
    case _ =>
  }

  lemma {:induction false} CellsNeverReturn(h: Heap, cells: seq<Cell>, fuel: nat)
    ensures !CloneCells(h, cells, fuel).out.Returned?
    decreases fuel, if fuel == 0 then 0 else -1, |cells|
  {
    if cells != [] && fuel > 0 {
      var first := Clone(h, Read(h, cells[0]), fuel - 1);
      CloneNeverReturns(h, Read(h, cells[0]), fuel - 1);
      if first.out.Done? {
        CellsNeverReturn(first.heap + [first.out.value], cells[1..], fuel);
      }
    }
  }
}
