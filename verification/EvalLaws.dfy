/** Laws of evaluation: what diverges, what a ceiling can change, and what an
    early return in tail position means. */
module EvalLaws {
  import opened Wrappers
  import opened EvalSemantics
  import opened EvalMachine

  // ---------------------------------------------------------------- divergence

  /** The shapes that always leave the function early. */
  predicate Diverges(e: Expr)
    decreases e, 0
  {
    match e
    case Return(_) => true
    case If(_, thenExpr, elseExpr) => Diverges(thenExpr) && Diverges(elseExpr)
    case Case(_, arms) => arms != [] && AllDiverge(arms)
    case Let(_, body) => Diverges(body)
    case _ => false
  }

  predicate AllDiverge(arms: seq<Arm>)
    decreases arms, 0
  {
    arms != [] ==> ArmDiverges(arms[0]) && AllDiverge(arms[1..])
  }

  predicate ArmDiverges(arm: Arm)
    decreases arm, 0
  {
    Diverges(arm.body)
  }

  /** A diverging expression returns or fails; its context never sees a value. */
  lemma {:induction false} DivergentNeverYields(p: Program, lim: Limits, h: Heap, args: seq<Cell>, locals: seq<Cell>, e: Expr)
    requires Diverges(e)
    ensures !Eval(p, lim, h, args, locals, e).out.Done?
    decreases e, 0
  {
    hide PlaceOf, EvalAll, EvalCells, FoldSteps, LoopSteps, EvalSymbol, IntArms, EnumArm, BoolArm, AllDiverge;
    match e
    case Let(value, body) =>
      var r := Eval(p, lim, h, args, locals, value);
      if r.out.Done? {
        DivergentNeverYields(p, lim, r.heap + [r.out.value], args, locals + [|r.heap|], body);
      }
    case If(cond, thenExpr, elseExpr) =>
      var r := Eval(p, lim, h, args, locals, cond);
      DivergentNeverYields(p, lim, r.heap, args, locals, thenExpr);
      DivergentNeverYields(p, lim, r.heap, args, locals, elseExpr);
    case Case(scrutinee, arms) =>
      var r := Eval(p, lim, h, args, locals, scrutinee);
      if r.out.Done? && r.out.value.Int? {
        ArmsNeverYield(p, lim, r.heap, args, locals, arms, r.out.value.number);
      } else if r.out.Done? {
        forall i, h2: Heap, inner | 0 <= i < |arms|
          ensures !Eval(p, lim, h2, args, inner, arms[i].body).out.Done?
        {
          EachArmDiverges(arms, i);
          DivergentNeverYields(p, lim, h2, args, inner, arms[i].body);
        }
      }
    case _ =>
  }

  lemma {:induction false} EachArmDiverges(arms: seq<Arm>, i: nat)
    requires i < |arms| && AllDiverge(arms)
    ensures Diverges(arms[i].body)
    decreases i
  {
    assert ArmDiverges(arms[0]);
    if i > 0 {
      EachArmDiverges(arms[1..], i - 1);
    }
  }

  lemma {:induction false} ArmsNeverYield(p: Program, lim: Limits, h: Heap, args: seq<Cell>, locals: seq<Cell>, arms: seq<Arm>, n: int)
    requires AllDiverge(arms)
    ensures !IntArms(p, lim, h, args, locals, arms, n).out.Done?
    decreases arms, 0
  {
    hide Eval, GuardOf;
    if arms != [] {
      var g := GuardOf(p, lim, h, args, locals, arms[0]);
      ArmsNeverYield(p, lim, h, args, locals, arms[1..], n);
      ArmsNeverYield(p, lim, g.heap, args, locals, arms[1..], n);
      ArmNeverYields(p, lim, g.heap, args, locals, arms[0]);
    }
  }

  lemma {:induction false} ArmNeverYields(p: Program, lim: Limits, h: Heap, args: seq<Cell>, locals: seq<Cell>, arm: Arm)
    requires ArmDiverges(arm)
    ensures !ArmBody(p, lim, h, args, locals, arm).out.Done?
    decreases arm, 0
  {
    hide Eval;
    DivergentNeverYields(p, lim, h, args, locals, arm.body);
  }

  // ---------------------------------------------------------------- ceilings

  predicate Within(lim: Limits, lim2: Limits) { lim.calls <= lim2.calls && lim.loops <= lim2.loops }

  predicate Declined<T>(run: Run<T>) { run.out == Failed(CallCeiling) || run.out == Failed(LoopCeiling) }

  /** The larger ceilings give the same run unless the smaller ones stopped it. */
  predicate Keeps<T(==)>(small: Run<T>, large: Run<T>) { !Declined(small) ==> large == small }

  /** Raising either ceiling never changes a result that was already produced. */
  lemma {:induction false} CeilingsOnlyDecline(p: Program, lim: Limits, lim2: Limits, h: Heap, args: seq<Cell>, locals: seq<Cell>, e: Expr)
    requires Within(lim, lim2)
    ensures Keeps(Eval(p, lim, h, args, locals, e), Eval(p, lim2, h, args, locals, e))
    decreases lim.calls, 1, e, 1, 0
  {
    hide Eval;
    match e
    case Call(_, _) => CallKeeps(p, lim, lim2, h, args, locals, e);
    case Binary(_, _, _) => BinaryKeeps(p, lim, lim2, h, args, locals, e);
    case Assign(_, _) => AssignKeeps(p, lim, lim2, h, args, locals, e);
    case Let(_, _) => LetKeeps(p, lim, lim2, h, args, locals, e);
    case If(_, _, _) => IfKeeps(p, lim, lim2, h, args, locals, e);
    case Fold(_, _, _) => FoldKeeps(p, lim, lim2, h, args, locals, e);
    case Loop(_, _, _) => LoopKeeps(p, lim, lim2, h, args, locals, e);
    case ArraySet(_, _, _) => ArraySetKeeps(p, lim, lim2, h, args, locals, e);
    case Index(_, _) => IndexKeeps(p, lim, lim2, h, args, locals, e);
    case Case(_, _) => CaseKeeps(p, lim, lim2, h, args, locals, e);
    case _ => OneStepKeeps(p, lim, lim2, h, args, locals, e);
  }

  lemma {:induction false} OneStepKeeps(p: Program, lim: Limits, lim2: Limits, h: Heap, args: seq<Cell>, locals: seq<Cell>, e: Expr)
    requires Within(lim, lim2) && !e.Call? && !e.Binary? && !e.Assign? && !e.Let? && !e.If? && !e.Fold? && !e.Loop? && !e.ArraySet? && !e.Index? && !e.Case?
    ensures Keeps(Eval(p, lim, h, args, locals, e), Eval(p, lim2, h, args, locals, e))
    decreases lim.calls, 1, e, 0, 0
  {
    hide PlaceOf, EvalAll, EvalCells, FoldSteps, LoopSteps, EvalSymbol, IntArms, EnumArm, BoolArm, Clone, Copies, ElementOf, SliceCells, FieldCell, ElementAt;
    match e
    case Unary(_, operand) => CeilingsOnlyDecline(p, lim, lim2, h, args, locals, operand);
    case Borrow(_, target) => PlaceKeeps(p, lim, lim2, h, args, locals, target);
    case SliceOf(target, _) => PlaceKeeps(p, lim, lim2, h, args, locals, target);
    case BoxNew(value) => CeilingsOnlyDecline(p, lim, lim2, h, args, locals, value);
    case Unbox(value) => CeilingsOnlyDecline(p, lim, lim2, h, args, locals, value);
    case Return(value) => CeilingsOnlyDecline(p, lim, lim2, h, args, locals, value);
    case ArrayLit(items) => CellsKeep(p, lim, lim2, h, args, locals, items);
    case ArrayFill(value, _) => CeilingsOnlyDecline(p, lim, lim2, h, args, locals, value);
    case RecordLit(_, items) => CellsKeep(p, lim, lim2, h, args, locals, items);
    case Field(_, _) => PlaceKeeps(p, lim, lim2, h, args, locals, e);
    case Construct(_, value) => CeilingsOnlyDecline(p, lim, lim2, h, args, locals, value);
    case _ =>
  }

  lemma {:induction false} CallKeeps(p: Program, lim: Limits, lim2: Limits, h: Heap, args: seq<Cell>, locals: seq<Cell>, e: Expr)
    requires Within(lim, lim2) && e.Call?
    ensures Keeps(Eval(p, lim, h, args, locals, e), Eval(p, lim2, h, args, locals, e))
    decreases lim.calls, 1, e, 0, 0
  {
    hide PlaceOf, EvalAll, EvalCells, FoldSteps, LoopSteps, EvalSymbol, IntArms, EnumArm, BoolArm, Clone, Copies, ElementOf, SliceCells, FieldCell, ElementAt;
    var r := EvalAll(p, lim, h, args, locals, e.args);
    AllKeep(p, lim, lim2, h, args, locals, e.args);
    if r.out.Done? {
      SymbolKeeps(p, lim, lim2, r.heap, e.symbol, r.out.value);
    }
  }

  lemma {:induction false} BinaryKeeps(p: Program, lim: Limits, lim2: Limits, h: Heap, args: seq<Cell>, locals: seq<Cell>, e: Expr)
    requires Within(lim, lim2) && e.Binary?
    ensures Keeps(Eval(p, lim, h, args, locals, e), Eval(p, lim2, h, args, locals, e))
    decreases lim.calls, 1, e, 0, 0
  {
    hide PlaceOf, EvalAll, EvalCells, FoldSteps, LoopSteps, EvalSymbol, IntArms, EnumArm, BoolArm, Clone, Copies, ElementOf, SliceCells, FieldCell, ElementAt;
    var l := Eval(p, lim, h, args, locals, e.left);
    CeilingsOnlyDecline(p, lim, lim2, h, args, locals, e.left);
    CeilingsOnlyDecline(p, lim, lim2, l.heap, args, locals, e.right);
  }

  lemma {:induction false} AssignKeeps(p: Program, lim: Limits, lim2: Limits, h: Heap, args: seq<Cell>, locals: seq<Cell>, e: Expr)
    requires Within(lim, lim2) && e.Assign?
    ensures Keeps(Eval(p, lim, h, args, locals, e), Eval(p, lim2, h, args, locals, e))
    decreases lim.calls, 1, e, 0, 0
  {
    hide PlaceOf, EvalAll, EvalCells, FoldSteps, LoopSteps, EvalSymbol, IntArms, EnumArm, BoolArm, Clone, Copies, ElementOf, SliceCells, FieldCell, ElementAt;
    var v := Eval(p, lim, h, args, locals, e.value);
    CeilingsOnlyDecline(p, lim, lim2, h, args, locals, e.value);
    PlaceKeeps(p, lim, lim2, v.heap, args, locals, e.target);
  }

  lemma {:induction false} LetKeeps(p: Program, lim: Limits, lim2: Limits, h: Heap, args: seq<Cell>, locals: seq<Cell>, e: Expr)
    requires Within(lim, lim2) && e.Let?
    ensures Keeps(Eval(p, lim, h, args, locals, e), Eval(p, lim2, h, args, locals, e))
    decreases lim.calls, 1, e, 0, 0
  {
    hide PlaceOf, EvalAll, EvalCells, FoldSteps, LoopSteps, EvalSymbol, IntArms, EnumArm, BoolArm, Clone, Copies, ElementOf, SliceCells, FieldCell, ElementAt;
    var v := Eval(p, lim, h, args, locals, e.value);
    CeilingsOnlyDecline(p, lim, lim2, h, args, locals, e.value);
    if v.out.Done? {
      CeilingsOnlyDecline(p, lim, lim2, v.heap + [v.out.value], args, locals + [|v.heap|], e.body);
    }
  }

  lemma {:induction false} IfKeeps(p: Program, lim: Limits, lim2: Limits, h: Heap, args: seq<Cell>, locals: seq<Cell>, e: Expr)
    requires Within(lim, lim2) && e.If?
    ensures Keeps(Eval(p, lim, h, args, locals, e), Eval(p, lim2, h, args, locals, e))
    decreases lim.calls, 1, e, 0, 0
  {
    hide PlaceOf, EvalAll, EvalCells, FoldSteps, LoopSteps, EvalSymbol, IntArms, EnumArm, BoolArm, Clone, Copies, ElementOf, SliceCells, FieldCell, ElementAt;
    var v := Eval(p, lim, h, args, locals, e.cond);
    CeilingsOnlyDecline(p, lim, lim2, h, args, locals, e.cond);
    CeilingsOnlyDecline(p, lim, lim2, v.heap, args, locals, e.thenExpr);
    CeilingsOnlyDecline(p, lim, lim2, v.heap, args, locals, e.elseExpr);
  }

  lemma {:induction false} FoldKeeps(p: Program, lim: Limits, lim2: Limits, h: Heap, args: seq<Cell>, locals: seq<Cell>, e: Expr)
    requires Within(lim, lim2) && e.Fold?
    ensures Keeps(Eval(p, lim, h, args, locals, e), Eval(p, lim2, h, args, locals, e))
    decreases lim.calls, 1, e, 0, 0
  {
    hide PlaceOf, EvalAll, EvalCells, FoldSteps, LoopSteps, EvalSymbol, IntArms, EnumArm, BoolArm, Clone, Copies, ElementOf, SliceCells, FieldCell, ElementAt;
    var t := Eval(p, lim, h, args, locals, e.target);
    CeilingsOnlyDecline(p, lim, lim2, h, args, locals, e.target);
    if t.out.Done? && (t.out.value.ArrayOf? || t.out.value.Slice?) {
      var acc := Eval(p, lim, t.heap, args, locals, e.init);
      CeilingsOnlyDecline(p, lim, lim2, t.heap, args, locals, e.init);
      if acc.out.Done? {
        FoldStepsKeep(p, lim, lim2, acc.heap, args, locals, t.out.value.elements, acc.out.value, e.body);
      }
    }
  }

  lemma {:induction false} FoldStepsKeep(p: Program, lim: Limits, lim2: Limits, h: Heap, args: seq<Cell>, locals: seq<Cell>, items: seq<Cell>, acc: Value, body: Expr)
    requires Within(lim, lim2)
    ensures Keeps(FoldSteps(p, lim, h, args, locals, items, acc, body), FoldSteps(p, lim2, h, args, locals, items, acc, body))
    decreases lim.calls, 1, body, 2, |items|
  {
    hide Eval, Clone;
    if items != [] {
      var item := Copy(h, items[0]);
      CloneNeverReturns(h, Read(h, items[0]), |h|);
      if item.out.Done? {
        var h1, inner := item.heap + [item.out.value, acc], locals + [|item.heap|, |item.heap| + 1];
        var next := Eval(p, lim, h1, args, inner, body);
        CeilingsOnlyDecline(p, lim, lim2, h1, args, inner, body);
        if next.out.Done? {
          FoldStepsKeep(p, lim, lim2, next.heap, args, locals, items[1..], next.out.value, body);
        }
      }
    }
  }

  lemma {:induction false} LoopKeeps(p: Program, lim: Limits, lim2: Limits, h: Heap, args: seq<Cell>, locals: seq<Cell>, e: Expr)
    requires Within(lim, lim2) && e.Loop?
    ensures Keeps(Eval(p, lim, h, args, locals, e), Eval(p, lim2, h, args, locals, e))
    decreases lim.calls, 1, e, 0, 0
  {
    hide PlaceOf, EvalAll, EvalCells, FoldSteps, LoopSteps, EvalSymbol, IntArms, EnumArm, BoolArm, Clone, Copies, ElementOf, SliceCells, FieldCell, ElementAt;
    var acc := Eval(p, lim, h, args, locals, e.init);
    CeilingsOnlyDecline(p, lim, lim2, h, args, locals, e.init);
    if acc.out.Done? {
      LoopStepsKeep(p, lim, lim2, acc.heap, args, locals, e, acc.out.value, 0);
    }
  }

  lemma {:induction false} LoopStepsKeep(p: Program, lim: Limits, lim2: Limits, h: Heap, args: seq<Cell>, locals: seq<Cell>, e: Expr, acc: Value, count: nat)
    requires Within(lim, lim2) && e.Loop? && count <= lim.loops
    ensures Keeps(LoopSteps(p, lim, h, args, locals, e, acc, count), LoopSteps(p, lim2, h, args, locals, e, acc, count))
    decreases lim.calls, 1, e, -1, lim.loops - count
  {
    hide Eval, Clone;
    var copy := Clone(h, acc, |h|);
    if copy.out.Done? {
      var h1, inner := copy.heap + [copy.out.value], locals + [|copy.heap|];
      var v := Eval(p, lim, h1, args, inner, e.cond);
      CeilingsOnlyDecline(p, lim, lim2, h1, args, inner, e.cond);
      if v.out.Done? && v.out.value == Flag(true) {
        var next := Eval(p, lim, v.heap, args, inner, e.body);
        CeilingsOnlyDecline(p, lim, lim2, v.heap, args, inner, e.body);
        if next.out.Done? && count + 1 <= lim.loops {
          LoopStepsKeep(p, lim, lim2, next.heap, args, locals, e, next.out.value, count + 1);
        }
      }
    }
  }

  lemma {:induction false} ArraySetKeeps(p: Program, lim: Limits, lim2: Limits, h: Heap, args: seq<Cell>, locals: seq<Cell>, e: Expr)
    requires Within(lim, lim2) && e.ArraySet?
    ensures Keeps(Eval(p, lim, h, args, locals, e), Eval(p, lim2, h, args, locals, e))
    decreases lim.calls, 1, e, 0, 0
  {
    hide PlaceOf, EvalAll, EvalCells, FoldSteps, LoopSteps, EvalSymbol, IntArms, EnumArm, BoolArm, Clone, Copies, ElementOf, SliceCells, FieldCell, ElementAt;
    var a := Eval(p, lim, h, args, locals, e.array_);
    CeilingsOnlyDecline(p, lim, lim2, h, args, locals, e.array_);
    var i := Eval(p, lim, a.heap, args, locals, e.index_);
    CeilingsOnlyDecline(p, lim, lim2, a.heap, args, locals, e.index_);
    CeilingsOnlyDecline(p, lim, lim2, i.heap, args, locals, e.value);
  }

  lemma {:induction false} IndexKeeps(p: Program, lim: Limits, lim2: Limits, h: Heap, args: seq<Cell>, locals: seq<Cell>, e: Expr)
    requires Within(lim, lim2) && e.Index?
    ensures Keeps(Eval(p, lim, h, args, locals, e), Eval(p, lim2, h, args, locals, e))
    decreases lim.calls, 1, e, 0, 0
  {
    hide PlaceOf, EvalAll, EvalCells, FoldSteps, LoopSteps, EvalSymbol, IntArms, EnumArm, BoolArm, Clone, Copies, ElementOf, SliceCells, FieldCell, ElementAt;
    var place := PlaceOf(p, lim, h, args, locals, e.target);
    PlaceKeeps(p, lim, lim2, h, args, locals, e.target);
    if PlainPlace(e.target) {
      PlainPlaceIsCalm(p, lim, h, args, locals, e.target);
    }
    if place.out.Done? {
      ElementKeeps(p, lim, lim2, place.heap, args, locals, true, UnitValue, place.out.value, e.index_);
    } else if PlainPlace(e.target) {
      var v := Eval(p, lim, place.heap, args, locals, e.target);
      CeilingsOnlyDecline(p, lim, lim2, place.heap, args, locals, e.target);
      if v.out.Done? {
        ElementKeeps(p, lim, lim2, v.heap, args, locals, false, v.out.value, 0, e.index_);
      }
    }
  }

  lemma {:induction false} ElementKeeps(p: Program, lim: Limits, lim2: Limits, h: Heap, args: seq<Cell>, locals: seq<Cell>,
                                        place: bool, v: Value, c: Cell, index_: Expr)
    requires Within(lim, lim2)
    ensures Keeps(ElementAt(p, lim, h, args, locals, place, v, c, index_), ElementAt(p, lim2, h, args, locals, place, v, c, index_))
    decreases lim.calls, 1, index_, 2, 0
  {
    hide Eval, ElementOf, Clone;
    CeilingsOnlyDecline(p, lim, lim2, h, args, locals, index_);
  }

  lemma {:induction false} CaseKeeps(p: Program, lim: Limits, lim2: Limits, h: Heap, args: seq<Cell>, locals: seq<Cell>, e: Expr)
    requires Within(lim, lim2) && e.Case?
    ensures Keeps(Eval(p, lim, h, args, locals, e), Eval(p, lim2, h, args, locals, e))
    decreases lim.calls, 1, e, 0, 0
  {
    hide PlaceOf, EvalAll, EvalCells, FoldSteps, LoopSteps, EvalSymbol, IntArms, EnumArm, BoolArm, Clone, Copies, ElementOf, SliceCells, FieldCell, ElementAt;
    var r := Eval(p, lim, h, args, locals, e.scrutinee);
    CeilingsOnlyDecline(p, lim, lim2, h, args, locals, e.scrutinee);
    if r.out.Done? {
      match r.out.value
      case EnumOf(_, _) =>
        var h2 := r.heap + [r.out.value];
        match EnumArm(h2, e.arms, |r.heap|) {
          case None =>
          case Some((i, leaf)) =>
            var inner := if leaf.Some? then locals + [leaf.value] else locals;
            CeilingsOnlyDecline(p, lim, lim2, h2, args, inner, e.arms[i].body);
        }
      case Int(n) => IntArmsKeep(p, lim, lim2, r.heap, args, locals, e.arms, n);
      case Flag(b) =>
        var arm := BoolArm(e.arms, b);
        if arm.Some? {
          CeilingsOnlyDecline(p, lim, lim2, r.heap, args, locals, e.arms[arm.value].body);
        }
      case _ =>
    }
  }

  lemma {:induction false} IntArmsKeep(p: Program, lim: Limits, lim2: Limits, h: Heap, args: seq<Cell>, locals: seq<Cell>, arms: seq<Arm>, n: int)
    requires Within(lim, lim2)
    ensures Keeps(IntArms(p, lim, h, args, locals, arms, n), IntArms(p, lim2, h, args, locals, arms, n))
    decreases lim.calls, 1, arms, 1, 0
  {
    hide Eval, GuardOf, ArmBody;
    if arms != [] {
      var g := GuardOf(p, lim, h, args, locals, arms[0]);
      IntArmsKeep(p, lim, lim2, h, args, locals, arms[1..], n);
      IntArmsKeep(p, lim, lim2, g.heap, args, locals, arms[1..], n);
      ArmKeeps(p, lim, lim2, h, g.heap, args, locals, arms[0]);
    }
  }

  lemma {:induction false} ArmKeeps(p: Program, lim: Limits, lim2: Limits, h: Heap, h1: Heap, args: seq<Cell>, locals: seq<Cell>, arm: Arm)
    requires Within(lim, lim2)
    ensures Keeps(GuardOf(p, lim, h, args, locals, arm), GuardOf(p, lim2, h, args, locals, arm))
    ensures Keeps(ArmBody(p, lim, h1, args, locals, arm), ArmBody(p, lim2, h1, args, locals, arm))
    decreases lim.calls, 1, arm, 1, 0
  {
    hide Eval;
    if arm.guard.Some? {
      CeilingsOnlyDecline(p, lim, lim2, h, args, locals, arm.guard.value);
    }
    CeilingsOnlyDecline(p, lim, lim2, h1, args, locals, arm.body);
  }

  lemma {:induction false} PlaceKeeps(p: Program, lim: Limits, lim2: Limits, h: Heap, args: seq<Cell>, locals: seq<Cell>, e: Expr)
    requires Within(lim, lim2)
    ensures Keeps(PlaceOf(p, lim, h, args, locals, e), PlaceOf(p, lim2, h, args, locals, e))
    decreases lim.calls, 1, e, 0, -1
  {
    hide Eval, FieldCell, ElementOf;
    if e.Field? {
      PlaceKeeps(p, lim, lim2, h, args, locals, e.target);
    } else if e.Index? {
      var place := PlaceOf(p, lim, h, args, locals, e.target);
      PlaceKeeps(p, lim, lim2, h, args, locals, e.target);
      CeilingsOnlyDecline(p, lim, lim2, place.heap, args, locals, e.index_);
    }
  }

  lemma {:induction false} AllKeep(p: Program, lim: Limits, lim2: Limits, h: Heap, args: seq<Cell>, locals: seq<Cell>, items: seq<Expr>)
    requires Within(lim, lim2)
    ensures Keeps(EvalAll(p, lim, h, args, locals, items), EvalAll(p, lim2, h, args, locals, items))
    decreases lim.calls, 1, items, 1, 0
  {
    hide Eval;
    if items != [] {
      var first := Eval(p, lim, h, args, locals, items[0]);
      CeilingsOnlyDecline(p, lim, lim2, h, args, locals, items[0]);
      AllKeep(p, lim, lim2, first.heap, args, locals, items[1..]);
    }
  }

  lemma {:induction false} CellsKeep(p: Program, lim: Limits, lim2: Limits, h: Heap, args: seq<Cell>, locals: seq<Cell>, items: seq<Expr>)
    requires Within(lim, lim2)
    ensures Keeps(EvalCells(p, lim, h, args, locals, items), EvalCells(p, lim2, h, args, locals, items))
    decreases lim.calls, 1, items, 1, 0
  {
    hide Eval;
    if items != [] {
      var first := Eval(p, lim, h, args, locals, items[0]);
      CeilingsOnlyDecline(p, lim, lim2, h, args, locals, items[0]);
      if first.out.Done? {
        CellsKeep(p, lim, lim2, first.heap + [first.out.value], args, locals, items[1..]);
      }
    }
  }

  lemma {:induction false} SymbolKeeps(p: Program, lim: Limits, lim2: Limits, h: Heap, symbol: string, vs: seq<Value>)
    requires Within(lim, lim2)
    ensures Keeps(EvalSymbol(p, lim, h, symbol, vs), EvalSymbol(p, lim2, h, symbol, vs))
    decreases lim.calls, 0, 0, 0, 0
  {
    hide Eval;
    if lim.calls > 0 && symbol in p.functions && p.functions[symbol].body.Some? {
      var cells := seq(|vs|, i requires 0 <= i => |h| + i);
      CeilingsOnlyDecline(p, Limits(lim.calls - 1, lim.loops), Limits(lim2.calls - 1, lim2.loops),
                          h + vs, cells, [], p.functions[symbol].body.value);
    }
  }

  /** Any two ceilings that both let a call finish give the same result and store. */
  lemma CeilingsAgree(p: Program, a: Limits, b: Limits, h: Heap, symbol: string, vs: seq<Value>)
    requires !Declined(EvalSymbol(p, a, h, symbol, vs)) && !Declined(EvalSymbol(p, b, h, symbol, vs))
    ensures EvalSymbol(p, a, h, symbol, vs) == EvalSymbol(p, b, h, symbol, vs)
  {
    var both := Limits(if a.calls < b.calls then b.calls else a.calls, if a.loops < b.loops then b.loops else a.loops);
    SymbolKeeps(p, a, both, h, symbol, vs);
    SymbolKeeps(p, b, both, h, symbol, vs);
  }

  // ---------------------------------------------------------------- tail returns

  /** The same expression with the returns in block-result position taken off. */
  function Unreturned(e: Expr): Expr
    decreases e, 0
  {
    match e
    case Return(value) => Unreturned(value)
    case If(cond, thenExpr, elseExpr) => If(cond, Unreturned(thenExpr), Unreturned(elseExpr))
    case Let(value, body) => Let(value, Unreturned(body))
    case Case(scrutinee, arms) => Case(scrutinee, UnreturnedArms(arms))
    case _ => e
  }

  function UnreturnedArms(arms: seq<Arm>): (r: seq<Arm>)
    ensures |r| == |arms|
    decreases arms, 0
  {
    if arms == [] then [] else [UnreturnedArm(arms[0])] + UnreturnedArms(arms[1..])
  }

  function UnreturnedArm(arm: Arm): Arm
    decreases arm, 0
  {
    Arm(arm.test, arm.guard, Unreturned(arm.body))
  }

  /** How a call boundary sees an outcome. */
  function AtBoundary(run: Run<Value>): Run<Value> {
    match run.out
    case Returned(v) => Run(run.heap, Done(v))
    case _ => run
  }

  /** In block-result position a return is its operand: the call cannot tell. */
  lemma {:induction false} TailReturnIsValue(p: Program, lim: Limits, h: Heap, args: seq<Cell>, locals: seq<Cell>, e: Expr)
    ensures AtBoundary(Eval(p, lim, h, args, locals, Unreturned(e))) == AtBoundary(Eval(p, lim, h, args, locals, e))
    decreases e, 1
  {
    hide Eval;
    match e
    case Return(_) => ReturnUnreturns(p, lim, h, args, locals, e);
    case Let(_, _) => LetUnreturns(p, lim, h, args, locals, e);
    case If(_, _, _) => IfUnreturns(p, lim, h, args, locals, e);
    case Case(_, _) => CaseUnreturns(p, lim, h, args, locals, e);
    case _ =>
  }

  lemma {:induction false} ReturnUnreturns(p: Program, lim: Limits, h: Heap, args: seq<Cell>, locals: seq<Cell>, e: Expr)
    requires e.Return?
    ensures AtBoundary(Eval(p, lim, h, args, locals, Unreturned(e))) == AtBoundary(Eval(p, lim, h, args, locals, e))
    decreases e, 0
  {
    hide PlaceOf, EvalAll, EvalCells, FoldSteps, LoopSteps, EvalSymbol, IntArms, EnumArm, BoolArm, UnreturnedArms, Clone;
    TailReturnIsValue(p, lim, h, args, locals, e.value);
    assert Eval(p, lim, h, args, locals, Unreturned(e)) == Eval(p, lim, h, args, locals, Unreturned(e.value));
    ReturnStep(p, lim, h, args, locals, e);
  }

  lemma ReturnStep(p: Program, lim: Limits, h: Heap, args: seq<Cell>, locals: seq<Cell>, e: Expr)
    requires e.Return?
    ensures AtBoundary(Eval(p, lim, h, args, locals, e)) == AtBoundary(Eval(p, lim, h, args, locals, e.value))
  {
    hide PlaceOf, EvalAll, EvalCells, FoldSteps, LoopSteps, EvalSymbol, IntArms, EnumArm, BoolArm, UnreturnedArms, Clone;
  }

  lemma {:induction false} LetUnreturns(p: Program, lim: Limits, h: Heap, args: seq<Cell>, locals: seq<Cell>, e: Expr)
    requires e.Let?
    ensures AtBoundary(Eval(p, lim, h, args, locals, Unreturned(e))) == AtBoundary(Eval(p, lim, h, args, locals, e))
    decreases e, 0
  {
    hide PlaceOf, EvalAll, EvalCells, FoldSteps, LoopSteps, EvalSymbol, IntArms, EnumArm, BoolArm, UnreturnedArms, Clone;
    var r := Eval(p, lim, h, args, locals, e.value);
    if r.out.Done? {
      TailReturnIsValue(p, lim, r.heap + [r.out.value], args, locals + [|r.heap|], e.body);
    }
  }

  lemma {:induction false} IfUnreturns(p: Program, lim: Limits, h: Heap, args: seq<Cell>, locals: seq<Cell>, e: Expr)
    requires e.If?
    ensures AtBoundary(Eval(p, lim, h, args, locals, Unreturned(e))) == AtBoundary(Eval(p, lim, h, args, locals, e))
    decreases e, 0
  {
    hide PlaceOf, EvalAll, EvalCells, FoldSteps, LoopSteps, EvalSymbol, IntArms, EnumArm, BoolArm, UnreturnedArms, Clone;
    var r := Eval(p, lim, h, args, locals, e.cond);
    TailReturnIsValue(p, lim, r.heap, args, locals, e.thenExpr);
    TailReturnIsValue(p, lim, r.heap, args, locals, e.elseExpr);
  }

  lemma {:induction false} CaseUnreturns(p: Program, lim: Limits, h: Heap, args: seq<Cell>, locals: seq<Cell>, e: Expr)
    requires e.Case?
    ensures AtBoundary(Eval(p, lim, h, args, locals, Unreturned(e))) == AtBoundary(Eval(p, lim, h, args, locals, e))
    decreases e, 0
  {
    hide PlaceOf, EvalAll, EvalCells, FoldSteps, LoopSteps, EvalSymbol, IntArms, EnumArm, BoolArm, UnreturnedArms, Clone;
    var r := Eval(p, lim, h, args, locals, e.scrutinee);
    if r.out.Done? {
      match r.out.value
      case EnumOf(_, _) =>
        var h2 := r.heap + [r.out.value];
        EnumArmKept(h2, e.arms, |r.heap|);
        match EnumArm(h2, e.arms, |r.heap|) {
          case None =>
          case Some((i, leaf)) =>
            ArmKept(e.arms, i);
            TailReturnIsValue(p, lim, h2, args, if leaf.Some? then locals + [leaf.value] else locals, e.arms[i].body);
        }
      case Int(n) => IntArmsUnreturn(p, lim, r.heap, args, locals, e.arms, n);
      case Flag(b) =>
        BoolArmKept(e.arms, b);
        var arm := BoolArm(e.arms, b);
        if arm.Some? {
          ArmKept(e.arms, arm.value);
          TailReturnIsValue(p, lim, r.heap, args, locals, e.arms[arm.value].body);
        }
      case _ =>
    }
  }

  lemma {:induction false} ArmKept(arms: seq<Arm>, i: nat)
    requires i < |arms|
    ensures UnreturnedArms(arms)[i] == Arm(arms[i].test, arms[i].guard, Unreturned(arms[i].body))
    decreases i
  {
    if i > 0 {
      ArmKept(arms[1..], i - 1);
    }
  }

  lemma {:induction false} EnumArmKept(h: Heap, arms: seq<Arm>, c: Cell)
    ensures EnumArm(h, UnreturnedArms(arms), c) == EnumArm(h, arms, c)
    decreases |arms|
  {
    hide Unreturned;
    if arms != [] {
      assert UnreturnedArms(arms)[1..] == UnreturnedArms(arms[1..]);
      EnumArmKept(h, arms[1..], c);
    }
  }

  lemma {:induction false} FindArmKept(arms: seq<Arm>, test: ArmTest)
    ensures FindArm(UnreturnedArms(arms), test) == FindArm(arms, test)
    decreases |arms|
  {
    hide Unreturned;
    if arms != [] {
      assert UnreturnedArms(arms)[1..] == UnreturnedArms(arms[1..]);
      FindArmKept(arms[1..], test);
    }
  }

  lemma BoolArmKept(arms: seq<Arm>, b: bool)
    ensures BoolArm(UnreturnedArms(arms), b) == BoolArm(arms, b)
  {
    FindArmKept(arms, BoolIs(b));
    FindArmKept(arms, Always);
  }

  lemma {:induction false} IntArmsUnreturn(p: Program, lim: Limits, h: Heap, args: seq<Cell>, locals: seq<Cell>, arms: seq<Arm>, n: int)
    ensures AtBoundary(IntArms(p, lim, h, args, locals, UnreturnedArms(arms), n)) == AtBoundary(IntArms(p, lim, h, args, locals, arms, n))
    decreases arms, 0
  {
    hide Eval, Unreturned;
    if arms != [] {
      assert UnreturnedArms(arms)[1..] == UnreturnedArms(arms[1..]);
      var g := GuardOf(p, lim, h, args, locals, arms[0]);
      IntArmsUnreturn(p, lim, h, args, locals, arms[1..], n);
      IntArmsUnreturn(p, lim, g.heap, args, locals, arms[1..], n);
      ArmUnreturns(p, lim, g.heap, args, locals, arms[0]);
    }
  }

  lemma {:induction false} ArmUnreturns(p: Program, lim: Limits, h: Heap, args: seq<Cell>, locals: seq<Cell>, arm: Arm)
    ensures AtBoundary(ArmBody(p, lim, h, args, locals, UnreturnedArm(arm))) == AtBoundary(ArmBody(p, lim, h, args, locals, arm))
    decreases arm, 0
  {
    hide Eval, Unreturned;
    TailReturnIsValue(p, lim, h, args, locals, arm.body);
  }
}
