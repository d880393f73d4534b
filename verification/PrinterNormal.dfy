/** Trees that print alike. `|` and `=` share the lowest precedence, so an
    assignment on the left of a `|` prints as an assignment of the `|`; moving
    every such `|` into the assigned value gives the tree that parses back. */
module PrinterNormal {
  import opened Wrappers
  import opened Syntax
  import opened Grammar
  import opened PrinterTheorem

  /** `l | r` with the `|` moved to the end of the assignments `l` starts with. */
  function Rotate(l: Expr, r: Expr): Expr
    decreases l
  {
    if l.Assign? then Assign(l.target, Rotate(l.newValue, r)) else Binary(BitOr, l, r)
  }

  function Norm(e: Expr): Expr
    decreases e, 0
  {
    match e
    case LitInt(_) => e
    case LitBool(_) => e
    case LitText(_) => e
    case LitBytes(_) => e
    case Unit => e
    case Name(_) => e
    case Call(path, args) => Call(path, NormAll(args))
    case Binary(op, left, right) => if op == BitOr then Rotate(Norm(left), Norm(right)) else Binary(op, Norm(left), Norm(right))
    case Unary(unop, operand) => Unary(unop, Norm(operand))
    case Borrow(region, mutable, referent) => Borrow(region, mutable, Norm(referent))
    case Assign(target, newValue) => Assign(Norm(target), Norm(newValue))
    case LetIn(name, ty, bound, body) => LetIn(name, ty, Norm(bound), Norm(body))
    case IfElse(cond, thenExpr, elseExpr) => IfElse(Norm(cond), Norm(thenExpr), Norm(elseExpr))
    case ReturnExpr(result) => ReturnExpr(Norm(result))
    case FoldIn(item, sequence, acc, init, step) => FoldIn(item, Norm(sequence), acc, Norm(init), Norm(step))
    case LoopWhile(acc, init, cond, body) => LoopWhile(acc, Norm(init), Norm(cond), Norm(body))
    case Array(elements) => Array(NormAll(elements))
    case ArrayFill(fill, count) => ArrayFill(Norm(fill), count)
    case Index(base, index) => Index(Norm(base), Norm(index))
    case Record(fields) => Record(NormFields(fields))
    case Field(owner, field) => Field(Norm(owner), field)
    case Construct(path, variant, payload) => Construct(path, variant, Norm(payload))
    case CaseOf(scrutinee, arms) => CaseOf(Norm(scrutinee), NormArms(arms))
  }

  function NormAll(items: seq<Expr>): (r: seq<Expr>)
    ensures |r| == |items|
    decreases items, 0
  {
    if items == [] then [] else [Norm(items[0])] + NormAll(items[1..])
  }

  function NormFields(fields: seq<FieldInit>): (r: seq<FieldInit>)
    ensures |r| == |fields|
    decreases fields, 0
  {
    if fields == [] then [] else [NormField(fields[0])] + NormFields(fields[1..])
  }

  function NormField(field: FieldInit): FieldInit
    decreases field, 0
  {
    FieldInit(field.fieldName, Norm(field.value))
  }

  function NormArms(arms: seq<Arm>): (r: seq<Arm>)
    ensures |r| == |arms|
    decreases arms, 0
  {
    if arms == [] then [] else [NormArm(arms[0])] + NormArms(arms[1..])
  }

  function NormArm(arm: Arm): Arm
    decreases arm, 0
  {
    Arm(arm.pattern, match arm.guard case None => None case Some(g) => Some(Norm(g)), Norm(arm.armBody))
  }

  // ---------------------------------------------------------------- rotating keeps the print

  lemma {:induction false} RotatePrints(l: Expr, r: Expr)
    ensures PrintBare(Rotate(l, r)) == PrintBare(Binary(BitOr, l, r))
    ensures forall p :: Wrapped(Rotate(l, r), p) == Wrapped(Binary(BitOr, l, r), p)
    decreases l
  {
    hide Print, OpTokens;
    if l.Assign? {
      RotatePrints(l.newValue, r);
      PrimaryShape(l, 1);
      PrimaryShape(Rotate(l.newValue, r), 1);
      var a, b, c := Print(l.target, 2), Print(l.newValue, 1), OpTokens(BitOr) + Print(r, 2);
      assert (a + (Sym(Equals) + b)) + c == a + (Sym(Equals) + (b + c));
    }
  }

  lemma {:induction false} RotateExposes(l: Expr, r: Expr, inArm: bool)
    ensures ExposesBare(Rotate(l, r), inArm) == ExposesBare(Binary(BitOr, l, r), inArm)
    decreases l
  {
    hide Exposes;
    if l.Assign? {
      RotatePrints(l.newValue, r);
      RotateExposes(l.newValue, r, inArm);
      PrimaryShape(l, 1);
      PrimaryShape(Rotate(l.newValue, r), 1);
    }
  }

  /** Two trees with the same bare print, exposure and wrapping are alike in every context. */
  lemma {:induction false} AlikeEverywhere(e: Expr, f: Expr)
    requires PrintBare(e) == PrintBare(f)
    requires forall b :: ExposesBare(e, b) == ExposesBare(f, b)
    requires forall p :: Wrapped(e, p) == Wrapped(f, p)
    ensures Alike(e, f)
  {
    hide PrintBare, ExposesBare, Wrapped, Print, Exposes;
    assert ExposesBare(e, true) == ExposesBare(f, true) && ExposesBare(e, false) == ExposesBare(f, false);
    forall p: nat
      ensures Print(e, p) == Print(f, p)
    {
      SamePrint(e, f, p);
    }
    forall p: nat, b: bool
      ensures Exposes(e, p, b) == Exposes(f, p, b)
    {
      SameExposure(e, f, p, b);
    }
  }

  lemma {:induction false} SamePrint(e: Expr, f: Expr, p: nat)
    requires PrintBare(e) == PrintBare(f) && Wrapped(e, p) == Wrapped(f, p)
    ensures Print(e, p) == Print(f, p)
  {
    hide PrintBare, Wrapped;
  }

  lemma {:induction false} SameExposure(e: Expr, f: Expr, p: nat, b: bool)
    requires Wrapped(e, p) == Wrapped(f, p)
    requires ExposesBare(e, true) == ExposesBare(f, true) && ExposesBare(e, false) == ExposesBare(f, false)
    ensures Exposes(e, p, b) == Exposes(f, p, b)
  {
    hide ExposesBare, Wrapped;
  }

  /** Nothing the parser sees tells the trees apart. */
  ghost predicate Alike(e: Expr, f: Expr) {
    && (forall p :: Print(e, p) == Print(f, p))
    && (forall p, b :: Exposes(e, p, b) == Exposes(f, p, b))
  }

  predicate SameSeparators(items: seq<Expr>, others: seq<Expr>) {
    PrintItems(items) == PrintItems(others) && AnyExposes(items) == AnyExposes(others)
  }

  // ---------------------------------------------------------------- normalizing keeps the print

  lemma {:induction false} NormIsAlike(e: Expr)
    ensures Alike(Norm(e), e)
    decreases e, 2
  {
    hide Norm, PrintBare, ExposesBare, Wrapped;
    if e.Binary? && e.op == BitOr {
      BarIsAlike(e);
    } else {
      OtherIsAlike(e);
    }
  }

  lemma {:induction false} BarIsAlike(e: Expr)
    requires e.Binary? && e.op == BitOr
    ensures Alike(Norm(e), e)
    decreases e, 1
  {
    hide Print, Exposes, OpTokens, Rotate;
    NormIsAlike(e.left);
    NormIsAlike(e.right);
    var l, r := Norm(e.left), Norm(e.right);
    RotatePrints(l, r);
    forall b
      ensures ExposesBare(Norm(e), b) == ExposesBare(e, b)
    {
      RotateExposes(l, r, b);
    }
    AlikeEverywhere(Norm(e), e);
  }

  lemma {:induction false} OtherIsAlike(e: Expr)
    requires !(e.Binary? && e.op == BitOr)
    ensures Alike(Norm(e), e)
    decreases e, 1
  {
    SameShape(e);
    if e.LetIn? || e.IfElse? || e.ReturnExpr? || e.FoldIn? || e.LoopWhile? || e.CaseOf? {
      StatementIsAlike(e);
    } else if e.Binary? || e.Unary? || e.Borrow? || e.Assign? || e.Index? || e.Field? {
      OperatorIsAlike(e);
    } else {
      PrimaryIsAlike(e);
    }
    hide Norm, PrintBare, ExposesBare, Wrapped;
    AlikeEverywhere(Norm(e), e);
  }

  lemma {:induction false} SameShape(e: Expr)
    requires !(e.Binary? && e.op == BitOr)
    ensures forall p :: Wrapped(Norm(e), p) == Wrapped(e, p)
  {
    hide Rotate;
  }

  lemma {:induction false} StatementIsAlike(e: Expr)
    requires e.LetIn? || e.IfElse? || e.ReturnExpr? || e.FoldIn? || e.LoopWhile? || e.CaseOf?
    ensures PrintBare(Norm(e)) == PrintBare(e) && forall b :: ExposesBare(Norm(e), b) == ExposesBare(e, b)
    decreases e, 0
  {
    hide Print, Exposes, PrintArms, AnyArmExposes, Rotate;
    match e
    case LetIn(_, _, bound, body) => NormIsAlike(bound); NormIsAlike(body);
    case IfElse(cond, thenExpr, elseExpr) => NormIsAlike(cond); NormIsAlike(thenExpr); NormIsAlike(elseExpr);
    case ReturnExpr(result) => NormIsAlike(result);
    case FoldIn(_, sequence, _, init, step) => NormIsAlike(sequence); NormIsAlike(init); NormIsAlike(step);
    case LoopWhile(_, init, cond, body) => NormIsAlike(init); NormIsAlike(cond); NormIsAlike(body);
    case CaseOf(scrutinee, arms) => NormIsAlike(scrutinee); ArmsAreAlike(arms);
  }

  lemma {:induction false} OperatorIsAlike(e: Expr)
    requires (e.Binary? && e.op != BitOr) || e.Unary? || e.Borrow? || e.Assign? || e.Index? || e.Field?
    ensures PrintBare(Norm(e)) == PrintBare(e) && forall b :: ExposesBare(Norm(e), b) == ExposesBare(e, b)
    decreases e, 0
  {
    hide Print, Exposes, OpTokens, Rotate, PrintRegion;
    match e
    case Binary(_, left, right) => NormIsAlike(left); NormIsAlike(right);
    case Unary(_, operand) => NormIsAlike(operand);
    case Borrow(_, _, referent) => NormIsAlike(referent);
    case Assign(target, newValue) => NormIsAlike(target); NormIsAlike(newValue);
    case Index(base, index) => NormIsAlike(base); NormIsAlike(index);
    case Field(owner, _) => NormIsAlike(owner);
  }

  lemma {:induction false} PrimaryIsAlike(e: Expr)
    requires !Statement(e) && !e.Binary? && !e.Unary? && !e.Borrow? && !e.Assign? && !e.Index? && !e.Field?
    ensures PrintBare(Norm(e)) == PrintBare(e) && forall b :: ExposesBare(Norm(e), b) == ExposesBare(e, b)
    decreases e, 0
  {
    hide Print, Exposes, PrintItems, AnyExposes, PrintFields, AnyFieldExposes, PrintPath, Rotate;
    match e
    case Call(_, args) => ItemsAreAlike(args);
    case Array(elements) => ItemsAreAlike(elements);
    case ArrayFill(fill, _) => NormIsAlike(fill);
    case Record(fields) => FieldsAreAlike(fields);
    case Construct(_, _, payload) => NormIsAlike(payload); UnitStays(payload);
    case _ =>
  }

  lemma {:induction false} UnitStays(e: Expr)
    ensures Norm(e) == Unit <==> e == Unit
  {
    hide NormAll, NormFields, NormArms;
  }

  lemma {:induction false} ItemsAreAlike(items: seq<Expr>)
    ensures SameSeparators(NormAll(items), items)
    decreases items, 0
  {
    hide Print, Exposes, Norm;
    if items != [] {
      NormIsAlike(items[0]);
      ItemsAreAlike(items[1..]);
      var normal := NormAll(items);
      assert normal[0] == Norm(items[0]) && normal[1..] == NormAll(items[1..]);
      assert Print(normal[0], 0) == Print(items[0], 0) && Exposes(normal[0], 0, false) == Exposes(items[0], 0, false);
    }
  }

  lemma {:induction false} FieldsAreAlike(fields: seq<FieldInit>)
    ensures PrintFields(NormFields(fields)) == PrintFields(fields) && AnyFieldExposes(NormFields(fields)) == AnyFieldExposes(fields)
    decreases fields, 0
  {
    hide Norm, PrintField, FieldExposes, NormField;
    if fields != [] {
      FieldIsAlike(fields[0]);
      FieldsAreAlike(fields[1..]);
      assert NormFields(fields)[1..] == NormFields(fields[1..]);
    }
  }

  lemma {:induction false} FieldIsAlike(field: FieldInit)
    ensures PrintField(NormField(field)) == PrintField(field) && FieldExposes(NormField(field)) == FieldExposes(field)
    decreases field, 0
  {
    hide Norm, Print, Exposes;
    NormIsAlike(field.value);
  }

  lemma {:induction false} ArmsAreAlike(arms: seq<Arm>)
    ensures PrintArms(NormArms(arms)) == PrintArms(arms) && forall b :: AnyArmExposes(NormArms(arms), b) == AnyArmExposes(arms, b)
    decreases arms, 0
  {
    hide Norm, PrintArm, ArmExposes, NormArm;
    if arms != [] {
      ArmIsAlike(arms[0]);
      ArmsAreAlike(arms[1..]);
      assert NormArms(arms)[1..] == NormArms(arms[1..]);
    }
  }

  lemma {:induction false} ArmIsAlike(arm: Arm)
    ensures PrintArm(NormArm(arm)) == PrintArm(arm) && forall b :: ArmExposes(NormArm(arm), b) == ArmExposes(arm, b)
    decreases arm, 0
  {
    hide Norm, Print, Exposes, PrintArmPattern;
    if arm.guard.Some? {
      NormIsAlike(arm.guard.value);
    }
    NormIsAlike(arm.armBody);
  }

  // ---------------------------------------------------------------- normal trees

  lemma {:induction false} RotateIsWellFormed(l: Expr, r: Expr)
    requires WellFormed(l) && WellFormed(r)
    ensures WellFormed(Rotate(l, r)) && !Rotate(l, r).Borrow? && Rotate(l, r) != Unit
    decreases l
  {
    if l.Assign? {
      RotateIsWellFormed(l.newValue, r);
    }
  }

  lemma {:induction false} NormIsWellFormed(e: Expr)
    requires WellFormed(e, false)
    ensures WellFormed(Norm(e)) && (Norm(e).Borrow? <==> e.Borrow?)
    decreases e, 2
  {
    if e.Binary? {
      hide Rotate;
      NormIsWellFormed(e.left);
      NormIsWellFormed(e.right);
      RotateIsWellFormed(Norm(e.left), Norm(e.right));
    } else if Statement(e) {
      StatementIsWellFormed(e);
    } else {
      OtherIsWellFormed(e);
    }
  }

  lemma {:induction false} StatementIsWellFormed(e: Expr)
    requires WellFormed(e, false) && Statement(e)
    ensures WellFormed(Norm(e)) && !Norm(e).Borrow?
    decreases e, 1
  {
    hide Rotate, AllWellFormed, FieldsWellFormed, ArmsWellFormed, NormAll, NormFields, NormArms;
    match e
    case LetIn(_, _, bound, body) => NormIsWellFormed(bound); NormIsWellFormed(body);
    case IfElse(cond, thenExpr, elseExpr) => NormIsWellFormed(cond); NormIsWellFormed(thenExpr); NormIsWellFormed(elseExpr);
    case ReturnExpr(result) => NormIsWellFormed(result);
    case FoldIn(_, sequence, _, init, step) => NormIsWellFormed(sequence); NormIsWellFormed(init); NormIsWellFormed(step);
    case LoopWhile(_, init, cond, body) => NormIsWellFormed(init); NormIsWellFormed(cond); NormIsWellFormed(body);
    case CaseOf(scrutinee, arms) => NormIsWellFormed(scrutinee); ArmsAreWellFormed(arms);
  }

  lemma {:induction false} OtherIsWellFormed(e: Expr)
    requires WellFormed(e, false) && !Statement(e) && !e.Binary?
    ensures WellFormed(Norm(e)) && (Norm(e).Borrow? <==> e.Borrow?)
    decreases e, 1
  {
    hide Rotate, AllWellFormed, FieldsWellFormed, ArmsWellFormed, NormAll, NormFields, NormArms;
    match e
    case Call(_, args) => ItemsAreWellFormed(args);
    case Unary(_, operand) => NormIsWellFormed(operand);
    case Borrow(_, _, referent) => NormIsWellFormed(referent);
    case Assign(target, newValue) => NormIsWellFormed(target); NormIsWellFormed(newValue);
    case Array(elements) => ItemsAreWellFormed(elements);
    case ArrayFill(fill, _) => NormIsWellFormed(fill);
    case Index(base, index) => NormIsWellFormed(base); NormIsWellFormed(index);
    case Record(fields) => FieldsAreWellFormed(fields);
    case Field(owner, _) => NormIsWellFormed(owner);
    case Construct(_, _, payload) => NormIsWellFormed(payload);
    case _ =>
  }

  lemma {:induction false} ItemsAreWellFormed(items: seq<Expr>)
    requires AllWellFormed(items, false)
    ensures AllWellFormed(NormAll(items))
    decreases items, 0
  {
    hide WellFormed, Norm;
    if items != [] {
      NormIsWellFormed(items[0]);
      ItemsAreWellFormed(items[1..]);
      assert NormAll(items)[1..] == NormAll(items[1..]);
    }
  }

  lemma {:induction false} FieldsAreWellFormed(fields: seq<FieldInit>)
    requires FieldsWellFormed(fields, false)
    ensures FieldsWellFormed(NormFields(fields))
    decreases fields, 0
  {
    hide FieldWellFormed, NormField;
    if fields != [] {
      OneFieldIsWellFormed(fields[0]);
      FieldsAreWellFormed(fields[1..]);
      assert NormFields(fields)[1..] == NormFields(fields[1..]);
    }
  }

  lemma {:induction false} OneFieldIsWellFormed(field: FieldInit)
    requires FieldWellFormed(field, false)
    ensures FieldWellFormed(NormField(field))
    decreases field, 0
  {
    hide WellFormed, Norm;
    FieldValue(field, false);
    NormIsWellFormed(field.value);
  }

  lemma {:induction false} FieldValue(field: FieldInit, strict: bool)
    ensures FieldWellFormed(field, strict) == WellFormed(field.value, strict)
  {
    hide WellFormed;
  }

  lemma {:induction false} ArmsAreWellFormed(arms: seq<Arm>)
    requires ArmsWellFormed(arms, false)
    ensures ArmsWellFormed(NormArms(arms))
    decreases arms, 0
  {
    hide ArmWellFormed;
    if arms != [] {
      OneArmIsWellFormed(arms[0]);
      ArmsAreWellFormed(arms[1..]);
      assert NormArms(arms)[1..] == NormArms(arms[1..]);
      assert NormArm(arms[0]).pattern == arms[0].pattern && NormArm(arms[0]).guard.None? == arms[0].guard.None?;
    }
  }

  lemma {:induction false} OneArmIsWellFormed(arm: Arm)
    requires ArmWellFormed(arm, false)
    ensures ArmWellFormed(NormArm(arm))
    decreases arm, 0
  {
    hide WellFormed, Norm, WellFormedArmPattern;
    if arm.guard.Some? {
      NormIsWellFormed(arm.guard.value);
    }
    NormIsWellFormed(arm.armBody);
  }

  /** A tree without an assignment left of a `|` is already normal. */
  lemma {:induction false} StrictIsNormal(e: Expr)
    requires WellFormed(e)
    ensures Norm(e) == e
    decreases e, 0
  {
    hide AllWellFormed, FieldsWellFormed, ArmsWellFormed, NormAll, NormFields, NormArms;
    match e
    case Call(_, args) => StrictItemsAreNormal(args);
    case Binary(op, left, right) => StrictIsNormal(left); StrictIsNormal(right);
    case Unary(_, operand) => StrictIsNormal(operand);
    case Borrow(_, _, referent) => StrictIsNormal(referent);
    case Assign(target, newValue) => StrictIsNormal(target); StrictIsNormal(newValue);
    case LetIn(_, _, bound, body) => StrictIsNormal(bound); StrictIsNormal(body);
    case IfElse(cond, thenExpr, elseExpr) => StrictIsNormal(cond); StrictIsNormal(thenExpr); StrictIsNormal(elseExpr);
    case ReturnExpr(result) => StrictIsNormal(result);
    case FoldIn(_, sequence, _, init, step) => StrictIsNormal(sequence); StrictIsNormal(init); StrictIsNormal(step);
    case LoopWhile(_, init, cond, body) => StrictIsNormal(init); StrictIsNormal(cond); StrictIsNormal(body);
    case Array(elements) => StrictItemsAreNormal(elements);
    case ArrayFill(fill, _) => StrictIsNormal(fill);
    case Index(base, index) => StrictIsNormal(base); StrictIsNormal(index);
    case Record(fields) => StrictFieldsAreNormal(fields);
    case Field(owner, _) => StrictIsNormal(owner);
    case Construct(_, _, payload) => StrictIsNormal(payload);
    case CaseOf(scrutinee, arms) => StrictIsNormal(scrutinee); StrictArmsAreNormal(arms);
    case _ =>
  }

  lemma {:induction false} StrictItemsAreNormal(items: seq<Expr>)
    requires AllWellFormed(items)
    ensures NormAll(items) == items
    decreases items, 0
  {
    hide WellFormed, Norm;
    if items != [] {
      StrictIsNormal(items[0]);
      StrictItemsAreNormal(items[1..]);
    }
  }

  lemma {:induction false} StrictFieldsAreNormal(fields: seq<FieldInit>)
    requires FieldsWellFormed(fields)
    ensures NormFields(fields) == fields
    decreases fields, 0
  {
    hide Norm, FieldWellFormed, NormField;
    if fields != [] {
      StrictFieldIsNormal(fields[0]);
      StrictFieldsAreNormal(fields[1..]);
    }
  }

  lemma {:induction false} StrictFieldIsNormal(field: FieldInit)
    requires FieldWellFormed(field)
    ensures NormField(field) == field
    decreases field, 0
  {
    hide WellFormed, Norm;
    FieldValue(field, true);
    StrictIsNormal(field.value);
  }

  lemma {:induction false} StrictArmsAreNormal(arms: seq<Arm>)
    requires ArmsWellFormed(arms)
    ensures NormArms(arms) == arms
    decreases arms, 0
  {
    hide Norm, ArmWellFormed, NormArm;
    if arms != [] {
      StrictArmIsNormal(arms[0]);
      StrictArmsAreNormal(arms[1..]);
    }
  }

  lemma {:induction false} StrictArmIsNormal(arm: Arm)
    requires ArmWellFormed(arm)
    ensures NormArm(arm) == arm
    decreases arm, 0
  {
    hide WellFormed, Norm, WellFormedArmPattern;
    if arm.guard.Some? {
      StrictIsNormal(arm.guard.value);
    }
    StrictIsNormal(arm.armBody);
  }

  /** A tree is its own normal form exactly when no assignment stands left of a `|`. */
  lemma {:induction false} NormalExactlyWhenStrict(e: Expr)
    requires WellFormed(e, false)
    ensures Norm(e) == e <==> WellFormed(e)
  {
    hide Norm, WellFormed;
    NormIsWellFormed(e);
    if WellFormed(e) {
      StrictIsNormal(e);
    }
  }

  // ---------------------------------------------------------------- main results

  /** Every tree, at every precedence the printer uses: the parser reads its
      normal form, or refuses it when a separator is exposed. */
  lemma {:induction false} EveryPrintParses(e: Expr, p: nat)
    requires WellFormed(e, false) && p <= FIELD_PREC
    ensures ParseSource(Print(e, p)) == if Exposes(e, p, false) then None else Some(Norm(e))
  {
    hide Norm, WellFormed, Print, Exposes, ParseSource;
    NormIsWellFormed(e);
    NormIsAlike(e);
    PrintThenParse(Norm(e), p);
  }

  /** A tree comes back exactly when it has no assignment left of a `|` and
      exposes no separator. */
  lemma {:induction false} ComesBackExactly(e: Expr, p: nat)
    requires WellFormed(e, false) && p <= FIELD_PREC
    ensures ParseSource(Print(e, p)) == Some(e) <==> WellFormed(e) && !Exposes(e, p, false)
  {
    hide Norm, WellFormed, Print, Exposes, ParseSource;
    EveryPrintParses(e, p);
    NormalExactlyWhenStrict(e);
  }

  /** `(a = b) | c` reads back as `a = b | c`, whatever `b` is, and never as itself. */
  lemma {:induction false} AssignmentLeftOfBar(a: Expr, b: Expr, c: Expr, p: nat)
    requires p <= FIELD_PREC && WellFormed(a, false) && WellFormed(b, false) && WellFormed(c, false)
    ensures var e := Binary(BitOr, Assign(a, b), c);
            && ParseSource(Print(e, p)) != Some(e)
            && (!Exposes(e, p, false) ==> ParseSource(Print(e, p)) == Some(Assign(Norm(a), Rotate(Norm(b), Norm(c)))))
  {
    var e := Binary(BitOr, Assign(a, b), c);
    LooseBar(a, b, c);
    hide ParseSource, Print, Exposes, WellFormed, Norm;
    EveryPrintParses(e, p);
    ComesBackExactly(e, p);
  }

  lemma {:induction false} LooseBar(a: Expr, b: Expr, c: Expr)
    requires WellFormed(a, false) && WellFormed(b, false) && WellFormed(c, false)
    ensures var e := Binary(BitOr, Assign(a, b), c);
            && WellFormed(e, false) && !WellFormed(e) && Norm(e) == Assign(Norm(a), Rotate(Norm(b), Norm(c)))
  {
    hide AllWellFormed, FieldsWellFormed, ArmsWellFormed, NormAll, NormFields, NormArms;
  }
}
