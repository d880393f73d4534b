/** The induction over expressions, one lemma per parser level. Every level
    states both halves at once: what is read when nothing is exposed, and that
    reading goes wrong when something is. */
module PrinterTheorem {
  import opened Wrappers
  import opened Syntax
  import opened Grammar
  import opened PrinterRoundTrip

  /** Result of reading the complete expression `e` that ends at `end`. */
  predicate ReadsFull(ts: seq<Token>, r: Parsed<Expr>, e: Expr, end: nat, p: nat, inArm: bool) {
    if Exposes(e, p, inArm) then Fails(ts, r, p, inArm) else r == Some((e, end))
  }

  predicate ReadsExactly(r: Parsed<Expr>, e: Expr, end: nat, exposed: bool) {
    if exposed then r == None else r == Some((e, end))
  }

  function End(i: nat, e: Expr, p: nat): nat { i + |Print(e, p)| }

  // ---------------------------------------------------------------- shapes

  lemma {:induction false} IfShape(e: Expr)
    requires WellFormed(e) && e.IfElse?
    ensures Print(e, 0) == Kw(If) + (Print(e.cond, 0) + (Kw(Then) + (Print(e.thenExpr, 0) + (Kw(Else) + Print(e.elseExpr, 0)))))
    ensures WellFormed(e.cond) && WellFormed(e.thenExpr) && WellFormed(e.elseExpr)
    ensures forall b :: Exposes(e, 0, b) == (Exposes(e.cond, 0, b) || Exposes(e.thenExpr, 0, b) || Exposes(e.elseExpr, 0, b))
    ensures forall ts, i: nat, b :: IsWord(ts, i, If) ==> ParseExpr(ts, i, b) == ParseIf(ts, i, b)
  {
    hide ParseIf;
  }

  lemma {:induction false} LetShape(e: Expr)
    requires WellFormed(e) && e.LetIn?
    ensures Print(e, 0) == Kw(Let) + (Kw(e.name) + (Sym(Colon) + (Kw(e.ty) + (Sym(Equals)
                           + (Print(e.bound, 0) + (Kw(In) + Print(e.body, 0)))))))
    ensures WellFormed(e.bound) && WellFormed(e.body)
    ensures forall b :: Exposes(e, 0, b) == (Exposes(e.bound, 0, b) || Exposes(e.body, 0, b))
    ensures forall ts, i: nat, b :: IsWord(ts, i, Let) ==> ParseExpr(ts, i, b) == ParseLet(ts, i, b)
  {
    hide ParseLet;
  }

  lemma {:induction false} ReturnShape(e: Expr)
    requires WellFormed(e) && e.ReturnExpr?
    ensures Print(e, 0) == Kw(Return) + Print(e.result, 0)
    ensures WellFormed(e.result)
    ensures forall b :: Exposes(e, 0, b) == Exposes(e.result, 0, b)
    ensures forall ts, i: nat, b :: IsWord(ts, i, Return) ==> ParseExpr(ts, i, b) == ParseReturn(ts, i, b)
  {
    hide ParseReturn;
  }

  lemma {:induction false} FoldShape(e: Expr)
    requires WellFormed(e) && e.FoldIn?
    ensures Print(e, 0) == Kw(Fold) + (Kw(e.item) + (Kw(In) + (Print(e.sequence, 0) + (Kw(With) + (Kw(e.acc) + (Sym(Equals)
                           + (Print(e.init, 0) + (Kw(Do) + Print(e.step, 0)))))))))
    ensures WellFormed(e.sequence) && WellFormed(e.init) && WellFormed(e.step)
    ensures forall b :: Exposes(e, 0, b) == (Exposes(e.sequence, 0, b) || Exposes(e.init, 0, b) || Exposes(e.step, 0, b))
    ensures forall ts, i: nat, b :: IsWord(ts, i, Fold) ==> ParseExpr(ts, i, b) == ParseFold(ts, i, b)
  {
    hide ParseFold;
  }

  lemma {:induction false} LoopShape(e: Expr)
    requires WellFormed(e) && e.LoopWhile?
    ensures Print(e, 0) == Kw(Loop) + (Kw(e.loopAcc) + (Sym(Equals) + (Print(e.loopInit, 0) + (Kw(While)
                           + (Print(e.loopCond, 0) + (Kw(Do) + Print(e.loopBody, 0)))))))
    ensures WellFormed(e.loopInit) && WellFormed(e.loopCond) && WellFormed(e.loopBody)
    ensures forall b :: Exposes(e, 0, b) == (Exposes(e.loopInit, 0, b) || Exposes(e.loopCond, 0, b) || Exposes(e.loopBody, 0, b))
    ensures forall ts, i: nat, b :: IsWord(ts, i, Loop) ==> ParseExpr(ts, i, b) == ParseLoop(ts, i, b)
  {
    hide ParseLoop;
  }

  lemma {:induction false} CaseShape(e: Expr)
    requires WellFormed(e) && e.CaseOf?
    ensures Print(e, 0) == Kw(Case) + (Print(e.scrutinee, 0) + (Kw(Of) + PrintArms(e.arms)))
    ensures WellFormed(e.scrutinee) && e.arms != [] && ArmsWellFormed(e.arms)
    ensures forall b :: Exposes(e, 0, b) == (Exposes(e.scrutinee, 0, b) || AnyArmExposes(e.arms, b))
    ensures forall ts, i: nat, b :: IsWord(ts, i, Case) ==> ParseExpr(ts, i, b) == ParseCase(ts, i, b)
  {
    hide ParseCase, PrintArms, AnyArmExposes;
  }

  lemma {:induction false} AssignShape(e: Expr, p: nat)
    requires WellFormed(e) && e.Assign? && p <= ASSIGN_PREC
    ensures Print(e, p) == Print(e.target, ASSIGN_PREC + 1) + (Sym(Equals) + Print(e.newValue, ASSIGN_PREC))
    ensures WellFormed(e.target) && WellFormed(e.newValue)
    ensures forall b :: Exposes(e, p, b) == (Exposes(e.target, ASSIGN_PREC + 1, b) || Exposes(e.newValue, ASSIGN_PREC, b))
  {
  }

  lemma {:induction false} OperatorsShape(ts: seq<Token>, i: nat, inArm: bool)
    requires !StartsStatement(Peek(ts, i))
    ensures ParseExpr(ts, i, inArm) == ParseAssignment(ts, i, inArm)
  {
    hide ParseAssignment;
  }

  lemma {:induction false} BinaryShape(e: Expr, p: nat)
    requires WellFormed(e) && e.Binary? && p <= Prec(e.op)
    ensures Print(e, p) == Print(e.left, Prec(e.op)) + (OpTokens(e.op) + Print(e.right, Prec(e.op) + 1))
    ensures WellFormed(e.left) && WellFormed(e.right) && !(e.op == BitOr && e.left.Assign?)
    ensures forall b :: Exposes(e, p, b) == ((b && e.op == BitOr) || Exposes(e.left, Prec(e.op), b) || Exposes(e.right, Prec(e.op) + 1, b))
    ensures |OpTokens(e.op)| == |OpMarks(e.op)|
    ensures Prec(e.op) == 1 <==> e.op == BitOr
  {
    hide OpTokens;
  }

  lemma {:induction false} UnaryShape(e: Expr, p: nat)
    requires WellFormed(e) && e.Unary? && p <= UNARY_PREC
    ensures Print(e, p) == Sym(UnMark(e.unop)) + Print(e.operand, UNARY_PREC)
    ensures WellFormed(e.operand)
    ensures forall b :: Exposes(e, p, b) == Exposes(e.operand, UNARY_PREC, b)
    ensures !Wrapped(e.operand, UNARY_PREC) ==> !e.operand.Binary? && !e.operand.Assign?
  {
  }

  lemma {:induction false} BorrowShape(e: Expr, p: nat)
    requires WellFormed(e) && e.Borrow? && p <= UNARY_PREC
    ensures Print(e, p) == Sym(Amp) + (PrintRegion(e.region) + ((if e.mutable then Kw(Mut) else []) + Print(e.referent, UNARY_PREC)))
    ensures WellFormed(e.referent)
    ensures forall b :: Exposes(e, p, b) == Exposes(e.referent, UNARY_PREC, b)
    ensures !Wrapped(e.referent, UNARY_PREC) ==> !e.referent.Binary? && !e.referent.Assign?
  {
  }

  lemma {:induction false} IndexShape(e: Expr)
    requires WellFormed(e) && e.Index?
    ensures Print(e, FIELD_PREC) == Print(e.base, FIELD_PREC) + (Sym(LBracket) + (Print(e.index, 0) + Sym(RBracket)))
    ensures WellFormed(e.base) && WellFormed(e.index)
    ensures forall b :: Exposes(e, FIELD_PREC, b) == (Exposes(e.base, FIELD_PREC, b) || Exposes(e.index, 0, b))
  {
  }

  lemma {:induction false} FieldShape(e: Expr)
    requires WellFormed(e) && e.Field?
    ensures Print(e, FIELD_PREC) == Print(e.owner, FIELD_PREC) + (Sym(Dot) + Kw(e.field))
    ensures WellFormed(e.owner)
    ensures forall b :: Exposes(e, FIELD_PREC, b) == Exposes(e.owner, FIELD_PREC, b)
  {
  }

  /** Whether a form is wrapped is all its context decides. */
  lemma {:induction false} SameContext(e: Expr, p: nat, q: nat)
    requires Wrapped(e, p) == Wrapped(e, q)
    ensures Print(e, p) == Print(e, q)
    ensures forall b :: Exposes(e, p, b) == Exposes(e, q, b)
  {
    hide PrintBare, ExposesBare;
  }

  lemma {:induction false} WrappedShape(e: Expr, p: nat)
    requires Wrapped(e, p)
    ensures Print(e, p) == Sym(LParen) + (Print(e, 0) + Sym(RParen))
    ensures forall b :: Exposes(e, p, b) == Exposes(e, 0, false)
    ensures !Wrapped(e, 0)
  {
    hide PrintBare, ExposesBare;
  }

  lemma {:induction false} PrimaryShape(e: Expr, p: nat)
    requires !Wrapped(e, p)
    ensures Print(e, p) == PrintBare(e)
    ensures forall b :: Exposes(e, p, b) == ExposesBare(e, b)
  {
    hide PrintBare, ExposesBare;
  }

  // ---------------------------------------------------------------- complete expressions

  lemma {:induction false} FullParses(e: Expr, p: nat, ts: seq<Token>, i: nat, inArm: bool)
    requires WellFormed(e) && p <= 2 && At(ts, i, Print(e, p))
    requires Closed(ts, End(i, e, p), p, inArm)
    ensures ReadsFull(ts, ParseExpr(ts, i, inArm), e, End(i, e, p), p, inArm)
    decreases e, if Wrapped(e, p) then 1 else 0, 6
  {
    hide ParseExpr, Print, Exposes, WellFormed, ExposesBare, PrintBare;
    if p == 0 && Statement(e) {
      StatementParses(e, ts, i, inArm);
    } else if e.Assign? && p <= ASSIGN_PREC {
      AssignParses(e, p, ts, i, inArm);
    } else {
      OperatorsParse(e, p, ts, i, inArm);
    }
  }

  /** Tokens that end a sub-expression. */
  predicate Closer(t: Token) {
    match t
    case Ident(_) => true
    case Eof => true
    case Symbol(m) => m == RParen || m == RBracket || m == RBrace || m == Comma || m == Semicolon || m == Arrow
    case _ => false
  }

  /** A sub-expression followed by the token its context expects. */
  lemma {:induction false} SubParses(e: Expr, p: nat, ts: seq<Token>, i: nat, inArm: bool)
    requires WellFormed(e) && p <= 1 && At(ts, i, Print(e, p)) && Closer(Peek(ts, End(i, e, p)))
    ensures var r := ParseExpr(ts, i, inArm);
            if Exposes(e, p, inArm) then r.None? || IsMark(ts, r.value.1, Bar) else r == Some((e, End(i, e, p)))
    ensures !inArm ==> var r := ParseExpr(ts, i, inArm);
            if Exposes(e, p, inArm) then r.None? else r == Some((e, End(i, e, p)))
    decreases e, if Wrapped(e, p) then 1 else 0, 7
  {
    hide ParseExpr, Print, PrintBare, Exposes, ExposesBare, WellFormed, At;
    FullParses(e, p, ts, i, inArm);
  }

  predicate Statement(e: Expr) {
    e.LetIn? || e.IfElse? || e.ReturnExpr? || e.FoldIn? || e.LoopWhile? || e.CaseOf?
  }

  /** The forms that start with a keyword; they print bare only at precedence 0. */
  lemma {:induction false} StatementParses(e: Expr, ts: seq<Token>, i: nat, inArm: bool)
    requires WellFormed(e) && Statement(e) && At(ts, i, Print(e, 0))
    requires Closed(ts, End(i, e, 0), 0, inArm)
    ensures ReadsFull(ts, ParseExpr(ts, i, inArm), e, End(i, e, 0), 0, inArm)
    decreases e, 0, 5
  {
    hide ParseExpr, Print, Exposes, ExposesBare, PrintBare, WellFormed;
    match e
    case LetIn(_, _, _, _) => LetParses(e, ts, i, inArm);
    case IfElse(_, _, _) => IfParses(e, ts, i, inArm);
    case ReturnExpr(_) => ReturnParses(e, ts, i, inArm);
    case FoldIn(_, _, _, _, _) => FoldParses(e, ts, i, inArm);
    case LoopWhile(_, _, _, _) => LoopParses(e, ts, i, inArm);
    case CaseOf(_, _) => CaseParses(e, ts, i, inArm);
  }

  /** The rest of a conditional, from `then` on. */
  function IfFrom(ts: seq<Token>, cond: Expr, i: nat, inArm: bool): Parsed<Expr> {
    var i2 :- Expect(ts, i, Ident(Then));
    var (thenExpr, i3) :- ParseExpr(ts, i2, inArm);
    var i4 :- Expect(ts, i3, Ident(Else));
    var (elseExpr, i5) :- ParseExpr(ts, i4, inArm);
    Some((IfElse(cond, thenExpr, elseExpr), i5))
  }

  lemma {:induction false} IfStep(ts: seq<Token>, i: nat, inArm: bool)
    requires IsWord(ts, i, If)
    ensures i < |ts|
    ensures ParseIf(ts, i, inArm)
            == match ParseExpr(ts, i + 1, inArm)
               case None => None
               case Some((cond, j)) => IfFrom(ts, cond, j, inArm)
  {
    hide ParseExpr;
  }

  lemma {:induction false} IfParses(e: Expr, ts: seq<Token>, i: nat, inArm: bool)
    requires WellFormed(e) && e.IfElse? && At(ts, i, Print(e, 0))
    requires Closed(ts, End(i, e, 0), 0, inArm)
    ensures ReadsFull(ts, ParseExpr(ts, i, inArm), e, End(i, e, 0), 0, inArm)
    decreases e, 0, 4
  {
    hide Closed, Settled, OpAt, ParseExpr, ParseIf, IfFrom, Print, PrintBare, Exposes, ExposesBare, WellFormed, At, Wrapped;
    IfShape(e);
    var a := Print(e.cond, 0);
    var rest := Kw(Then) + (Print(e.thenExpr, 0) + (Kw(Else) + Print(e.elseExpr, 0)));
    AtToken(ts, i, Ident(If), a + rest);
    AtSplit(ts, i + 1, a, rest);
    IfRestParses(e, ts, i + 1 + |a|, inArm);
    SubParses(e.cond, 0, ts, i + 1, inArm);
    IfStep(ts, i, inArm);
    IfAtSeparator(ts, i + 1, inArm);
  }

  lemma {:induction false} IfAtSeparator(ts: seq<Token>, i: nat, inArm: bool)
    ensures var r := ParseExpr(ts, i, inArm);
            r.Some? && IsMark(ts, r.value.1, Bar) ==> IfFrom(ts, r.value.0, r.value.1, inArm) == None
  {
    hide ParseExpr;
  }

  lemma {:induction false} IfRestParses(e: Expr, ts: seq<Token>, i: nat, inArm: bool)
    requires WellFormed(e) && e.IfElse?
    requires At(ts, i, Kw(Then) + (Print(e.thenExpr, 0) + (Kw(Else) + Print(e.elseExpr, 0))))
    requires Closed(ts, i + 2 + |Print(e.thenExpr, 0)| + |Print(e.elseExpr, 0)|, 0, inArm)
    ensures var r := IfFrom(ts, e.cond, i, inArm);
            if Exposes(e.thenExpr, 0, inArm) || Exposes(e.elseExpr, 0, inArm) then Fails(ts, r, 0, inArm)
            else r == Some((e, i + 2 + |Print(e.thenExpr, 0)| + |Print(e.elseExpr, 0)|))
    ensures IsWord(ts, i, Then)
    decreases e, 0, 3
  {
    hide Closed, Settled, OpAt, ParseExpr, Print, PrintBare, Exposes, ExposesBare, WellFormed, At, Wrapped;
    IfShape(e);
    var b, c := Print(e.thenExpr, 0), Print(e.elseExpr, 0);
    AtToken(ts, i, Ident(Then), b + (Kw(Else) + c));
    AtSplit(ts, i + 1, b, Kw(Else) + c);
    var k := i + 1 + |b|;
    AtToken(ts, k, Ident(Else), c);
    SubParses(e.thenExpr, 0, ts, i + 1, inArm);
    FullParses(e.elseExpr, 0, ts, k + 1, inArm);
  }

  lemma {:induction false} LetStep(ts: seq<Token>, i: nat, name: Word, ty: Word, inArm: bool)
    requires IsWord(ts, i, Let) && Peek(ts, i + 1) == Ident(name) && IsMark(ts, i + 2, Colon)
    requires Peek(ts, i + 3) == Ident(ty) && IsMark(ts, i + 4, Equals)
    ensures i < |ts|
    ensures ParseLet(ts, i, inArm)
            == match ParseExpr(ts, i + 5, inArm)
               case None => None
               case Some((bound, j)) =>
                 if !IsWord(ts, j, In) then None
                 else match ParseExpr(ts, j + 1, inArm)
                      case None => None
                      case Some((body, k)) => Some((LetIn(name, ty, bound, body), k))
  {
    hide ParseExpr;
  }

  lemma {:induction false} LetParses(e: Expr, ts: seq<Token>, i: nat, inArm: bool)
    requires WellFormed(e) && e.LetIn? && At(ts, i, Print(e, 0))
    requires Closed(ts, End(i, e, 0), 0, inArm)
    ensures ReadsFull(ts, ParseExpr(ts, i, inArm), e, End(i, e, 0), 0, inArm)
    decreases e, 0, 4
  {
    hide Closed, Settled, OpAt, ParseExpr, ParseLet, Print, PrintBare, Exposes, ExposesBare, WellFormed, At, Wrapped;
    LetShape(e);
    var a, b := Print(e.bound, 0), Print(e.body, 0);
    var rest := a + (Kw(In) + b);
    LetHead(e, ts, i, rest);
    AtSplit(ts, i + 5, a, Kw(In) + b);
    var i1 := i + 5 + |a|;
    AtToken(ts, i1, Ident(In), b);
    SubParses(e.bound, 0, ts, i + 5, inArm);
    FullParses(e.body, 0, ts, i1 + 1, inArm);
    LetStep(ts, i, e.name, e.ty, inArm);
  }

  lemma {:induction false} LetHead(e: Expr, ts: seq<Token>, i: nat, rest: seq<Token>)
    requires e.LetIn? && At(ts, i, Kw(Let) + (Kw(e.name) + (Sym(Colon) + (Kw(e.ty) + (Sym(Equals) + rest)))))
    ensures IsWord(ts, i, Let) && Peek(ts, i + 1) == Ident(e.name) && IsMark(ts, i + 2, Colon)
    ensures Peek(ts, i + 3) == Ident(e.ty) && IsMark(ts, i + 4, Equals) && At(ts, i + 5, rest)
  {
    hide At;
    AtToken(ts, i, Ident(Let), Kw(e.name) + (Sym(Colon) + (Kw(e.ty) + (Sym(Equals) + rest))));
    AtToken(ts, i + 1, Ident(e.name), Sym(Colon) + (Kw(e.ty) + (Sym(Equals) + rest)));
    AtToken(ts, i + 2, Symbol(Colon), Kw(e.ty) + (Sym(Equals) + rest));
    AtToken(ts, i + 3, Ident(e.ty), Sym(Equals) + rest);
    AtToken(ts, i + 4, Symbol(Equals), rest);
  }

  lemma {:induction false} ReturnParses(e: Expr, ts: seq<Token>, i: nat, inArm: bool)
    requires WellFormed(e) && e.ReturnExpr? && At(ts, i, Print(e, 0))
    requires Closed(ts, End(i, e, 0), 0, inArm)
    ensures ReadsFull(ts, ParseExpr(ts, i, inArm), e, End(i, e, 0), 0, inArm)
    decreases e, 0, 4
  {
    hide ParseExpr, Print, PrintBare, Exposes, ExposesBare, WellFormed, At, Wrapped;
    ReturnShape(e);
    AtToken(ts, i, Ident(Return), Print(e.result, 0));
    FullParses(e.result, 0, ts, i + 1, inArm);
  }

  /** The rest of a fold, from `with` on. */
  function FoldFrom(ts: seq<Token>, item: Word, sequence: Expr, i: nat, inArm: bool): Parsed<Expr> {
    var i4 :- Expect(ts, i, Ident(With));
    var (acc, i5) :- ParseWord(ts, i4);
    var i6 :- Expect(ts, i5, Symbol(Equals));
    var (init, i7) :- ParseExpr(ts, i6, inArm);
    var i8 :- Expect(ts, i7, Ident(Do));
    var (step, i9) :- ParseExpr(ts, i8, inArm);
    Some((FoldIn(item, sequence, acc, init, step), i9))
  }

  lemma {:induction false} FoldStep(ts: seq<Token>, i: nat, item: Word, inArm: bool)
    requires IsWord(ts, i, Fold) && Peek(ts, i + 1) == Ident(item) && IsWord(ts, i + 2, In)
    ensures i < |ts|
    ensures ParseFold(ts, i, inArm)
            == match ParseExpr(ts, i + 3, inArm)
               case None => None
               case Some((sequence, j)) => FoldFrom(ts, item, sequence, j, inArm)
  {
    hide ParseExpr;
  }

  lemma {:induction false} FoldParses(e: Expr, ts: seq<Token>, i: nat, inArm: bool)
    requires WellFormed(e) && e.FoldIn? && At(ts, i, Print(e, 0))
    requires Closed(ts, End(i, e, 0), 0, inArm)
    ensures ReadsFull(ts, ParseExpr(ts, i, inArm), e, End(i, e, 0), 0, inArm)
    decreases e, 0, 4
  {
    hide Closed, Settled, OpAt, ParseExpr, ParseFold, FoldFrom, Print, PrintBare, Exposes, ExposesBare, WellFormed, At, Wrapped;
    FoldShape(e);
    var a, b, c := Print(e.sequence, 0), Print(e.init, 0), Print(e.step, 0);
    var rest := Kw(With) + (Kw(e.acc) + (Sym(Equals) + (b + (Kw(Do) + c))));
    AtToken(ts, i, Ident(Fold), Kw(e.item) + (Kw(In) + (a + rest)));
    AtToken(ts, i + 1, Ident(e.item), Kw(In) + (a + rest));
    AtToken(ts, i + 2, Ident(In), a + rest);
    AtSplit(ts, i + 3, a, rest);
    var j := i + 3 + |a|;
    FoldRestParses(e, ts, j, inArm);
    SubParses(e.sequence, 0, ts, i + 3, inArm);
    FoldStep(ts, i, e.item, inArm);
    FoldAtSeparator(ts, e.item, i + 3, inArm);
  }

  /** A separator where `with` should be is an error. */
  lemma {:induction false} FoldAtSeparator(ts: seq<Token>, item: Word, i: nat, inArm: bool)
    ensures var r := ParseExpr(ts, i, inArm);
            r.Some? && IsMark(ts, r.value.1, Bar) ==> FoldFrom(ts, item, r.value.0, r.value.1, inArm) == None
  {
    hide ParseExpr;
  }

  lemma {:induction false} FoldFromStep(ts: seq<Token>, item: Word, sequence: Expr, i: nat, acc: Word, inArm: bool)
    requires IsWord(ts, i, With) && Peek(ts, i + 1) == Ident(acc) && IsMark(ts, i + 2, Equals)
    ensures FoldFrom(ts, item, sequence, i, inArm)
            == match ParseExpr(ts, i + 3, inArm)
               case None => None
               case Some((init, j)) =>
                 if !IsWord(ts, j, Do) then None
                 else match ParseExpr(ts, j + 1, inArm)
                      case None => None
                      case Some((step, k)) => Some((FoldIn(item, sequence, acc, init, step), k))
  {
    hide ParseExpr;
  }

  lemma {:induction false} FoldRestParses(e: Expr, ts: seq<Token>, i: nat, inArm: bool)
    requires WellFormed(e) && e.FoldIn?
    requires At(ts, i, Kw(With) + (Kw(e.acc) + (Sym(Equals) + (Print(e.init, 0) + (Kw(Do) + Print(e.step, 0))))))
    requires Closed(ts, i + 4 + |Print(e.init, 0)| + |Print(e.step, 0)|, 0, inArm)
    ensures var r := FoldFrom(ts, e.item, e.sequence, i, inArm);
            if Exposes(e.init, 0, inArm) || Exposes(e.step, 0, inArm) then Fails(ts, r, 0, inArm)
            else r == Some((e, i + 4 + |Print(e.init, 0)| + |Print(e.step, 0)|))
    ensures IsWord(ts, i, With)
    decreases e, 0, 3
  {
    hide Closed, Settled, OpAt, ParseExpr, FoldFrom, Print, PrintBare, Exposes, ExposesBare, WellFormed, At, Wrapped;
    FoldShape(e);
    var b, c := Print(e.init, 0), Print(e.step, 0);
    AtToken(ts, i, Ident(With), Kw(e.acc) + (Sym(Equals) + (b + (Kw(Do) + c))));
    AtToken(ts, i + 1, Ident(e.acc), Sym(Equals) + (b + (Kw(Do) + c)));
    AtToken(ts, i + 2, Symbol(Equals), b + (Kw(Do) + c));
    FoldFromStep(ts, e.item, e.sequence, i, e.acc, inArm);
    AtSplit(ts, i + 3, b, Kw(Do) + c);
    var k := i + 3 + |b|;
    AtToken(ts, k, Ident(Do), c);
    SubParses(e.init, 0, ts, i + 3, inArm);
    FullParses(e.step, 0, ts, k + 1, inArm);
  }

  /** The rest of a loop, from `while` on. */
  function LoopFrom(ts: seq<Token>, acc: Word, init: Expr, i: nat, inArm: bool): Parsed<Expr> {
    var i4 :- Expect(ts, i, Ident(While));
    var (cond, i5) :- ParseExpr(ts, i4, inArm);
    var i6 :- Expect(ts, i5, Ident(Do));
    var (body, i7) :- ParseExpr(ts, i6, inArm);
    Some((LoopWhile(acc, init, cond, body), i7))
  }

  lemma {:induction false} LoopStep(ts: seq<Token>, i: nat, acc: Word, inArm: bool)
    requires IsWord(ts, i, Loop) && Peek(ts, i + 1) == Ident(acc) && IsMark(ts, i + 2, Equals)
    ensures i < |ts|
    ensures ParseLoop(ts, i, inArm)
            == match ParseExpr(ts, i + 3, inArm)
               case None => None
               case Some((init, j)) => LoopFrom(ts, acc, init, j, inArm)
  {
    hide ParseExpr;
  }

  lemma {:induction false} LoopParses(e: Expr, ts: seq<Token>, i: nat, inArm: bool)
    requires WellFormed(e) && e.LoopWhile? && At(ts, i, Print(e, 0))
    requires Closed(ts, End(i, e, 0), 0, inArm)
    ensures ReadsFull(ts, ParseExpr(ts, i, inArm), e, End(i, e, 0), 0, inArm)
    decreases e, 0, 4
  {
    hide Closed, Settled, OpAt, ParseExpr, ParseLoop, LoopFrom, Print, PrintBare, Exposes, ExposesBare, WellFormed, At, Wrapped;
    LoopShape(e);
    var a, b, c := Print(e.loopInit, 0), Print(e.loopCond, 0), Print(e.loopBody, 0);
    var rest := Kw(While) + (b + (Kw(Do) + c));
    AtToken(ts, i, Ident(Loop), Kw(e.loopAcc) + (Sym(Equals) + (a + rest)));
    AtToken(ts, i + 1, Ident(e.loopAcc), Sym(Equals) + (a + rest));
    AtToken(ts, i + 2, Symbol(Equals), a + rest);
    AtSplit(ts, i + 3, a, rest);
    LoopRestParses(e, ts, i + 3 + |a|, inArm);
    SubParses(e.loopInit, 0, ts, i + 3, inArm);
    LoopStep(ts, i, e.loopAcc, inArm);
    LoopAtSeparator(ts, e.loopAcc, i + 3, inArm);
  }

  lemma {:induction false} LoopAtSeparator(ts: seq<Token>, acc: Word, i: nat, inArm: bool)
    ensures var r := ParseExpr(ts, i, inArm);
            r.Some? && IsMark(ts, r.value.1, Bar) ==> LoopFrom(ts, acc, r.value.0, r.value.1, inArm) == None
  {
    hide ParseExpr;
  }

  lemma {:induction false} LoopRestParses(e: Expr, ts: seq<Token>, i: nat, inArm: bool)
    requires WellFormed(e) && e.LoopWhile?
    requires At(ts, i, Kw(While) + (Print(e.loopCond, 0) + (Kw(Do) + Print(e.loopBody, 0))))
    requires Closed(ts, i + 2 + |Print(e.loopCond, 0)| + |Print(e.loopBody, 0)|, 0, inArm)
    ensures var r := LoopFrom(ts, e.loopAcc, e.loopInit, i, inArm);
            if Exposes(e.loopCond, 0, inArm) || Exposes(e.loopBody, 0, inArm) then Fails(ts, r, 0, inArm)
            else r == Some((e, i + 2 + |Print(e.loopCond, 0)| + |Print(e.loopBody, 0)|))
    ensures IsWord(ts, i, While)
    decreases e, 0, 3
  {
    hide Closed, Settled, OpAt, ParseExpr, Print, PrintBare, Exposes, ExposesBare, WellFormed, At, Wrapped;
    LoopShape(e);
    var b, c := Print(e.loopCond, 0), Print(e.loopBody, 0);
    AtToken(ts, i, Ident(While), b + (Kw(Do) + c));
    AtSplit(ts, i + 1, b, Kw(Do) + c);
    var k := i + 1 + |b|;
    AtToken(ts, k, Ident(Do), c);
    SubParses(e.loopCond, 0, ts, i + 1, inArm);
    FullParses(e.loopBody, 0, ts, k + 1, inArm);
  }

  lemma {:induction false} CaseParses(e: Expr, ts: seq<Token>, i: nat, inArm: bool)
    requires WellFormed(e) && e.CaseOf? && At(ts, i, Print(e, 0))
    requires Closed(ts, End(i, e, 0), 0, inArm)
    ensures ReadsFull(ts, ParseExpr(ts, i, inArm), e, End(i, e, 0), 0, inArm)
    decreases e, 0, 4
  {
    hide Closed, Settled, OpAt, ParseExpr, Print, PrintBare, Exposes, ExposesBare, WellFormed, At, ParseArms, PrintArms, AnyArmExposes, ArmsWellFormed;
    CaseShape(e);
    var a, arms := Print(e.scrutinee, 0), PrintArms(e.arms);
    AtToken(ts, i, Ident(Case), a + (Kw(Of) + arms));
    AtSplit(ts, i + 1, a, Kw(Of) + arms);
    var i1 := i + 1 + |a|;
    AtToken(ts, i1, Ident(Of), arms);
    SubParses(e.scrutinee, 0, ts, i + 1, inArm);
    ArmsParse(e.arms, ts, i1 + 1, inArm);
  }

  lemma {:induction false} AssignParses(e: Expr, p: nat, ts: seq<Token>, i: nat, inArm: bool)
    requires WellFormed(e) && e.Assign? && p <= ASSIGN_PREC && At(ts, i, Print(e, p))
    requires Closed(ts, End(i, e, p), p, inArm)
    ensures ReadsFull(ts, ParseExpr(ts, i, inArm), e, End(i, e, p), p, inArm)
    decreases e, 0, 5
  {
    hide ParseBinary, ParseExpr, Print, PrintBare, Exposes, ExposesBare, WellFormed, At, Wrapped, Closed, Settled, OpStops, BinaryLoop;
    AssignShape(e, p);
    var a, b := Print(e.target, ASSIGN_PREC + 1), Print(e.newValue, ASSIGN_PREC);
    AtSplit(ts, i, a, Sym(Equals) + b);
    AtToken(ts, i + |a|, Symbol(Equals), b);
    StartsAt(e.target, ASSIGN_PREC + 1, ts, i);
    OperatorsShape(ts, i, inArm);
    EqualsStops(ts, e.target, i + |a|, inArm);
    ClosedAtAssignment(ts, End(i, e, p), p, inArm);
    BinaryParses(e.target, ASSIGN_PREC + 1, 1, ts, i, inArm);
    FullParses(e.newValue, ASSIGN_PREC, ts, i + |a| + 1, inArm);
  }

  lemma {:induction false} EqualsStops(ts: seq<Token>, e: Expr, j: nat, inArm: bool)
    requires IsMark(ts, j, Equals)
    ensures Settled(ts, j) && BinaryLoop(ts, e, j, 1, inArm) == Some((e, j))
    ensures forall q: nat :: OpStops(ts, j, q, inArm)
  {
    hide ParseBinary;
  }

  lemma {:induction false} ClosedAtAssignment(ts: seq<Token>, j: nat, p: nat, inArm: bool)
    requires p <= ASSIGN_PREC && Closed(ts, j, p, inArm)
    ensures Closed(ts, j, ASSIGN_PREC, inArm)
  {
  }

  /** Anything else is an operator expression, read from the lowest precedence. */
  lemma {:induction false} OperatorsParse(e: Expr, p: nat, ts: seq<Token>, i: nat, inArm: bool)
    requires WellFormed(e) && p <= 2 && At(ts, i, Print(e, p))
    requires !(p == 0 && Statement(e)) && !(e.Assign? && p <= ASSIGN_PREC)
    requires Closed(ts, End(i, e, p), p, inArm)
    ensures ReadsFull(ts, ParseExpr(ts, i, inArm), e, End(i, e, p), p, inArm)
    decreases e, if Wrapped(e, p) then 1 else 0, 5
  {
    hide ParseBinary, ParseExpr, Print, PrintBare, Exposes, ExposesBare, WellFormed, At, BinaryLoop;
    var q := if p == 0 then 1 else p;
    SameContext(e, p, q);
    StartsAt(e, q, ts, i);
    OperatorsShape(ts, i, inArm);
    ClosedStops(ts, e, End(i, e, p), p, inArm);
    BinaryParses(e, q, 1, ts, i, inArm);
  }

  lemma {:induction false} ClosedStops(ts: seq<Token>, e: Expr, j: nat, p: nat, inArm: bool)
    requires p <= 2 && Closed(ts, j, p, inArm)
    ensures BinaryLoop(ts, e, j, 1, inArm) == Some((e, j))
    ensures forall q: nat :: OpStops(ts, j, q, inArm)
  {
    hide ParseBinary;
  }

  // ---------------------------------------------------------------- operators

  /** Climbing from any minimum up to `p` reaches the loop head with `e` read. */
  lemma {:induction false} BinaryParses(e: Expr, p: nat, min: nat, ts: seq<Token>, i: nat, inArm: bool)
    requires WellFormed(e) && 1 <= min <= p <= UNARY_PREC && !(e.Assign? && p == 1)
    requires At(ts, i, Print(e, p))
    requires Settled(ts, End(i, e, p)) && OpStops(ts, End(i, e, p), p + 1, inArm)
    ensures if Exposes(e, p, inArm) then Fails(ts, ParseBinary(ts, i, min, inArm), p, inArm)
            else ParseBinary(ts, i, min, inArm) == BinaryLoop(ts, e, End(i, e, p), min, inArm)
    decreases e, if Wrapped(e, p) then 1 else 0, 4
  {
    hide ParseUnary, Print, PrintBare, Exposes, ExposesBare, WellFormed, BinaryLoop, At;
    if e.Binary? && !Wrapped(e, p) {
      BareBinaryParses(e, p, min, ts, i, inArm);
    } else {
      UnaryParses(e, p, ts, i, inArm);
    }
  }

  lemma {:induction false} BareBinaryParses(e: Expr, p: nat, min: nat, ts: seq<Token>, i: nat, inArm: bool)
    requires WellFormed(e) && e.Binary? && 1 <= min <= p <= Prec(e.op)
    requires At(ts, i, Print(e, p))
    requires Settled(ts, End(i, e, p)) && OpStops(ts, End(i, e, p), p + 1, inArm)
    ensures if Exposes(e, p, inArm) then Fails(ts, ParseBinary(ts, i, min, inArm), p, inArm)
            else ParseBinary(ts, i, min, inArm) == BinaryLoop(ts, e, End(i, e, p), min, inArm)
    decreases e, 0, 3
  {
    hide ParseBinary, OpTokens, OpMarks, Prec, Print, PrintBare, Exposes, ExposesBare, WellFormed, At, OpAt;
    BinaryShape(e, p);
    var q := Prec(e.op);
    var l, r := Print(e.left, q), Print(e.right, q + 1);
    AtSplit(ts, i, l, OpTokens(e.op) + r);
    var i1 := i + |l|;
    AtSplit(ts, i1, OpTokens(e.op), r);
    var i2 := i1 + |OpMarks(e.op)|;
    StartsAt(e.right, q + 1, ts, i2);
    OperatorAt(e.op, ts, i1, r);
    BinaryParses(e.left, q, min, ts, i, inArm);
    BinaryParses(e.right, q + 1, q + 1, ts, i2, inArm);
    LoopStops(ts, e.right, End(i2, e.right, q + 1), p, q + 1, inArm);
  }

  lemma {:induction false} LoopStops(ts: seq<Token>, e: Expr, j: nat, p: nat, min: nat, inArm: bool)
    requires OpStops(ts, j, p + 1, inArm) && p < min
    ensures BinaryLoop(ts, e, j, min, inArm) == Some((e, j))
    ensures OpStops(ts, j, min + 1, inArm)
  {
    hide ParseBinary;
  }

  /** Everything tighter than a binary operator. */
  lemma {:induction false} UnaryParses(e: Expr, p: nat, ts: seq<Token>, i: nat, inArm: bool)
    requires WellFormed(e) && 1 <= p <= UNARY_PREC && At(ts, i, Print(e, p))
    requires e.Binary? || e.Assign? ==> Wrapped(e, p)
    requires Settled(ts, End(i, e, p))
    ensures ReadsExactly(ParseUnary(ts, i, inArm), e, End(i, e, p), Exposes(e, p, inArm))
    decreases e, if Wrapped(e, p) then 1 else 0, 3
  {
    hide ParsePostfix, PostfixLoop, Print, PrintBare, Exposes, ExposesBare, WellFormed, At;
    if Wrapped(e, p) {
      assert Wrapped(e, FIELD_PREC);
      TightParses(e, p, ts, i, inArm);
    } else if e.Unary? {
      UnaryShape(e, p);
      AtToken(ts, i, Symbol(UnMark(e.unop)), Print(e.operand, UNARY_PREC));
      UnaryParses(e.operand, UNARY_PREC, ts, i + 1, inArm);
    } else if e.Borrow? {
      BorrowParses(e, p, ts, i, inArm);
    } else {
      TightParses(e, p, ts, i, inArm);
    }
  }

  /** Forms read by the postfix level: wrapped ones, postfix chains and primaries. */
  lemma {:induction false} TightParses(e: Expr, p: nat, ts: seq<Token>, i: nat, inArm: bool)
    requires WellFormed(e) && At(ts, i, Print(e, p))
    requires Wrapped(e, p) == Wrapped(e, FIELD_PREC)
    requires e.Unary? || e.Borrow? ==> Wrapped(e, p)
    requires Settled(ts, End(i, e, p))
    ensures ReadsExactly(ParseUnary(ts, i, inArm), e, End(i, e, p), Exposes(e, p, inArm))
    decreases e, if Wrapped(e, p) then 1 else 0, 2
  {
    hide ParsePostfix, PostfixLoop, Print, PrintBare, Exposes, ExposesBare, WellFormed, At;
    SameContext(e, p, FIELD_PREC);
    SettledIsSafe(ts, End(i, e, p));
    PostfixParses(e, ts, i, inArm);
    PostfixStops(ts, e, End(i, e, p), inArm);
    TightStart(e, ts, i);
  }

  lemma {:induction false} BorrowParses(e: Expr, p: nat, ts: seq<Token>, i: nat, inArm: bool)
    requires WellFormed(e) && e.Borrow? && p <= UNARY_PREC && At(ts, i, Print(e, p))
    requires Settled(ts, End(i, e, p))
    ensures ReadsExactly(ParseUnary(ts, i, inArm), e, End(i, e, p), Exposes(e, p, inArm))
    decreases e, 0, 2
  {
    hide ParsePostfix, ParseRegion, PrintRegion, Print, PrintBare, Exposes, ExposesBare, WellFormed, At, Settled, ParseUnary;
    BorrowShape(e, p);
    var region, mutTokens, r := PrintRegion(e.region), if e.mutable then Kw(Mut) else [], Print(e.referent, UNARY_PREC);
    AtToken(ts, i, Symbol(Amp), region + (mutTokens + r));
    AtSplit(ts, i + 1, region, mutTokens + r);
    var i1 := i + 1 + |region|;
    AtSplit(ts, i1, mutTokens, r);
    var i2 := i1 + |mutTokens|;
    StartsAt(e.referent, UNARY_PREC, ts, i2);
    if e.mutable {
      AtLast(ts, i1, Ident(Mut));
    }
    RegionParses(e.region, ts, i + 1);
    UnaryParses(e.referent, UNARY_PREC, ts, i2, inArm);
    BorrowStep(ts, i, inArm);
  }

  lemma {:induction false} BorrowStep(ts: seq<Token>, i: nat, inArm: bool)
    requires IsMark(ts, i, Amp)
    ensures ParseUnary(ts, i, inArm)
            == match ParseRegion(ts, i + 1)
               case None => None
               case Some((region, i1)) =>
                 var mutable := IsWord(ts, i1, Mut);
                 match ParseUnary(ts, if mutable then i1 + 1 else i1, inArm)
                 case None => None
                 case Some((e, i2)) => Some((Borrow(region, mutable, e), i2))
  {
    hide ParsePostfix, ParseRegion;
  }

  lemma {:induction false} RegionParses(region: Option<Word>, ts: seq<Token>, i: nat)
    requires At(ts, i, PrintRegion(region))
    requires !IsMark(ts, i + |PrintRegion(region)|, Quote)
    ensures ParseRegion(ts, i) == Some((region, i + |PrintRegion(region)|))
  {
    if region.Some? {
      AtToken(ts, i, Symbol(Quote), Kw(region.value));
      AtLast(ts, i + 1, Ident(region.value));
    }
  }

  lemma {:induction false} SettledIsSafe(ts: seq<Token>, j: nat)
    requires Settled(ts, j)
    ensures SafePath(ts, j)
  {
  }

  lemma {:induction false} PostfixStops(ts: seq<Token>, e: Expr, j: nat, inArm: bool)
    requires Settled(ts, j)
    ensures PostfixLoop(ts, e, j, inArm) == Some((e, j))
  {
    hide ParseExpr;
  }

  /** Postfix forms do not start with a prefix operator. */
  lemma {:induction false} TightStart(e: Expr, ts: seq<Token>, i: nat)
    requires WellFormed(e) && At(ts, i, Print(e, FIELD_PREC))
    ensures i < |ts|
    ensures !IsMark(ts, i, Minus) && !IsMark(ts, i, Bang) && !IsMark(ts, i, Tilde) && !IsMark(ts, i, Amp)
  {
    Tight(e);
    assert ts[i] == ts[i..i + |Print(e, FIELD_PREC)|][0];
  }

  lemma {:induction false} Tight(e: Expr)
    requires WellFormed(e)
    ensures Print(e, FIELD_PREC) != []
    ensures var t := Print(e, FIELD_PREC)[0];
            t != Symbol(Minus) && t != Symbol(Bang) && t != Symbol(Tilde) && t != Symbol(Amp)
  {
    match e
    case Index(base, _) => Tight(base);
    case Field(owner, _) => Tight(owner);
    case _ =>
  }

  // ---------------------------------------------------------------- postfix

  /** Reading a postfix form reaches the loop head with it read. */
  lemma {:induction false} PostfixParses(e: Expr, ts: seq<Token>, i: nat, inArm: bool)
    requires WellFormed(e) && At(ts, i, Print(e, FIELD_PREC))
    requires SafePath(ts, End(i, e, FIELD_PREC))
    ensures if Exposes(e, FIELD_PREC, inArm) then ParsePostfix(ts, i, inArm) == None
            else ParsePostfix(ts, i, inArm) == PostfixLoop(ts, e, End(i, e, FIELD_PREC), inArm)
    decreases e, if Wrapped(e, FIELD_PREC) then 1 else 0, 1, 2
  {
    hide ParsePostfix, PostfixLoop, Print, PrintBare, Exposes, ExposesBare, WellFormed, At, SafePath;
    if e.Index? {
      IndexParses(e, ts, i, inArm);
    } else if e.Field? {
      FieldAccessParses(e, ts, i, inArm);
    } else if e.Name? {
      NamePrints(e, ts, i, inArm);
    } else {
      PostfixShape(ts, i, inArm);
      PrimaryParses(e, ts, i, inArm);
    }
  }

  lemma {:induction false} PostfixShape(ts: seq<Token>, i: nat, inArm: bool)
    ensures ParsePostfix(ts, i, inArm)
            == match ParsePrimary(ts, i)
               case None => None
               case Some((e, j)) => PostfixLoop(ts, e, j, inArm)
  {
    hide ParsePrimary, PostfixLoop;
  }

  lemma {:induction false} NamePrints(e: Expr, ts: seq<Token>, i: nat, inArm: bool)
    requires WellFormed(e) && e.Name? && At(ts, i, Print(e, FIELD_PREC))
    requires SafePath(ts, End(i, e, FIELD_PREC))
    ensures !Exposes(e, FIELD_PREC, inArm)
    ensures ParsePostfix(ts, i, inArm) == PostfixLoop(ts, e, End(i, e, FIELD_PREC), inArm)
  {
    hide ParsePostfix, PostfixLoop, SafePath, At;
    NameParses(e.word, ts, i, inArm);
  }

  lemma {:induction false} IndexParses(e: Expr, ts: seq<Token>, i: nat, inArm: bool)
    requires WellFormed(e) && e.Index? && At(ts, i, Print(e, FIELD_PREC))
    ensures if Exposes(e, FIELD_PREC, inArm) then ParsePostfix(ts, i, inArm) == None
            else ParsePostfix(ts, i, inArm) == PostfixLoop(ts, e, End(i, e, FIELD_PREC), inArm)
    decreases e, 0, 1, 1
  {
    hide ParsePostfix, ParseExpr, PostfixLoop, Print, PrintBare, Exposes, ExposesBare, WellFormed, At, Wrapped, SafePath;
    IndexShape(e);
    var a, b := Print(e.base, FIELD_PREC), Print(e.index, 0);
    AtSplit(ts, i, a, Sym(LBracket) + (b + Sym(RBracket)));
    var j := i + |a|;
    AtToken(ts, j, Symbol(LBracket), b + Sym(RBracket));
    AtSplit(ts, j + 1, b, Sym(RBracket));
    AtLast(ts, j + 1 + |b|, Symbol(RBracket));
    BracketIsSafe(ts, j);
    PostfixParses(e.base, ts, i, inArm);
    SubParses(e.index, 0, ts, j + 1, inArm);
    IndexStep(ts, e.base, j, inArm);
  }

  lemma {:induction false} BracketIsSafe(ts: seq<Token>, j: nat)
    requires IsMark(ts, j, LBracket)
    ensures SafePath(ts, j)
  {
  }

  lemma {:induction false} IndexStep(ts: seq<Token>, e: Expr, j: nat, inArm: bool)
    requires IsMark(ts, j, LBracket)
    ensures PostfixLoop(ts, e, j, inArm)
            == match ParseExpr(ts, j + 1, inArm)
               case None => None
               case Some((index, k)) =>
                 if IsMark(ts, k, RBracket) then PostfixLoop(ts, Index(e, index), k + 1, inArm) else None
  {
    hide ParseExpr;
  }

  lemma {:induction false} FieldAccessParses(e: Expr, ts: seq<Token>, i: nat, inArm: bool)
    requires WellFormed(e) && e.Field? && At(ts, i, Print(e, FIELD_PREC))
    requires SafePath(ts, End(i, e, FIELD_PREC))
    ensures if Exposes(e, FIELD_PREC, inArm) then ParsePostfix(ts, i, inArm) == None
            else ParsePostfix(ts, i, inArm) == PostfixLoop(ts, e, End(i, e, FIELD_PREC), inArm)
    decreases e, 0, 1, 1
  {
    hide ParsePostfix, PostfixLoop, SafePath, Print, PrintBare, Exposes, ExposesBare, WellFormed, At;
    FieldShape(e);
    var a := Print(e.owner, FIELD_PREC);
    AtSplit(ts, i, a, Sym(Dot) + Kw(e.field));
    var j := i + |a|;
    AtToken(ts, j, Symbol(Dot), Kw(e.field));
    AtLast(ts, j + 1, Ident(e.field));
    FieldStep(ts, e.owner, e.field, j, inArm);
    PostfixParses(e.owner, ts, i, inArm);
  }

  lemma {:induction false} FieldStep(ts: seq<Token>, e: Expr, field: Word, j: nat, inArm: bool)
    requires IsMark(ts, j, Dot) && Peek(ts, j + 1) == Ident(field) && SafePath(ts, j + 2)
    ensures PostfixLoop(ts, e, j, inArm) == PostfixLoop(ts, Field(e, field), j + 2, inArm)
    ensures SafePath(ts, j)
  {
    hide ParseExpr;
  }

  lemma {:induction false} NameParses(word: Word, ts: seq<Token>, i: nat, inArm: bool)
    requires !Reserved(word) && At(ts, i, Kw(word)) && SafePath(ts, i + 1)
    ensures ParsePostfix(ts, i, inArm) == PostfixLoop(ts, Name(word), i + 1, inArm)
  {
    hide PostfixLoop, ParsePrimary, ParsePathTail, FieldChain, ParsePostfix;
    AtLast(ts, i, Ident(word));
    NameStep(word, ts, i);
    PostfixShape(ts, i, inArm);
    PathThenFields(ts, Name(word), i + 1, inArm);
  }

  lemma {:induction false} NameStep(word: Word, ts: seq<Token>, i: nat)
    requires !Reserved(word) && Peek(ts, i) == Ident(word) && SafePath(ts, i + 1)
    ensures ParsePrimary(ts, i)
            == match ParsePathTail(ts, i + 1)
               case None => None
               case Some((more, j)) => Some((FieldChain(Name(word), more), j))
  {
    hide ParseExpr, ParseItems, ParseFields, ParseBracketed, ParsePathTail, FieldChain;
  }

  // ---------------------------------------------------------------- primaries

  /** Leaves and delimited forms, including a parenthesized expression. */
  lemma {:induction false} PrimaryParses(e: Expr, ts: seq<Token>, i: nat, inArm: bool)
    requires WellFormed(e) && At(ts, i, Print(e, FIELD_PREC))
    requires !e.Index? && !e.Field? && !e.Name?
    requires SafePath(ts, End(i, e, FIELD_PREC))
    ensures ReadsExactly(ParsePrimary(ts, i), e, End(i, e, FIELD_PREC), Exposes(e, FIELD_PREC, inArm))
    decreases e, if Wrapped(e, FIELD_PREC) then 1 else 0, 1, 0
  {
    hide ParsePrimary, ParseExpr, Print, PrintBare, Exposes, ExposesBare, WellFormed, At, SafePath;
    if Wrapped(e, FIELD_PREC) {
      ParensParse(e, ts, i, inArm);
    } else {
      PrimaryShape(e, FIELD_PREC);
      DelimitedExposes(e, inArm);
      match e
      case Call(path, args) => CallParses(e, ts, i);
      case Array(elements) => ArrayParses(e, ts, i);
      case ArrayFill(fill, count) => FillParses(e, ts, i);
      case Record(fields) => RecordParses(e, ts, i);
      case Construct(path, variant, payload) => ConstructParses(e, ts, i);
      case _ => LeafParses(e, ts, i);
    }
  }

  /** The arm flag does not reach inside a delimited form. */
  lemma {:induction false} DelimitedExposes(e: Expr, inArm: bool)
    requires WellFormed(e) && !Wrapped(e, FIELD_PREC) && !e.Index? && !e.Field? && !e.Name?
    ensures e.Call? ==> ExposesBare(e, inArm) == AnyExposes(e.args)
    ensures e.Array? ==> ExposesBare(e, inArm) == AnyExposes(e.elements)
    ensures e.ArrayFill? ==> ExposesBare(e, inArm) == Exposes(e.fill, 0, false)
    ensures e.Record? ==> ExposesBare(e, inArm) == AnyFieldExposes(e.fields)
    ensures e.Construct? ==> ExposesBare(e, inArm) == Exposes(e.payload, 0, false)
    ensures e.LitInt? || e.LitBool? || e.LitText? || e.LitBytes? || e.Unit? ==> !ExposesBare(e, inArm)
    ensures e.Call? || e.Array? || e.ArrayFill? || e.Record? || e.Construct?
            || e.LitInt? || e.LitBool? || e.LitText? || e.LitBytes? || e.Unit?
  {
    hide Exposes, AnyExposes, AnyFieldExposes, WellFormed;
  }

  lemma {:induction false} ParensParse(e: Expr, ts: seq<Token>, i: nat, inArm: bool)
    requires WellFormed(e) && Wrapped(e, FIELD_PREC) && At(ts, i, Print(e, FIELD_PREC))
    ensures ReadsExactly(ParsePrimary(ts, i), e, End(i, e, FIELD_PREC), Exposes(e, FIELD_PREC, inArm))
    decreases e, 1, 0
  {
    hide ParseExpr, ParseNamed, ParseBracketed, ParseFields, Print, PrintBare, Exposes, ExposesBare, WellFormed, At;
    WrappedShape(e, FIELD_PREC);
    var a := Print(e, 0);
    AtToken(ts, i, Symbol(LParen), a + Sym(RParen));
    AtSplit(ts, i + 1, a, Sym(RParen));
    AtLast(ts, i + 1 + |a|, Symbol(RParen));
    StartsAt(e, 0, ts, i + 1);
    FullParses(e, 0, ts, i + 1, false);
  }

  lemma {:induction false} LeafParses(e: Expr, ts: seq<Token>, i: nat)
    requires At(ts, i, PrintBare(e))
    requires e.LitInt? || e.LitBool? || e.LitText? || e.LitBytes? || e.Unit?
    ensures ParsePrimary(ts, i) == Some((e, i + |PrintBare(e)|))
  {
    hide ParseExpr, ParseNamed, ParseBracketed, ParseFields;
    if e.Unit? {
      AtToken(ts, i, Symbol(LParen), Sym(RParen));
      AtLast(ts, i + 1, Symbol(RParen));
    } else {
      AtLast(ts, i, PrintBare(e)[0]);
    }
  }

  lemma {:induction false} CallShape(e: Expr)
    requires WellFormed(e) && e.Call?
    ensures PrintBare(e) == Kw(e.path[0]) + (PrintPathTail(e.path[1..]) + (Sym(LParen) + (PrintItems(e.args) + Sym(RParen))))
    ensures e.path != [] && !Reserved(e.path[0]) && AllWellFormed(e.args)
  {
    hide PrintItems, AllWellFormed, PrintPathTail;
    var t, u := PrintPathTail(e.path[1..]), Sym(LParen) + (PrintItems(e.args) + Sym(RParen));
    assert (Kw(e.path[0]) + t) + u == Kw(e.path[0]) + (t + u);
  }

  lemma {:induction false} CallParses(e: Expr, ts: seq<Token>, i: nat)
    requires WellFormed(e) && e.Call? && At(ts, i, PrintBare(e))
    ensures ReadsExactly(ParsePrimary(ts, i), e, i + |PrintBare(e)|, AnyExposes(e.args))
    decreases e, 0, 0
  {
    hide ParseExpr, ParseItems, ParsePathTail, PrintItems, PrintPathTail, AnyExposes, PrintBare, WellFormed, AllWellFormed,
         At, ParsePrimary, ParseNamed;
    CallShape(e);
    var tail, items := PrintPathTail(e.path[1..]), PrintItems(e.args);
    AtToken(ts, i, Ident(e.path[0]), tail + (Sym(LParen) + (items + Sym(RParen))));
    AtSplit(ts, i + 1, tail, Sym(LParen) + (items + Sym(RParen)));
    var j := i + 1 + |tail|;
    AtToken(ts, j, Symbol(LParen), items + Sym(RParen));
    PathTailParses(e.path[1..], ts, i + 1);
    assert [e.path[0]] + e.path[1..] == e.path;
    NoArguments(e.args, ts, j + 1);
    if e.args != [] {
      ItemsParse(e.args, RParen, ts, j + 1);
    }
    CallStep(ts, i, e.path[0], e.path[1..], j);
  }

  lemma {:induction false} CallStep(ts: seq<Token>, i: nat, first: Word, more: seq<Word>, j: nat)
    requires i < |ts| && Peek(ts, i) == Ident(first) && !Reserved(first)
    requires ParsePathTail(ts, i + 1) == Some((more, j)) && IsMark(ts, j, LParen)
    ensures ParsePrimary(ts, i)
            == if IsMark(ts, j + 1, RParen) then Some((Call([first] + more, []), j + 2))
               else match ParseItems(ts, j + 1, RParen)
                    case None => None
                    case Some((args, k)) => Some((Call([first] + more, args), k))
  {
    hide ParseExpr, ParseItems, ParseFields, ParseBracketed, ParsePathTail;
  }

  /** An argument list is empty exactly when the closing mark comes first. */
  lemma {:induction false} NoArguments(items: seq<Expr>, ts: seq<Token>, i: nat)
    requires AllWellFormed(items) && At(ts, i, PrintItems(items) + Sym(RParen))
    ensures IsMark(ts, i, RParen) <==> items == []
    ensures items == [] ==> !AnyExposes(items) && PrintItems(items) == []
  {
    AtSplit(ts, i, PrintItems(items), Sym(RParen));
    if items == [] {
      AtLast(ts, i, Symbol(RParen));
    } else {
      FirstItemAt(items, ts, i);
      StartsAt(items[0], 0, ts, i);
    }
  }

  lemma {:induction false} FirstItemAt(items: seq<Expr>, ts: seq<Token>, i: nat)
    requires items != [] && At(ts, i, PrintItems(items))
    ensures At(ts, i, Print(items[0], 0))
  {
    hide Print;
    if |items| > 1 {
      AtSplit(ts, i, Print(items[0], 0), Sym(Comma) + PrintItems(items[1..]));
    }
  }

  lemma {:induction false} ConstructShape(e: Expr)
    requires WellFormed(e) && e.Construct?
    ensures PrintBare(e) == Kw(e.enumPath[0]) + (PrintPathTail(e.enumPath[1..]) + (Sym(ColonColon)
                            + (Kw(e.variant) + PayloadTokens(e))))
    ensures e.enumPath != [] && !Reserved(e.enumPath[0]) && WellFormed(e.payload)
    ensures e.payload == Unit ==> !Exposes(e.payload, 0, false)
  {
    hide Print, PrintPathTail;
    var t := PrintPathTail(e.enumPath[1..]);
    var u := Sym(ColonColon) + (Kw(e.variant) + PayloadTokens(e));
    assert (Kw(e.enumPath[0]) + t) + u == Kw(e.enumPath[0]) + (t + u);
  }

  lemma {:induction false} ConstructParses(e: Expr, ts: seq<Token>, i: nat)
    requires WellFormed(e) && e.Construct? && At(ts, i, PrintBare(e))
    requires SafePath(ts, i + |PrintBare(e)|)
    ensures ReadsExactly(ParsePrimary(ts, i), e, i + |PrintBare(e)|, Exposes(e.payload, 0, false))
    decreases e, 0, 0, 1
  {
    hide ParseExpr, ParsePathTail, PrintPathTail, Print, PrintBare, Exposes, ExposesBare, WellFormed, At, ParsePrimary,
         ParseNamed, PayloadTokens, SafePath, PayloadAt;
    ConstructShape(e);
    var tail, payload := PrintPathTail(e.enumPath[1..]), PayloadTokens(e);
    AtToken(ts, i, Ident(e.enumPath[0]), tail + (Sym(ColonColon) + (Kw(e.variant) + payload)));
    AtSplit(ts, i + 1, tail, Sym(ColonColon) + (Kw(e.variant) + payload));
    var j := i + 1 + |tail|;
    AtToken(ts, j, Symbol(ColonColon), Kw(e.variant) + payload);
    AtToken(ts, j + 1, Ident(e.variant), payload);
    PathTailParses(e.enumPath[1..], ts, i + 1);
    assert [e.enumPath[0]] + e.enumPath[1..] == e.enumPath;
    ConstructStep(ts, i, e.enumPath[0], e.enumPath[1..], j, e.variant);
    PayloadParses(e, ts, j + 2);
  }

  function PayloadTokens(e: Expr): seq<Token>
    requires e.Construct?
  {
    if e.payload == Unit then [] else Parens(Print(e.payload, 0))
  }

  lemma {:induction false} PayloadParses(e: Expr, ts: seq<Token>, i: nat)
    requires WellFormed(e) && e.Construct? && At(ts, i, PayloadTokens(e))
    requires SafePath(ts, i + |PayloadTokens(e)|)
    ensures if Exposes(e.payload, 0, false) then PayloadAt(ts, i) == None
            else PayloadAt(ts, i) == Some((e.payload, i + |PayloadTokens(e)|))
    decreases e, 0, 0, 0
  {
    hide ParseExpr, Print, PrintBare, Exposes, ExposesBare, WellFormed, At, SafePath, Wrapped, PrintPathTail, PrintPath;
    ConstructShape(e);
    if e.payload != Unit {
      var a := Print(e.payload, 0);
      AtToken(ts, i, Symbol(LParen), a + Sym(RParen));
      AtSplit(ts, i + 1, a, Sym(RParen));
      AtLast(ts, i + 1 + |a|, Symbol(RParen));
      SubParses(e.payload, 0, ts, i + 1, false);
    } else {
      SafeIsNotCall(ts, i);
    }
  }

  lemma {:induction false} SafeIsNotCall(ts: seq<Token>, j: nat)
    requires SafePath(ts, j)
    ensures !IsMark(ts, j, LParen)
  {
  }

  /** A parenthesized payload, or none. */
  function PayloadAt(ts: seq<Token>, i: nat): Parsed<Expr> {
    if !IsMark(ts, i, LParen) then Some((Unit, i))
    else
      var (payload, k) :- ParseExpr(ts, i + 1, false);
      if IsMark(ts, k, RParen) then Some((payload, k + 1)) else None
  }

  lemma {:induction false} ConstructStep(ts: seq<Token>, i: nat, first: Word, more: seq<Word>, j: nat, variant: Word)
    requires i < |ts| && Peek(ts, i) == Ident(first) && !Reserved(first)
    requires ParsePathTail(ts, i + 1) == Some((more, j)) && IsMark(ts, j, ColonColon) && Peek(ts, j + 1) == Ident(variant)
    ensures ParsePrimary(ts, i)
            == match PayloadAt(ts, j + 2)
               case None => None
               case Some((payload, k)) => Some((Construct([first] + more, variant, payload), k))
  {
    hide ParseExpr, ParseItems, ParseFields, ParseBracketed, ParsePathTail;
  }

  lemma {:induction false} ArrayParses(e: Expr, ts: seq<Token>, i: nat)
    requires WellFormed(e) && e.Array? && At(ts, i, PrintBare(e))
    ensures ReadsExactly(ParsePrimary(ts, i), e, i + |PrintBare(e)|, AnyExposes(e.elements))
    decreases e, 0, 0
  {
    hide ParseExpr, ParseItems, PrintItems, AnyExposes, AllWellFormed, Print, At, ParsePrimary, ParseBracketed, Exposes;
    var items := e.elements;
    AtToken(ts, i, Symbol(LBracket), PrintItems(items) + Sym(RBracket));
    ElementsStart(items, ts, i + 1);
    ItemsParse(items, RBracket, ts, i + 1);
    ArrayStep(ts, i);
    FirstElement(items, ts, i + 1);
  }

  lemma {:induction false} ElementsStart(items: seq<Expr>, ts: seq<Token>, i: nat)
    requires items != [] && AllWellFormed(items) && At(ts, i, PrintItems(items) + Sym(RBracket))
    ensures !IsMark(ts, i, RBracket)
  {
    hide Print;
    AtSplit(ts, i, PrintItems(items), Sym(RBracket));
    FirstItemAt(items, ts, i);
    StartsAt(items[0], 0, ts, i);
  }

  /** Reading the first element stops before a comma or the bracket, never a `;`. */
  lemma {:induction false} FirstElement(items: seq<Expr>, ts: seq<Token>, i: nat)
    requires items != [] && AllWellFormed(items) && At(ts, i, PrintItems(items) + Sym(RBracket))
    ensures var r := ParseExpr(ts, i, false); r.Some? ==> !IsMark(ts, r.value.1, Semicolon)
    decreases items, 0, 0
  {
    hide ParseExpr, ParseItems, Print, At, Exposes, WellFormed;
    ItemsShape(items, RBracket);
    var a := Print(items[0], 0);
    if |items| == 1 {
      AtSplit(ts, i, a, Sym(RBracket));
      AtLast(ts, i + |a|, Symbol(RBracket));
    } else {
      AtSplit(ts, i, a, Sym(Comma) + (PrintItems(items[1..]) + Sym(RBracket)));
      AtToken(ts, i + |a|, Symbol(Comma), PrintItems(items[1..]) + Sym(RBracket));
    }
    SubParses(items[0], 0, ts, i, false);
  }

  /** Without a `;` a bracketed list is an item list. */
  lemma {:induction false} ArrayStep(ts: seq<Token>, i: nat)
    requires i < |ts| && IsMark(ts, i, LBracket) && !IsMark(ts, i + 1, RBracket)
    ensures var r := ParseExpr(ts, i + 1, false);
            (r.Some? ==> !IsMark(ts, r.value.1, Semicolon)) ==>
              ParsePrimary(ts, i) == match ParseItems(ts, i + 1, RBracket)
                                     case None => None
                                     case Some((elements, k)) => Some((Array(elements), k))
  {
    hide ParseExpr, ParseFields, ParseNamed;
  }

  lemma {:induction false} FillParses(e: Expr, ts: seq<Token>, i: nat)
    requires WellFormed(e) && e.ArrayFill? && At(ts, i, PrintBare(e))
    ensures ReadsExactly(ParsePrimary(ts, i), e, i + |PrintBare(e)|, Exposes(e.fill, 0, false))
    decreases e, 0, 0
  {
    hide ParseExpr, ParseItems, Print, At, ParsePrimary, ParseBracketed, Exposes, ExposesBare;
    var a := Print(e.fill, 0);
    AtToken(ts, i, Symbol(LBracket), a + (Sym(Semicolon) + ([Number(e.count)] + Sym(RBracket))));
    AtSplit(ts, i + 1, a, Sym(Semicolon) + ([Number(e.count)] + Sym(RBracket)));
    var j := i + 1 + |a|;
    AtToken(ts, j, Symbol(Semicolon), [Number(e.count)] + Sym(RBracket));
    AtToken(ts, j + 1, Number(e.count), Sym(RBracket));
    AtLast(ts, j + 2, Symbol(RBracket));
    StartsAt(e.fill, 0, ts, i + 1);
    SubParses(e.fill, 0, ts, i + 1, false);
    CountParses(e.count, ts, j + 1);
    FillStep(ts, i);
  }

  lemma {:induction false} FillStep(ts: seq<Token>, i: nat)
    requires i < |ts| && IsMark(ts, i, LBracket) && !IsMark(ts, i + 1, RBracket)
    ensures var r := ParseExpr(ts, i + 1, false);
            (r.None? ==> ParsePrimary(ts, i) == None)
            && (r.Some? && IsMark(ts, r.value.1, Semicolon) ==>
                  var c := ParseExpr(ts, r.value.1 + 1, false);
                  c.Some? && c.value.0.LitInt? && IsMark(ts, c.value.1, RBracket) ==>
                    ParsePrimary(ts, i) == Some((ArrayFill(r.value.0, c.value.0.digits), c.value.1 + 1)))
  {
    hide ParseExpr, ParseItems, ParseFields, ParseNamed;
  }

  lemma {:induction false} CountParses(count: string, ts: seq<Token>, i: nat)
    requires Peek(ts, i) == Number(count) && IsMark(ts, i + 1, RBracket)
    ensures ParseExpr(ts, i, false) == Some((LitInt(count), i + 1))
  {
    hide ParseArms, ParseNamed, ParseBracketed, ParseFields, ParseItems;
    assert ParsePrimary(ts, i) == Some((LitInt(count), i + 1));
    PostfixStops(ts, LitInt(count), i + 1, false);
    assert ParseUnary(ts, i, false) == Some((LitInt(count), i + 1));
    assert OpAt(ts, i + 1) == None;
    assert ParseBinary(ts, i, 1, false) == Some((LitInt(count), i + 1));
  }

  lemma {:induction false} RecordParses(e: Expr, ts: seq<Token>, i: nat)
    requires WellFormed(e) && e.Record? && At(ts, i, PrintBare(e))
    ensures ReadsExactly(ParsePrimary(ts, i), e, i + |PrintBare(e)|, AnyFieldExposes(e.fields))
    decreases e, 0, 0
  {
    hide ParseExpr, ParseNamed, ParseBracketed, ParseFields, PrintFields, At, AnyFieldExposes, FieldsWellFormed;
    AtToken(ts, i, Symbol(LBrace), PrintFields(e.fields) + Sym(RBrace));
    FieldsParse(e.fields, ts, i + 1);
  }

  // ---------------------------------------------------------------- lists

  lemma {:induction false} ItemsShape(items: seq<Expr>, close: Mark)
    requires items != [] && AllWellFormed(items)
    ensures WellFormed(items[0]) && AllWellFormed(items[1..])
    ensures |items| == 1 ==> PrintItems(items) == Print(items[0], 0)
    ensures |items| > 1 ==> PrintItems(items) + Sym(close)
                            == Print(items[0], 0) + (Sym(Comma) + (PrintItems(items[1..]) + Sym(close)))
    ensures |items| > 1 ==> |PrintItems(items)| == |Print(items[0], 0)| + 1 + |PrintItems(items[1..])|
    ensures AnyExposes(items) == (Exposes(items[0], 0, false) || (|items| > 1 && AnyExposes(items[1..])))
  {
    hide Print, Exposes, WellFormed;
  }

  lemma {:induction false} ItemsParse(items: seq<Expr>, close: Mark, ts: seq<Token>, i: nat)
    requires items != [] && AllWellFormed(items) && (close == RParen || close == RBracket)
    requires At(ts, i, PrintItems(items) + Sym(close))
    ensures if AnyExposes(items) then ParseItems(ts, i, close) == None
            else ParseItems(ts, i, close) == Some((items, i + |PrintItems(items)| + 1))
    decreases items, 0, 0
  {
    hide ParseExpr, ParseItems, Print, Exposes, WellFormed, At, AnyExposes, AllWellFormed, PrintItems;
    ItemsShape(items, close);
    ItemsStep(ts, i, close);
    var a := Print(items[0], 0);
    if |items| == 1 {
      AtSplit(ts, i, a, Sym(close));
      AtLast(ts, i + |a|, Symbol(close));
      assert [items[0]] == items;
    } else {
      AtSplit(ts, i, a, Sym(Comma) + (PrintItems(items[1..]) + Sym(close)));
      AtToken(ts, i + |a|, Symbol(Comma), PrintItems(items[1..]) + Sym(close));
      ItemsParse(items[1..], close, ts, i + |a| + 1);
      assert [items[0]] + items[1..] == items;
    }
    SubParses(items[0], 0, ts, i, false);
  }

  /** The rest of an item list after one item. */
  function ItemsFrom(ts: seq<Token>, e: Expr, i: nat, close: Mark): Parsed<seq<Expr>> {
    if IsMark(ts, i, close) then Some(([e], i + 1))
    else
      var j :- Expect(ts, i, Symbol(Comma));
      var (rest, k) :- ParseItems(ts, j, close);
      Some(([e] + rest, k))
  }

  lemma {:induction false} ItemsStep(ts: seq<Token>, i: nat, close: Mark)
    ensures ParseItems(ts, i, close)
            == match ParseExpr(ts, i, false)
               case None => None
               case Some((e, j)) => ItemsFrom(ts, e, j, close)
  {
    hide ParseExpr;
  }

  lemma {:induction false} FieldsShape(fields: seq<FieldInit>)
    requires fields != [] && FieldsWellFormed(fields)
    ensures FieldWellFormed(fields[0]) && FieldsWellFormed(fields[1..])
    ensures |fields| == 1 ==> PrintFields(fields) == Kw(fields[0].fieldName) + (Sym(Colon) + Print(fields[0].value, 0))
    ensures |fields| > 1 ==> PrintFields(fields) + Sym(RBrace)
                             == Kw(fields[0].fieldName) + (Sym(Colon) + (Print(fields[0].value, 0)
                                + (Sym(Comma) + (PrintFields(fields[1..]) + Sym(RBrace)))))
    ensures |fields| == 1 ==> PrintFields(fields) + Sym(RBrace)
                              == Kw(fields[0].fieldName) + (Sym(Colon) + (Print(fields[0].value, 0) + Sym(RBrace)))
    ensures |fields| > 1 ==> |PrintFields(fields)| == 2 + |Print(fields[0].value, 0)| + 1 + |PrintFields(fields[1..])|
    ensures AnyFieldExposes(fields) == (Exposes(fields[0].value, 0, false) || (|fields| > 1 && AnyFieldExposes(fields[1..])))
  {
    hide Print, Exposes, WellFormed;
  }

  lemma {:induction false} FieldsParse(fields: seq<FieldInit>, ts: seq<Token>, i: nat)
    requires fields != [] && FieldsWellFormed(fields)
    requires At(ts, i, PrintFields(fields) + Sym(RBrace))
    ensures if AnyFieldExposes(fields) then ParseFields(ts, i) == None
            else ParseFields(ts, i) == Some((fields, i + |PrintFields(fields)| + 1))
    decreases fields, 0, 0
  {
    hide ParseExpr, ParseFields, Print, Exposes, WellFormed, At, AnyFieldExposes, FieldsWellFormed, PrintFields, FieldWellFormed;
    FieldsShape(fields);
    var f := fields[0];
    var a := Print(f.value, 0);
    var rest := if |fields| == 1 then Sym(RBrace) else Sym(Comma) + (PrintFields(fields[1..]) + Sym(RBrace));
    AtToken(ts, i, Ident(f.fieldName), Sym(Colon) + (a + rest));
    AtToken(ts, i + 1, Symbol(Colon), a + rest);
    AtSplit(ts, i + 2, a, rest);
    var j := i + 2 + |a|;
    if |fields| == 1 {
      AtLast(ts, j, Symbol(RBrace));
      assert [f] == fields;
    } else {
      AtToken(ts, j, Symbol(Comma), PrintFields(fields[1..]) + Sym(RBrace));
      FieldsParse(fields[1..], ts, j + 1);
      assert [f] + fields[1..] == fields;
    }
    FieldValueParses(f, ts, i + 2);
    FieldsStep(ts, i, f.fieldName);
  }

  /** The rest of a record after one value. */
  function FieldsFrom(ts: seq<Token>, field: FieldInit, i: nat): Parsed<seq<FieldInit>> {
    if IsMark(ts, i, RBrace) then Some(([field], i + 1))
    else
      var j :- Expect(ts, i, Symbol(Comma));
      var (rest, k) :- ParseFields(ts, j);
      Some(([field] + rest, k))
  }

  lemma {:induction false} FieldsStep(ts: seq<Token>, i: nat, name: Word)
    requires Peek(ts, i) == Ident(name) && IsMark(ts, i + 1, Colon)
    ensures ParseFields(ts, i)
            == match ParseExpr(ts, i + 2, false)
               case None => None
               case Some((value, j)) => FieldsFrom(ts, FieldInit(name, value), j)
  {
    hide ParseExpr;
  }

  lemma {:induction false} FieldValueParses(f: FieldInit, ts: seq<Token>, i: nat)
    requires FieldWellFormed(f) && At(ts, i, Print(f.value, 0)) && Closer(Peek(ts, End(i, f.value, 0)))
    ensures var r := ParseExpr(ts, i, false);
            if Exposes(f.value, 0, false) then r.None? else r == Some((f.value, End(i, f.value, 0)))
    decreases f, 0, 0
  {
    hide ParseExpr, Print, Exposes, WellFormed, At;
    FieldIsWellFormed(f);
    SubParses(f.value, 0, ts, i, false);
  }

  lemma {:induction false} FieldIsWellFormed(f: FieldInit)
    requires FieldWellFormed(f)
    ensures WellFormed(f.value)
  {
  }

  lemma {:induction false} ArmsShape(arms: seq<Arm>)
    requires arms != [] && ArmsWellFormed(arms)
    ensures ArmWellFormed(arms[0]) && ArmsWellFormed(arms[1..])
    ensures |arms| == 1 ==> PrintArms(arms) == PrintArm(arms[0])
    ensures |arms| > 1 ==> PrintArms(arms) == PrintArm(arms[0]) + (Sym(Bar) + PrintArms(arms[1..]))
    ensures |arms| > 1 ==> !(arms[0].pattern.AnyArm? && arms[0].guard.None?)
    ensures forall b :: AnyArmExposes(arms, b) == (ArmExposes(arms[0], b) || (|arms| > 1 && AnyArmExposes(arms[1..], b)))
  {
    hide PrintArm, ArmExposes, ArmWellFormed;
  }

  lemma {:induction false} ArmsParse(arms: seq<Arm>, ts: seq<Token>, i: nat, inArm: bool)
    requires arms != [] && ArmsWellFormed(arms) && At(ts, i, PrintArms(arms))
    requires Closed(ts, i + |PrintArms(arms)|, 0, inArm)
    ensures if AnyArmExposes(arms, inArm) then ParseArms(ts, i, inArm) == None
            else ParseArms(ts, i, inArm) == Some((arms, i + |PrintArms(arms)|))
    decreases arms, 0, 0
  {
    hide ParseArms, PrintArms, PrintArm, AnyArmExposes, ArmExposes, ArmWellFormed, ArmsWellFormed, At, Closed;
    ArmsShape(arms);
    ArmEnds(ts, i + |PrintArms(arms)|, inArm);
    if |arms| > 1 {
      ArmEnds(ts, i + |PrintArm(arms[0])|, inArm);
    }
    var a := PrintArm(arms[0]);
    if |arms| > 1 {
      AtSplit(ts, i, a, Sym(Bar) + PrintArms(arms[1..]));
      AtToken(ts, i + |a|, Symbol(Bar), PrintArms(arms[1..]));
      ArmsParse(arms[1..], ts, i + |a| + 1, inArm);
      assert [arms[0]] + arms[1..] == arms;
    } else {
      assert [arms[0]] == arms;
    }
    ArmParses(arms[0], ts, i, inArm);
  }

  /** An arm ends at a separator, or where the whole case ends. */
  lemma {:induction false} ArmEnds(ts: seq<Token>, j: nat, inArm: bool)
    ensures IsMark(ts, j, Bar) || Closed(ts, j, 0, inArm) ==> Closed(ts, j, ARM_BODY_PREC, true)
    ensures Closed(ts, j, 0, inArm) ==> !IsMark(ts, j, Bar)
  {
  }

  lemma {:induction false} ArmShape(arm: Arm)
    requires ArmWellFormed(arm)
    ensures var printed := if arm.pattern.AnyArm? && arm.guard.None? then Kw(Else) else PrintArmPattern(arm.pattern);
            PrintArm(arm) == printed + (GuardTokens(arm) + (Sym(Arrow) + Print(arm.armBody, ARM_BODY_PREC)))
    ensures WellFormedArmPattern(arm.pattern) && WellFormed(arm.armBody) && (arm.guard.Some? ==> WellFormed(arm.guard.value))
    ensures forall b :: ArmExposes(arm, b) == (GuardExposes(arm, b) || Exposes(arm.armBody, ARM_BODY_PREC, true))
  {
    hide Print, PrintArmPattern, Exposes, WellFormed, WellFormedArmPattern;
  }

  function GuardTokens(arm: Arm): seq<Token> {
    match arm.guard
    case None => []
    case Some(g) => Kw(If) + Print(g, GUARD_PREC)
  }

  predicate GuardExposes(arm: Arm, inArm: bool) {
    arm.guard.Some? && Exposes(arm.guard.value, GUARD_PREC, inArm)
  }

  /** One arm, up to the separator or the end of the case. */
  lemma {:induction false} ArmParses(arm: Arm, ts: seq<Token>, i: nat, inArm: bool)
    requires ArmWellFormed(arm) && At(ts, i, PrintArm(arm))
    requires Closed(ts, i + |PrintArm(arm)|, ARM_BODY_PREC, true)
    ensures var end := i + |PrintArm(arm)|;
            if ArmExposes(arm, inArm) then ParseArms(ts, i, inArm) == None
            else ParseArms(ts, i, inArm) == AfterArm(ts, arm, end, inArm)
    decreases arm, 1, 0
  {
    hide ParseExpr, ParseArms, ParseGuard, ParseArmPattern, PrintArmPattern, WellFormedArmPattern, Print, PrintArm, Exposes,
         WellFormed, ArmWellFormed, ArmExposes, At, Closed, GuardTokens, GuardExposes;
    ArmShape(arm);
    var printed := if arm.pattern.AnyArm? && arm.guard.None? then Kw(Else) else PrintArmPattern(arm.pattern);
    var guard, body := GuardTokens(arm), Print(arm.armBody, ARM_BODY_PREC);
    AtSplit(ts, i, printed, guard + (Sym(Arrow) + body));
    var i1 := i + |printed|;
    AtSplit(ts, i1, guard, Sym(Arrow) + body);
    var i2 := i1 + |guard|;
    AtToken(ts, i2, Symbol(Arrow), body);
    GuardParses(arm, ts, i1, inArm);
    ArmPatternParses(arm.pattern, printed, ts, i);
    FullParses(arm.armBody, ARM_BODY_PREC, ts, i2 + 1, true);
    ArmStep(ts, i, arm.pattern, i1, inArm);
  }

  /** The arm list that starts with `arm` read up to `end`. */
  function AfterArm(ts: seq<Token>, arm: Arm, end: nat, inArm: bool): Parsed<seq<Arm>> {
    if !IsMark(ts, end, Bar) then Some(([arm], end))
    else if arm.pattern.AnyArm? && arm.guard.None? then None
    else
      var (more, i5) :- ParseArms(ts, end + 1, inArm);
      Some(([arm] + more, i5))
  }

  lemma {:induction false} ArmStep(ts: seq<Token>, i: nat, pattern: ArmPattern, i1: nat, inArm: bool)
    requires ParseArmPattern(ts, i) == Some((pattern, i1))
    ensures ParseArms(ts, i, inArm)
            == match ParseGuard(ts, i1, inArm)
               case None => None
               case Some((guard, i2)) =>
                 if !IsMark(ts, i2, Arrow) then None
                 else match ParseExpr(ts, i2 + 1, true)
                      case None => None
                      case Some((body, i4)) => AfterArm(ts, Arm(pattern, guard, body), i4, inArm)
  {
    hide ParseExpr, ParseArmPattern, ParseGuard;
  }

  lemma {:induction false} GuardParses(arm: Arm, ts: seq<Token>, i: nat, inArm: bool)
    requires ArmWellFormed(arm) && At(ts, i, GuardTokens(arm))
    requires IsMark(ts, i + |GuardTokens(arm)|, Arrow)
    ensures var r := ParseGuard(ts, i, inArm);
            if GuardExposes(arm, inArm) then r.None? || !IsMark(ts, r.value.1, Arrow)
            else r == Some((arm.guard, i + |GuardTokens(arm)|))
    ensures arm.guard.Some? ==> Peek(ts, i) == Ident(If)
    ensures arm.guard.None? ==> GuardTokens(arm) == []
    decreases arm, 0, 0
  {
    hide ParseExpr, Print, Exposes, WellFormed, At;
    ArmShape(arm);
    if arm.guard.Some? {
      AtToken(ts, i, Ident(If), Print(arm.guard.value, GUARD_PREC));
      SubParses(arm.guard.value, GUARD_PREC, ts, i + 1, inArm);
    }
  }

  // ---------------------------------------------------------------- main results

  /** Printing at any precedence the printer uses and parsing the result back
      gives the same tree, except that an exposed separator is a syntax error. */
  lemma {:induction false} PrintThenParse(e: Expr, p: nat)
    requires WellFormed(e) && p <= FIELD_PREC
    ensures ParseSource(Print(e, p)) == if Exposes(e, p, false) then None else Some(e)
  {
    hide ParseExpr, Print, Exposes;
    var q := if p <= 2 then p else 2;
    if Wrapped(e, p) == Wrapped(e, q) {
      SameContext(e, p, q);
      var ts := Print(e, q);
      assert ts[0..0 + |ts|] == ts;
      FullParses(e, q, ts, 0, false);
    } else {
      WrappedSource(e, p);
    }
  }

  lemma {:induction false} WrappedSource(e: Expr, p: nat)
    requires WellFormed(e) && 2 < p <= FIELD_PREC && Wrapped(e, p)
    ensures ParseSource(Print(e, p)) == if Exposes(e, p, false) then None else Some(e)
  {
    hide ParseUnary, Print, Exposes, ParseExpr;
    var ts := Print(e, p);
    assert ts[0..0 + |ts|] == ts;
    WrappedShape(e, p);
    assert ts[0] == Symbol(LParen);
    OperatorsShape(ts, 0, false);
    TightParses(e, p, ts, 0, false);
    EndStops(ts, e);
  }

  lemma {:induction false} EndStops(ts: seq<Token>, e: Expr)
    ensures BinaryLoop(ts, e, |ts|, 1, false) == Some((e, |ts|))
    ensures Settled(ts, |ts|) && !IsMark(ts, |ts|, Equals) && Peek(ts, |ts|) == Eof
  {
  }

  /** Different trees print apart, wherever one of them re-parses. */
  lemma {:induction false} PrintingIsInjective(e: Expr, f: Expr, p: nat, q: nat)
    requires WellFormed(e) && WellFormed(f) && p <= FIELD_PREC && q <= FIELD_PREC
    requires Print(e, p) == Print(f, q) && !Exposes(e, p, false)
    ensures e == f
  {
    PrintThenParse(e, p);
    PrintThenParse(f, q);
  }

  /** `case s of v => a[x | y]`: the index bracket keeps the arm flag, so a
      well-formed tree does not survive printing. */
  lemma {:induction false} IndexInArmBody(s: Word, v: Word, a: Word, x: Word, y: Word)
    returns (e: Expr)
    requires !Reserved(s) && !ReservedVariant(v) && !Reserved(a) && !Reserved(x) && !Reserved(y)
    ensures e == CaseOf(Name(s), [Arm(VariantArm(v, None), None, Index(Name(a), Binary(BitOr, Name(x), Name(y))))])
    ensures WellFormed(e) && ParseSource(Print(e, 0)) == None
  {
    e := CaseOf(Name(s), [Arm(VariantArm(v, None), None, BarIndexed(a, x, y))]);
    BarIndexedExposes(a, x, y);
    OneArm(Name(s), v, BarIndexed(a, x, y));
    PrintThenParse(e, 0);
  }

  function BarIndexed(a: Word, x: Word, y: Word): Expr {
    Index(Name(a), Binary(BitOr, Name(x), Name(y)))
  }

  lemma {:induction false} BarIndexedExposes(a: Word, x: Word, y: Word)
    requires !Reserved(a) && !Reserved(x) && !Reserved(y)
    ensures WellFormed(BarIndexed(a, x, y)) && Exposes(BarIndexed(a, x, y), ARM_BODY_PREC, true)
  {
    assert Exposes(Binary(BitOr, Name(x), Name(y)), 0, true);
  }

  /** A one-armed case exposes what its body exposes. */
  lemma {:induction false} OneArm(scrutinee: Expr, v: Word, body: Expr)
    requires WellFormed(scrutinee) && !ReservedVariant(v) && WellFormed(body)
    ensures var e := CaseOf(scrutinee, [Arm(VariantArm(v, None), None, body)]);
            WellFormed(e) && (Exposes(body, ARM_BODY_PREC, true) ==> Exposes(e, 0, false))
  {
    var arm := Arm(VariantArm(v, None), None, body);
    var e := CaseOf(scrutinee, [arm]);
    assert ArmWellFormed(arm);
    CaseIs(scrutinee, [arm]);
    assert ArmsWellFormed([arm]);
    assert ArmExposes(arm, false) == Exposes(body, ARM_BODY_PREC, true);
  }

  lemma {:induction false} CaseIs(scrutinee: Expr, arms: seq<Arm>)
    requires arms != []
    ensures WellFormed(CaseOf(scrutinee, arms)) == (WellFormed(scrutinee) && ArmsWellFormed(arms))
    ensures ArmExposes(arms[0], false) ==> Exposes(CaseOf(scrutinee, arms), 0, false)
    ensures |arms| == 1 && arms[0].pattern.VariantArm? && ArmWellFormed(arms[0]) ==> ArmsWellFormed(arms)
  {
    hide ArmExposes, ArmWellFormed;
    var e := CaseOf(scrutinee, arms);
    assert Exposes(e, 0, false) == ExposesBare(e, false) == (Exposes(scrutinee, 0, false) || AnyArmExposes(arms, false));
  }
}
