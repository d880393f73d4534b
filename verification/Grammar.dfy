/** Specification of the precedence-climbing parser: every function returns the
    tree and the position after it, or `None` on a syntax error. `inArm` is the
    flag that turns a top-level `|` into the arm separator. */
module Grammar {
  import opened Wrappers
  import opened Syntax

  type Parsed<T> = Option<(T, nat)>

  function Peek(ts: seq<Token>, i: nat): Token {
    if i < |ts| then ts[i] else Eof
  }

  predicate IsMark(ts: seq<Token>, i: nat, m: Mark) { Peek(ts, i) == Symbol(m) }

  predicate IsWord(ts: seq<Token>, i: nat, w: Word) { Peek(ts, i) == Ident(w) }

  /** The binary operator at a position, looking one token further for shifts. */
  function OpAt(ts: seq<Token>, i: nat): Option<BinOp> {
    match Peek(ts, i)
    case Symbol(m) =>
      (match m
       case Less => if IsMark(ts, i + 1, Less) then Some(Shl) else Some(Lt)
       case Greater => if IsMark(ts, i + 1, Greater) then Some(Shr) else Some(Gt)
       case Plus => Some(Add)
       case Minus => Some(Sub)
       case Star => Some(Mul)
       case Slash => Some(Div)
       case Percent => Some(Rem)
       case Amp => Some(BitAnd)
       case Bar => Some(BitOr)
       case Caret => Some(BitXor)
       case EqEq => Some(Eq)
       case NotEq => Some(Ne)
       case LessEq => Some(Le)
       case GreaterEq => Some(Ge)
       case AmpAmp => Some(And)
       case BarBar => Some(Or)
       case _ => None)
    case _ => None
  }

  ghost predicate Advances<T>(ts: seq<Token>, i: nat, r: Parsed<T>) {
    r.Some? ==> i < r.value.1 <= |ts|
  }

  function ParseExpr(ts: seq<Token>, i: nat, inArm: bool): (r: Parsed<Expr>)
    ensures Advances(ts, i, r)
    decreases |ts| - i, 9, 0
  {
    match Peek(ts, i)
    case Ident(Let) => ParseLet(ts, i, inArm)
    case Ident(Return) => ParseReturn(ts, i, inArm)
    case Ident(If) => ParseIf(ts, i, inArm)
    case Ident(Fold) => ParseFold(ts, i, inArm)
    case Ident(Loop) => ParseLoop(ts, i, inArm)
    case Ident(Case) => ParseCase(ts, i, inArm)
    case _ => ParseAssignment(ts, i, inArm)
  }

  function ParseLet(ts: seq<Token>, i: nat, inArm: bool): (r: Parsed<Expr>)
    requires i < |ts|
    ensures Advances(ts, i, r)
    decreases |ts| - i, 8, 0
  {
    var (name, i1) :- ParseWord(ts, i + 1);
    var i2 :- Expect(ts, i1, Symbol(Colon));
    var (ty, i3) :- ParseWord(ts, i2);
    var i4 :- Expect(ts, i3, Symbol(Equals));
    var (bound, i5) :- ParseExpr(ts, i4, inArm);
    var i6 :- Expect(ts, i5, Ident(In));
    var (body, i7) :- ParseExpr(ts, i6, inArm);
    Some((LetIn(name, ty, bound, body), i7))
  }

  function ParseReturn(ts: seq<Token>, i: nat, inArm: bool): (r: Parsed<Expr>)
    requires i < |ts|
    ensures Advances(ts, i, r)
    decreases |ts| - i, 8, 0
  {
    var (result, i1) :- ParseExpr(ts, i + 1, inArm);
    Some((ReturnExpr(result), i1))
  }

  function ParseIf(ts: seq<Token>, i: nat, inArm: bool): (r: Parsed<Expr>)
    requires i < |ts|
    ensures Advances(ts, i, r)
    decreases |ts| - i, 8, 0
  {
    var (cond, i1) :- ParseExpr(ts, i + 1, inArm);
    var i2 :- Expect(ts, i1, Ident(Then));
    var (thenExpr, i3) :- ParseExpr(ts, i2, inArm);
    var i4 :- Expect(ts, i3, Ident(Else));
    var (elseExpr, i5) :- ParseExpr(ts, i4, inArm);
    Some((IfElse(cond, thenExpr, elseExpr), i5))
  }

  function ParseFold(ts: seq<Token>, i: nat, inArm: bool): (r: Parsed<Expr>)
    requires i < |ts|
    ensures Advances(ts, i, r)
    decreases |ts| - i, 8, 0
  {
    var (item, i1) :- ParseWord(ts, i + 1);
    var i2 :- Expect(ts, i1, Ident(In));
    var (sequence, i3) :- ParseExpr(ts, i2, inArm);
    var i4 :- Expect(ts, i3, Ident(With));
    var (acc, i5) :- ParseWord(ts, i4);
    var i6 :- Expect(ts, i5, Symbol(Equals));
    var (init, i7) :- ParseExpr(ts, i6, inArm);
    var i8 :- Expect(ts, i7, Ident(Do));
    var (step, i9) :- ParseExpr(ts, i8, inArm);
    Some((FoldIn(item, sequence, acc, init, step), i9))
  }

  function ParseLoop(ts: seq<Token>, i: nat, inArm: bool): (r: Parsed<Expr>)
    requires i < |ts|
    ensures Advances(ts, i, r)
    decreases |ts| - i, 8, 0
  {
    var (acc, i1) :- ParseWord(ts, i + 1);
    var i2 :- Expect(ts, i1, Symbol(Equals));
    var (init, i3) :- ParseExpr(ts, i2, inArm);
    var i4 :- Expect(ts, i3, Ident(While));
    var (cond, i5) :- ParseExpr(ts, i4, inArm);
    var i6 :- Expect(ts, i5, Ident(Do));
    var (body, i7) :- ParseExpr(ts, i6, inArm);
    Some((LoopWhile(acc, init, cond, body), i7))
  }

  function ParseCase(ts: seq<Token>, i: nat, inArm: bool): (r: Parsed<Expr>)
    requires i < |ts|
    ensures Advances(ts, i, r)
    decreases |ts| - i, 8, 0
  {
    var (scrutinee, i1) :- ParseExpr(ts, i + 1, inArm);
    var i2 :- Expect(ts, i1, Ident(Of));
    var (arms, i3) :- ParseArms(ts, i2, inArm);
    Some((CaseOf(scrutinee, arms), i3))
  }

  function ParseWord(ts: seq<Token>, i: nat): (r: Parsed<Word>)
    ensures r.Some? ==> r.value.1 == i + 1 <= |ts|
  {
    match Peek(ts, i)
    case Ident(w) => Some((w, i + 1))
    case _ => None
  }

  function Expect(ts: seq<Token>, i: nat, t: Token): (r: Option<nat>)
    requires t != Eof
    ensures r.Some? ==> r.value == i + 1 <= |ts|
  {
    if Peek(ts, i) == t then Some(i + 1) else None
  }

  // ---------------------------------------------------------------- case arms

  function ParseArms(ts: seq<Token>, i: nat, inArm: bool): (r: Parsed<seq<Arm>>)
    ensures Advances(ts, i, r)
    decreases |ts| - i, 8, 1
  {
    var (arm, i1) :- ParseArm(ts, i, inArm);
    if !IsMark(ts, i1, Bar) then Some(([arm], i1))
    else if arm.pattern.AnyArm? && arm.guard.None? then None
    else
      var (arms, i2) :- ParseArms(ts, i1 + 1, inArm);
      Some(([arm] + arms, i2))
  }

  function ParseArm(ts: seq<Token>, i: nat, inArm: bool): (r: Parsed<Arm>)
    ensures Advances(ts, i, r)
    decreases |ts| - i, 8, 0
  {
    var (pattern, i1) :- ParseArmPattern(ts, i);
    var (guard, i2) :- ParseGuard(ts, i1, inArm);
    var i3 :- Expect(ts, i2, Symbol(Arrow));
    var (body, i4) :- ParseExpr(ts, i3, true);
    Some((Arm(pattern, guard, body), i4))
  }

  function ParseGuard(ts: seq<Token>, i: nat, inArm: bool): (r: Parsed<Option<Expr>>)
    ensures r.Some? ==> i <= r.value.1 && (i <= |ts| ==> r.value.1 <= |ts|)
    decreases |ts| - i, 10, 0
  {
    if IsWord(ts, i, If) then
      var (guard, i1) :- ParseExpr(ts, i + 1, inArm);
      Some((Some(guard), i1))
    else Some((None, i))
  }

  function ParseArmPattern(ts: seq<Token>, i: nat): (r: Parsed<ArmPattern>)
    ensures Advances(ts, i, r)
  {
    match Peek(ts, i)
    case Ident(Else) => Some((AnyArm, i + 1))
    case Ident(Default) => Some((AnyArm, i + 1))
    case Ident(Underscore) => Some((AnyArm, i + 1))
    case Ident(True) => if IsMark(ts, i + 1, DotDot) then None else Some((BoolArm(true), i + 1))
    case Ident(False) => if IsMark(ts, i + 1, DotDot) then None else Some((BoolArm(false), i + 1))
    case Ident(variant) =>
      if IsMark(ts, i + 1, LParen) then
        var (sub, i1) :- ParsePattern(ts, i + 2);
        var i2 :- Expect(ts, i1, Symbol(RParen));
        Some((VariantArm(variant, if sub == Wildcard then None else Some(sub)), i2))
      else Some((VariantArm(variant, None), i + 1))
    case _ =>
      var (lo, i1) :- ParseInt(ts, i);
      if IsMark(ts, i1, DotDot) then
        var inclusive := IsMark(ts, i1 + 1, Equals);
        var (hi, i2) :- ParseInt(ts, if inclusive then i1 + 2 else i1 + 1);
        Some((RangeArm(lo, hi, inclusive), i2))
      else Some((IntArm(lo), i1))
  }

  function ParseInt(ts: seq<Token>, i: nat): (r: Parsed<IntPattern>)
    ensures Advances(ts, i, r)
  {
    match Peek(ts, i)
    case Number(digits) => Some((IntPattern(false, digits), i + 1))
    case Symbol(Minus) =>
      (match Peek(ts, i + 1)
       case Number(digits) => Some((IntPattern(true, digits), i + 2))
       case _ => None)
    case _ => None
  }

  function ParsePattern(ts: seq<Token>, i: nat): (r: Parsed<Pattern>)
    ensures Advances(ts, i, r)
    decreases |ts| - i
  {
    if IsWord(ts, i, Underscore) then Some((Wildcard, i + 1))
    else
      var (w, i1) :- ParseWord(ts, i);
      if IsMark(ts, i1, LParen) then
        var (sub, i2) :- ParsePattern(ts, i1 + 1);
        var i3 :- Expect(ts, i2, Symbol(RParen));
        Some((Nested(w, sub), i3))
      else Some((Binding(w), i1))
  }

  // ---------------------------------------------------------------- operators

  function ParseAssignment(ts: seq<Token>, i: nat, inArm: bool): (r: Parsed<Expr>)
    ensures Advances(ts, i, r)
    decreases |ts| - i, 7, 0
  {
    var (target, i1) :- ParseBinary(ts, i, 1, inArm);
    if IsMark(ts, i1, Equals) then
      var (newValue, i2) :- ParseExpr(ts, i1 + 1, inArm);
      Some((Assign(target, newValue), i2))
    else Some((target, i1))
  }

  function ParseBinary(ts: seq<Token>, i: nat, min: nat, inArm: bool): (r: Parsed<Expr>)
    ensures Advances(ts, i, r)
    decreases |ts| - i, 6, 0
  {
    var (left, i1) :- ParseUnary(ts, i, inArm);
    BinaryLoop(ts, left, i1, min, inArm)
  }

  /** The climbing loop with `left` parsed so far. */
  function BinaryLoop(ts: seq<Token>, left: Expr, i: nat, min: nat, inArm: bool): (r: Parsed<Expr>)
    ensures i <= |ts| && r.Some? ==> i <= r.value.1 <= |ts|
    decreases |ts| - i, 5, 0
  {
    match OpAt(ts, i)
    case None => Some((left, i))
    case Some(op) =>
      if (op == BitOr && inArm) || Prec(op) < min then Some((left, i))
      else
        var (right, i1) :- ParseBinary(ts, i + |OpMarks(op)|, Prec(op) + 1, inArm);
        BinaryLoop(ts, Binary(op, left, right), i1, min, inArm)
  }

  function ParseUnary(ts: seq<Token>, i: nat, inArm: bool): (r: Parsed<Expr>)
    ensures Advances(ts, i, r)
    decreases |ts| - i, 4, 0
  {
    match Peek(ts, i)
    case Symbol(Minus) =>
      var (e, i1) :- ParseUnary(ts, i + 1, inArm);
      Some((Unary(Neg, e), i1))
    case Symbol(Bang) =>
      var (e, i1) :- ParseUnary(ts, i + 1, inArm);
      Some((Unary(Not, e), i1))
    case Symbol(Tilde) =>
      var (e, i1) :- ParseUnary(ts, i + 1, inArm);
      Some((Unary(Complement, e), i1))
    case Symbol(Amp) =>
      var (region, i1) :- ParseRegion(ts, i + 1);
      var mutable := IsWord(ts, i1, Mut);
      var (e, i2) :- ParseUnary(ts, if mutable then i1 + 1 else i1, inArm);
      Some((Borrow(region, mutable, e), i2))
    case _ => ParsePostfix(ts, i, inArm)
  }

  function ParseRegion(ts: seq<Token>, i: nat): (r: Parsed<Option<Word>>)
    ensures r.Some? ==> i <= r.value.1 <= i + 2
  {
    if IsMark(ts, i, Quote) then
      var (w, i1) :- ParseWord(ts, i + 1);
      Some((Some(w), i1))
    else Some((None, i))
  }

  // ---------------------------------------------------------------- postfix and primary

  function ParsePostfix(ts: seq<Token>, i: nat, inArm: bool): (r: Parsed<Expr>)
    ensures Advances(ts, i, r)
    decreases |ts| - i, 3, 0
  {
    var (e, i1) :- ParsePrimary(ts, i);
    PostfixLoop(ts, e, i1, inArm)
  }

  /** The index expression is read with the arm flag as it stands. */
  function PostfixLoop(ts: seq<Token>, e: Expr, i: nat, inArm: bool): (r: Parsed<Expr>)
    ensures i <= |ts| && r.Some? ==> i <= r.value.1 <= |ts|
    decreases |ts| - i, 2, 0
  {
    if IsMark(ts, i, LBracket) then
      var (index, i1) :- ParseExpr(ts, i + 1, inArm);
      var i2 :- Expect(ts, i1, Symbol(RBracket));
      PostfixLoop(ts, Index(e, index), i2, inArm)
    else if IsMark(ts, i, Dot) then
      var (field, i1) :- ParseWord(ts, i + 1);
      PostfixLoop(ts, Field(e, field), i1, inArm)
    else Some((e, i))
  }

  /** A leaf or a fully delimited form; nothing inside it ends at `|`. */
  function ParsePrimary(ts: seq<Token>, i: nat): (r: Parsed<Expr>)
    ensures Advances(ts, i, r)
    decreases |ts| - i, 1, 0
  {
    match Peek(ts, i)
    case Number(digits) => Some((LitInt(digits), i + 1))
    case Text(value) => Some((LitText(value), i + 1))
    case Bytes(hex) => Some((LitBytes(hex), i + 1))
    case Ident(True) => Some((LitBool(true), i + 1))
    case Ident(False) => Some((LitBool(false), i + 1))
    case Ident(first) => ParseNamed(ts, i, first)
    case Symbol(LParen) =>
      if IsMark(ts, i + 1, RParen) then Some((Unit, i + 2))
      else
        var (e, i1) :- ParseExpr(ts, i + 1, false);
        var i2 :- Expect(ts, i1, Symbol(RParen));
        Some((e, i2))
    case Symbol(LBrace) =>
      var (fields, i1) :- ParseFields(ts, i + 1);
      Some((Record(fields), i1))
    case Symbol(LBracket) => ParseBracketed(ts, i)
    case _ => None
  }

  /** A name, call or enum constructor starting with the identifier at `i`. */
  function ParseNamed(ts: seq<Token>, i: nat, first: Word): (r: Parsed<Expr>)
    requires i < |ts|
    ensures Advances(ts, i, r)
    decreases |ts| - i, 0, 0
  {
    var (more, i1) :- ParsePathTail(ts, i + 1);
    if IsMark(ts, i1, ColonColon) then
      var (variant, i2) :- ParseWord(ts, i1 + 1);
      if IsMark(ts, i2, LParen) then
        var (payload, i3) :- ParseExpr(ts, i2 + 1, false);
        var i4 :- Expect(ts, i3, Symbol(RParen));
        Some((Construct([first] + more, variant, payload), i4))
      else Some((Construct([first] + more, variant, Unit), i2))
    else if IsMark(ts, i1, LParen) then
      if IsMark(ts, i1 + 1, RParen) then Some((Call([first] + more, []), i1 + 2))
      else
        var (args, i2) :- ParseItems(ts, i1 + 1, RParen);
        Some((Call([first] + more, args), i2))
    else Some((FieldChain(Name(first), more), i1))
  }

  /** An array literal or fill starting with the bracket at `i`. */
  function ParseBracketed(ts: seq<Token>, i: nat): (r: Parsed<Expr>)
    requires i < |ts|
    ensures Advances(ts, i, r)
    decreases |ts| - i, 0, 0
  {
    if IsMark(ts, i + 1, RBracket) then None
    else
      var (first, i1) :- ParseExpr(ts, i + 1, false);
      if IsMark(ts, i1, Semicolon) then
        var (count, i2) :- ParseExpr(ts, i1 + 1, false);
        if !count.LitInt? then None
        else
          var i3 :- Expect(ts, i2, Symbol(RBracket));
          Some((ArrayFill(first, count.digits), i3))
      else if IsMark(ts, i1, RBracket) then Some((Array([first]), i1 + 1))
      else
        var i2 :- Expect(ts, i1, Symbol(Comma));
        var (rest, i3) :- ParseItems(ts, i2, RBracket);
        Some((Array([first] + rest), i3))
  }

  /** The `.word` suffixes of a name. */
  function ParsePathTail(ts: seq<Token>, i: nat): (r: Parsed<seq<Word>>)
    ensures r.Some? ==> i <= r.value.1 && (i <= |ts| ==> r.value.1 <= |ts|)
    decreases |ts| - i
  {
    if !IsMark(ts, i, Dot) then Some(([], i))
    else
      var (w, i1) :- ParseWord(ts, i + 1);
      var (ws, i2) :- ParsePathTail(ts, i1);
      Some(([w] + ws, i2))
  }

  /** A dotted name without a call is a chain of field accesses. */
  function FieldChain(e: Expr, fields: seq<Word>): Expr
    decreases |fields|
  {
    if fields == [] then e else FieldChain(Field(e, fields[0]), fields[1..])
  }

  /** Items separated by commas up to the closing mark. */
  function ParseItems(ts: seq<Token>, i: nat, close: Mark): (r: Parsed<seq<Expr>>)
    ensures Advances(ts, i, r)
    decreases |ts| - i, 10, 0
  {
    var (e, i1) :- ParseExpr(ts, i, false);
    if IsMark(ts, i1, close) then Some(([e], i1 + 1))
    else
      var i2 :- Expect(ts, i1, Symbol(Comma));
      var (rest, i3) :- ParseItems(ts, i2, close);
      Some(([e] + rest, i3))
  }

  function ParseFields(ts: seq<Token>, i: nat): (r: Parsed<seq<FieldInit>>)
    ensures Advances(ts, i, r)
    decreases |ts| - i, 10, 0
  {
    var (name, i1) :- ParseWord(ts, i);
    var i2 :- Expect(ts, i1, Symbol(Colon));
    var (value, i3) :- ParseExpr(ts, i2, false);
    var field := FieldInit(name, value);
    if IsMark(ts, i3, RBrace) then Some(([field], i3 + 1))
    else
      var i4 :- Expect(ts, i3, Symbol(Comma));
      var (rest, i5) :- ParseFields(ts, i4);
      Some(([field] + rest, i5))
  }

  /** A whole source expression: the tree must end at the end of the tokens. */
  function ParseSource(ts: seq<Token>): Option<Expr> {
    var (e, i) :- ParseExpr(ts, 0, false);
    if Peek(ts, i) == Eof then Some(e) else None
  }
}
