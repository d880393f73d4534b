/** Surface expressions, their tokens, and the printer.

    Tokens are those of the lexer with comments dropped. An identifier is one
    of the words the parser tests for, or any other name. */
module Syntax {
  import opened Wrappers

  datatype Word =
    | Let | In | Return | If | Then | Else | Fold | With | Do | Loop | While | Case | Of
    | Default | Underscore | True | False | Mut
    | Other(name: string)

  datatype BinOp =
    | Add | Sub | Mul | Div | Rem | BitAnd | BitOr | BitXor | Shl | Shr
    | Eq | Ne | Lt | Le | Gt | Ge | And | Or

  datatype UnOp = Neg | Not | Complement

  datatype Mark =
    | LParen | RParen | LBracket | RBracket | LBrace | RBrace | Comma | Semicolon | Colon
    | ColonColon | Dot | DotDot | Equals | Arrow | Quote
    | Plus | Minus | Star | Slash | Percent | Amp | Bar | Caret | Less | Greater
    | EqEq | NotEq | LessEq | GreaterEq | AmpAmp | BarBar | Bang | Tilde

  datatype Token =
    | Ident(word: Word)
    | Number(digits: string)
    | Text(value: string)
    | Bytes(hex: string)
    | Symbol(mark: Mark)
    | Eof

  datatype Expr =
    | LitInt(digits: string)
    | LitBool(flag: bool)
    | LitText(value: string)
    | LitBytes(hex: string)
    | Unit
    | Name(word: Word)
    | Call(path: seq<Word>, args: seq<Expr>)
    | Binary(op: BinOp, left: Expr, right: Expr)
    | Unary(unop: UnOp, operand: Expr)
    | Borrow(region: Option<Word>, mutable: bool, referent: Expr)
    | Assign(target: Expr, newValue: Expr)
    | LetIn(name: Word, ty: Word, bound: Expr, body: Expr)
    | IfElse(cond: Expr, thenExpr: Expr, elseExpr: Expr)
    | ReturnExpr(result: Expr)
    | FoldIn(item: Word, sequence: Expr, acc: Word, init: Expr, step: Expr)
    | LoopWhile(loopAcc: Word, loopInit: Expr, loopCond: Expr, loopBody: Expr)
    | Array(elements: seq<Expr>)
    | ArrayFill(fill: Expr, count: string)
    | Index(base: Expr, index: Expr)
    | Record(fields: seq<FieldInit>)
    | Field(owner: Expr, field: Word)
    | Construct(enumPath: seq<Word>, variant: Word, payload: Expr)
    | CaseOf(scrutinee: Expr, arms: seq<Arm>)

  datatype FieldInit = FieldInit(fieldName: Word, value: Expr)

  datatype Arm = Arm(pattern: ArmPattern, guard: Option<Expr>, armBody: Expr)

  datatype IntPattern = IntPattern(negative: bool, digits: string)

  datatype ArmPattern =
    | AnyArm
    | IntArm(int_: IntPattern)
    | BoolArm(bool_: bool)
    | RangeArm(lo: IntPattern, hi: IntPattern, inclusive: bool)
    | VariantArm(variant: Word, payload: Option<Pattern>)

  datatype Pattern =
    | Wildcard
    | Binding(name: Word)
    | Nested(variant: Word, sub: Pattern)

  // ---------------------------------------------------------------- precedence

  const ASSIGN_PREC: nat := 1
  const UNARY_PREC: nat := 70
  const FIELD_PREC: nat := 80
  const ARM_BODY_PREC: nat := 2
  const GUARD_PREC: nat := 1

  function Prec(op: BinOp): (p: nat)
    ensures 1 <= p < UNARY_PREC
    ensures op != BitOr ==> p > ARM_BODY_PREC
  {
    match op
    case BitOr => 1
    case Or => 10
    case And => 20
    case BitXor => 24
    case BitAnd => 26
    case Eq => 30
    case Ne => 30
    case Lt => 40
    case Le => 40
    case Gt => 40
    case Ge => 40
    case Shl => 45
    case Shr => 45
    case Add => 50
    case Sub => 50
    case Mul => 60
    case Div => 60
    case Rem => 60
  }

  /** Shifts are two adjacent tokens, so that nested type arguments can close. */
  function OpMarks(op: BinOp): (m: seq<Mark>)
    ensures 1 <= |m| <= 2
  {
    match op
    case Add => [Plus]
    case Sub => [Minus]
    case Mul => [Star]
    case Div => [Slash]
    case Rem => [Percent]
    case BitAnd => [Amp]
    case BitOr => [Bar]
    case BitXor => [Caret]
    case Shl => [Less, Less]
    case Shr => [Greater, Greater]
    case Eq => [EqEq]
    case Ne => [NotEq]
    case Lt => [Less]
    case Le => [LessEq]
    case Gt => [Greater]
    case Ge => [GreaterEq]
    case And => [AmpAmp]
    case Or => [BarBar]
  }

  function OpTokens(op: BinOp): (ts: seq<Token>)
    ensures |ts| == |OpMarks(op)|
  {
    var m := OpMarks(op);
    if |m| == 1 then [Symbol(m[0])] else [Symbol(m[0]), Symbol(m[1])]
  }

  function UnMark(op: UnOp): Mark {
    match op
    case Neg => Minus
    case Not => Bang
    case Complement => Tilde
  }

  // ---------------------------------------------------------------- printer

  function Sym(m: Mark): seq<Token> { [Symbol(m)] }

  function Kw(w: Word): seq<Token> { [Ident(w)] }

  function Parens(ts: seq<Token>): seq<Token> { Sym(LParen) + (ts + Sym(RParen)) }

  /** Whether the printer wraps `e` when the context has this precedence. */
  predicate Wrapped(e: Expr, parent: nat) {
    match e
    case Binary(op, _, _) => Prec(op) < parent
    case Unary(_, _) => UNARY_PREC < parent
    case Borrow(_, _, _) => UNARY_PREC < parent
    case Assign(_, _) => ASSIGN_PREC < parent
    case Index(_, _) => FIELD_PREC < parent
    case Field(_, _) => FIELD_PREC < parent
    case LetIn(_, _, _, _) => parent > 0
    case IfElse(_, _, _) => parent > 0
    case ReturnExpr(_) => parent > 0
    case FoldIn(_, _, _, _, _) => parent > 0
    case LoopWhile(_, _, _, _) => parent > 0
    case CaseOf(_, _) => parent > 0
    case _ => false
  }

  function Print(e: Expr, parent: nat): seq<Token>
    decreases e, 1
  {
    if Wrapped(e, parent) then Parens(PrintBare(e)) else PrintBare(e)
  }

  function PrintBare(e: Expr): seq<Token>
    decreases e, 0
  {
    match e
    case LitInt(digits) => [Number(digits)]
    case LitBool(flag) => Kw(if flag then True else False)
    case LitText(value) => [Text(value)]
    case LitBytes(hex) => [Bytes(hex)]
    case Unit => Sym(LParen) + Sym(RParen)
    case Name(word) => Kw(word)
    case Call(path, args) => PrintPath(path) + (Sym(LParen) + (PrintItems(args) + Sym(RParen)))
    case Binary(op, left, right) =>
      Print(left, Prec(op)) + (OpTokens(op) + Print(right, Prec(op) + 1))
    case Unary(unop, operand) => Sym(UnMark(unop)) + Print(operand, UNARY_PREC)
    case Borrow(region, mutable, referent) =>
      Sym(Amp) + (PrintRegion(region) + ((if mutable then Kw(Mut) else []) + Print(referent, UNARY_PREC)))
    case Assign(target, newValue) =>
      Print(target, ASSIGN_PREC + 1) + (Sym(Equals) + Print(newValue, ASSIGN_PREC))
    case LetIn(name, ty, bound, body) =>
      Kw(Let) + (Kw(name) + (Sym(Colon) + (Kw(ty) + (Sym(Equals) + (Print(bound, 0) + (Kw(In) + Print(body, 0)))))))
    case IfElse(cond, thenExpr, elseExpr) =>
      Kw(If) + (Print(cond, 0) + (Kw(Then) + (Print(thenExpr, 0) + (Kw(Else) + Print(elseExpr, 0)))))
    case ReturnExpr(result) => Kw(Return) + Print(result, 0)
    case FoldIn(item, sequence, acc, init, step) =>
      Kw(Fold) + (Kw(item) + (Kw(In) + (Print(sequence, 0) + (Kw(With) + (Kw(acc) + (Sym(Equals)
      + (Print(init, 0) + (Kw(Do) + Print(step, 0)))))))))
    case LoopWhile(acc, init, cond, body) =>
      Kw(Loop) + (Kw(acc) + (Sym(Equals) + (Print(init, 0) + (Kw(While) + (Print(cond, 0) + (Kw(Do) + Print(body, 0)))))))
    case Array(elements) => Sym(LBracket) + (PrintItems(elements) + Sym(RBracket))
    case ArrayFill(fill, count) => Sym(LBracket) + (Print(fill, 0) + (Sym(Semicolon) + ([Number(count)] + Sym(RBracket))))
    case Index(base, index) => Print(base, FIELD_PREC) + (Sym(LBracket) + (Print(index, 0) + Sym(RBracket)))
    case Record(fields) => Sym(LBrace) + (PrintFields(fields) + Sym(RBrace))
    case Field(owner, field) => Print(owner, FIELD_PREC) + (Sym(Dot) + Kw(field))
    case Construct(path, variant, payload) =>
      PrintPath(path) + (Sym(ColonColon) + (Kw(variant) + (if payload == Unit then [] else Parens(Print(payload, 0)))))
    case CaseOf(scrutinee, arms) =>
      Kw(Case) + (Print(scrutinee, 0) + (Kw(Of) + PrintArms(arms)))
  }

  function PrintRegion(region: Option<Word>): seq<Token> {
    match region
    case None => []
    case Some(r) => Sym(Quote) + Kw(r)
  }

  function PrintPath(path: seq<Word>): seq<Token> {
    if path == [] then [] else Kw(path[0]) + PrintPathTail(path[1..])
  }

  function PrintPathTail(path: seq<Word>): seq<Token> {
    if path == [] then [] else Sym(Dot) + (Kw(path[0]) + PrintPathTail(path[1..]))
  }

  /** Comma-separated items. */
  function PrintItems(items: seq<Expr>): seq<Token>
    decreases items, 0
  {
    if items == [] then []
    else if |items| == 1 then Print(items[0], 0)
    else Print(items[0], 0) + (Sym(Comma) + PrintItems(items[1..]))
  }

  function PrintFields(fields: seq<FieldInit>): seq<Token>
    decreases fields, 0
  {
    if fields == [] then []
    else
      if |fields| == 1 then PrintField(fields[0])
      else PrintField(fields[0]) + (Sym(Comma) + PrintFields(fields[1..]))
  }

  function PrintField(field: FieldInit): seq<Token>
    decreases field, 0
  {
    Kw(field.fieldName) + (Sym(Colon) + Print(field.value, 0))
  }

  function PrintArms(arms: seq<Arm>): seq<Token>
    decreases arms, 0
  {
    if arms == [] then []
    else if |arms| == 1 then PrintArm(arms[0])
    else PrintArm(arms[0]) + (Sym(Bar) + PrintArms(arms[1..]))
  }

  /** An unguarded catch-all prints as `else`, a guarded one as `_ if g`. */
  function PrintArm(arm: Arm): seq<Token>
    decreases arm, 0
  {
    (if arm.pattern.AnyArm? && arm.guard.None? then Kw(Else) else PrintArmPattern(arm.pattern))
    + ((match arm.guard case None => [] case Some(g) => Kw(If) + Print(g, GUARD_PREC))
       + (Sym(Arrow) + Print(arm.armBody, ARM_BODY_PREC)))
  }

  function PrintInt(p: IntPattern): seq<Token> {
    if p.negative then Sym(Minus) + [Number(p.digits)] else [Number(p.digits)]
  }

  function PrintArmPattern(p: ArmPattern): seq<Token> {
    match p
    case AnyArm => Kw(Underscore)
    case IntArm(i) => PrintInt(i)
    case BoolArm(b) => Kw(if b then True else False)
    case RangeArm(lo, hi, inclusive) =>
      PrintInt(lo) + (Sym(DotDot) + ((if inclusive then Sym(Equals) else []) + PrintInt(hi)))
    case VariantArm(variant, payload) =>
      Kw(variant) + (match payload case None => [] case Some(sub) => Parens(PrintPattern(sub)))
  }

  function PrintPattern(p: Pattern): seq<Token> {
    match p
    case Wildcard => Kw(Underscore)
    case Binding(name) => Kw(name)
    case Nested(variant, sub) => Kw(variant) + Parens(PrintPattern(sub))
  }

  // ---------------------------------------------------------------- well-formed expressions

  /** Words that cannot start a name in expression position. */
  predicate Reserved(w: Word) {
    w == Let || w == Return || w == If || w == Fold || w == Loop || w == Case
    || w == True || w == False || w == Mut
  }

  /** Words a variant pattern cannot be called. */
  predicate ReservedVariant(w: Word) {
    w == Else || w == Default || w == Underscore || w == True || w == False
  }

  predicate WellFormedPattern(p: Pattern) {
    match p
    case Wildcard => true
    case Binding(name) => name != Underscore
    case Nested(variant, sub) => variant != Underscore && WellFormedPattern(sub)
  }

  predicate WellFormedArmPattern(p: ArmPattern) {
    match p
    case VariantArm(variant, payload) =>
      // a wildcard payload is the absent payload
      !ReservedVariant(variant) && (payload.Some? ==> payload.value != Wildcard && WellFormedPattern(payload.value))
    case _ => true
  }

  /** Trees the printer is given: names are not keywords, lists the grammar
      wants non-empty are, an unguarded catch-all is last, and a borrow is not of a
      borrow. A `strict` tree moreover has no assignment as the left operand
      of `|`, which prints without parentheses. */
  predicate WellFormed(e: Expr, strict: bool := true)
    decreases e, 0
  {
    match e
    case LitInt(_) => true
    case LitBool(_) => true
    case LitText(_) => true
    case LitBytes(_) => true
    case Unit => true
    case Name(word) => !Reserved(word)
    case Call(path, args) => path != [] && !Reserved(path[0]) && AllWellFormed(args, strict)
    case Binary(op, left, right) => WellFormed(left, strict) && WellFormed(right, strict) && !(strict && op == BitOr && left.Assign?)
    case Unary(_, operand) => WellFormed(operand, strict)
    case Borrow(_, _, referent) => WellFormed(referent, strict) && !referent.Borrow?
    case Assign(target, newValue) => WellFormed(target, strict) && WellFormed(newValue, strict)
    case LetIn(_, _, bound, body) => WellFormed(bound, strict) && WellFormed(body, strict)
    case IfElse(cond, thenExpr, elseExpr) => WellFormed(cond, strict) && WellFormed(thenExpr, strict) && WellFormed(elseExpr, strict)
    case ReturnExpr(result) => WellFormed(result, strict)
    case FoldIn(_, sequence, _, init, step) => WellFormed(sequence, strict) && WellFormed(init, strict) && WellFormed(step, strict)
    case LoopWhile(_, init, cond, body) => WellFormed(init, strict) && WellFormed(cond, strict) && WellFormed(body, strict)
    case Array(elements) => elements != [] && AllWellFormed(elements, strict)
    case ArrayFill(fill, _) => WellFormed(fill, strict)
    case Index(base, index) => WellFormed(base, strict) && WellFormed(index, strict)
    case Record(fields) => fields != [] && FieldsWellFormed(fields, strict)
    case Field(owner, _) => WellFormed(owner, strict)
    case Construct(path, _, payload) => path != [] && !Reserved(path[0]) && WellFormed(payload, strict)
    case CaseOf(scrutinee, arms) => WellFormed(scrutinee, strict) && arms != [] && ArmsWellFormed(arms, strict)
  }

  predicate AllWellFormed(items: seq<Expr>, strict: bool := true)
    decreases items, 0
  {
    items != [] ==> WellFormed(items[0], strict) && AllWellFormed(items[1..], strict)
  }

  predicate FieldsWellFormed(fields: seq<FieldInit>, strict: bool := true)
    decreases fields, 0
  {
    fields != [] ==> FieldWellFormed(fields[0], strict) && FieldsWellFormed(fields[1..], strict)
  }

  predicate FieldWellFormed(field: FieldInit, strict: bool := true)
    decreases field, 0
  {
    WellFormed(field.value, strict)
  }

  predicate ArmsWellFormed(arms: seq<Arm>, strict: bool := true)
    decreases arms, 0
  {
    arms != [] ==>
      && ArmWellFormed(arms[0], strict)
      && (|arms| > 1 ==> !(arms[0].pattern.AnyArm? && arms[0].guard.None?))
      && ArmsWellFormed(arms[1..], strict)
  }

  predicate ArmWellFormed(arm: Arm, strict: bool := true)
    decreases arm, 0
  {
    && WellFormedArmPattern(arm.pattern)
    && (arm.guard.Some? ==> WellFormed(arm.guard.value, strict))
    && WellFormed(arm.armBody, strict)
  }

  // ---------------------------------------------------------------- exposed separators

  /** Whether the printed form of `e` holds a bitwise `|` that the parser, reading
      it with the given arm-body flag, takes for a case-arm separator. Only an
      index bracket inside an arm body can expose one: the other brackets clear
      the flag, and the printer parenthesizes a bare `|` in an arm body. */
  predicate Exposes(e: Expr, parent: nat, inArm: bool)
    decreases e, 1
  {
    ExposesBare(e, inArm && !Wrapped(e, parent))
  }

  predicate ExposesBare(e: Expr, inArm: bool)
    decreases e, 0
  {
    match e
    case LitInt(_) => false
    case LitBool(_) => false
    case LitText(_) => false
    case LitBytes(_) => false
    case Unit => false
    case Name(_) => false
    case Call(_, args) => AnyExposes(args)
    case Binary(op, left, right) =>
      (inArm && op == BitOr) || Exposes(left, Prec(op), inArm) || Exposes(right, Prec(op) + 1, inArm)
    case Unary(_, operand) => Exposes(operand, UNARY_PREC, inArm)
    case Borrow(_, _, referent) => Exposes(referent, UNARY_PREC, inArm)
    case Assign(target, newValue) => Exposes(target, ASSIGN_PREC + 1, inArm) || Exposes(newValue, ASSIGN_PREC, inArm)
    case LetIn(_, _, bound, body) => Exposes(bound, 0, inArm) || Exposes(body, 0, inArm)
    case IfElse(cond, thenExpr, elseExpr) =>
      Exposes(cond, 0, inArm) || Exposes(thenExpr, 0, inArm) || Exposes(elseExpr, 0, inArm)
    case ReturnExpr(result) => Exposes(result, 0, inArm)
    case FoldIn(_, sequence, _, init, step) =>
      Exposes(sequence, 0, inArm) || Exposes(init, 0, inArm) || Exposes(step, 0, inArm)
    case LoopWhile(_, init, cond, body) =>
      Exposes(init, 0, inArm) || Exposes(cond, 0, inArm) || Exposes(body, 0, inArm)
    case Array(elements) => AnyExposes(elements)
    case ArrayFill(fill, _) => Exposes(fill, 0, false)
    case Index(base, index) => Exposes(base, FIELD_PREC, inArm) || Exposes(index, 0, inArm)
    case Record(fields) => AnyFieldExposes(fields)
    case Field(owner, _) => Exposes(owner, FIELD_PREC, inArm)
    case Construct(_, _, payload) => Exposes(payload, 0, false)
    case CaseOf(scrutinee, arms) => Exposes(scrutinee, 0, inArm) || AnyArmExposes(arms, inArm)
  }

  predicate AnyExposes(items: seq<Expr>)
    decreases items, 0
  {
    items != [] && (Exposes(items[0], 0, false) || AnyExposes(items[1..]))
  }

  predicate AnyFieldExposes(fields: seq<FieldInit>)
    decreases fields, 0
  {
    fields != [] && (FieldExposes(fields[0]) || AnyFieldExposes(fields[1..]))
  }

  predicate FieldExposes(field: FieldInit)
    decreases field, 0
  {
    Exposes(field.value, 0, false)
  }

  predicate AnyArmExposes(arms: seq<Arm>, inArm: bool)
    decreases arms, 0
  {
    arms != [] && (ArmExposes(arms[0], inArm) || AnyArmExposes(arms[1..], inArm))
  }

  predicate ArmExposes(arm: Arm, inArm: bool)
    decreases arm, 0
  {
    (arm.guard.Some? && Exposes(arm.guard.value, GUARD_PREC, inArm)) || Exposes(arm.armBody, ARM_BODY_PREC, true)
  }
}
