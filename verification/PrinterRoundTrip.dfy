/** Printing and re-parsing. For every well-formed expression at every parent
    precedence the printed tokens parse back to the same tree exactly when no
    bitwise `|` is exposed to an enclosing arm body. */
module PrinterRoundTrip {
  import opened Wrappers
  import opened Syntax
  import opened Grammar

  // ---------------------------------------------------------------- tokens at a position

  predicate At(ts: seq<Token>, i: nat, xs: seq<Token>) {
    i + |xs| <= |ts| && ts[i..i + |xs|] == xs
  }

  lemma {:induction false} AtSplit(ts: seq<Token>, i: nat, a: seq<Token>, b: seq<Token>)
    requires At(ts, i, a + b)
    ensures At(ts, i, a) && At(ts, i + |a|, b)
  {
    assert a == (a + b)[..|a|] == ts[i..i + |a|];
    assert b == (a + b)[|a|..] == ts[i + |a|..i + |a| + |b|];
  }

  lemma {:induction false} AtToken(ts: seq<Token>, i: nat, t: Token, b: seq<Token>)
    requires At(ts, i, [t] + b)
    ensures Peek(ts, i) == t && i < |ts| && At(ts, i + 1, b)
  {
    AtSplit(ts, i, [t], b);
    assert ts[i] == ts[i..i + 1][0];
  }

  lemma {:induction false} AtLast(ts: seq<Token>, i: nat, t: Token)
    requires At(ts, i, [t])
    ensures Peek(ts, i) == t && i < |ts|
  {
    assert ts[i] == ts[i..i + 1][0];
  }

  // ---------------------------------------------------------------- what may follow

  /** No postfix or path continuation starts here. */
  predicate Settled(ts: seq<Token>, j: nat) {
    !IsMark(ts, j, LBracket) && !IsMark(ts, j, Dot) && !IsMark(ts, j, LParen) && !IsMark(ts, j, ColonColon)
  }

  /** The climbing loop at this minimum stops here. */
  predicate OpStops(ts: seq<Token>, j: nat, min: nat, inArm: bool) {
    match OpAt(ts, j)
    case None => true
    case Some(op) => (op == BitOr && inArm) || Prec(op) < min
  }

  /** What may follow a complete expression printed at precedence `p`. */
  predicate Closed(ts: seq<Token>, j: nat, p: nat, inArm: bool) {
    && Settled(ts, j)
    && !IsMark(ts, j, Equals)
    && (OpAt(ts, j) == None || (p == ARM_BODY_PREC && inArm && IsMark(ts, j, Bar)))
  }

  /** After the `.word` run from `j` neither a call nor a constructor follows. */
  predicate SafePath(ts: seq<Token>, j: nat) {
    match ParsePathTail(ts, j)
    case None => true
    case Some((_, m)) => !IsMark(ts, m, LParen) && !IsMark(ts, m, ColonColon)
  }

  /** The parser gave up, or stopped early at a separator. */
  predicate Fails(ts: seq<Token>, r: Parsed<Expr>, p: nat, inArm: bool) {
    r == None || (inArm && p <= 1 && IsMark(ts, r.value.1, Bar))
  }

  // ---------------------------------------------------------------- first tokens

  predicate StartToken(t: Token) {
    match t
    case Number(_) => true
    case Text(_) => true
    case Bytes(_) => true
    case Ident(w) => w != Mut
    case Symbol(m) =>
      m == LParen || m == LBracket || m == LBrace || m == Minus || m == Bang || m == Tilde || m == Amp
    case Eof => false
  }

  predicate StartsStatement(t: Token) {
    t == Ident(Let) || t == Ident(Return) || t == Ident(If) || t == Ident(Fold) || t == Ident(Loop) || t == Ident(Case)
  }

  lemma {:induction false} Starts(e: Expr, p: nat)
    requires WellFormed(e)
    ensures Print(e, p) != [] && StartToken(Print(e, p)[0])
    ensures p > 0 ==> !StartsStatement(Print(e, p)[0])
    decreases e, 1
  {
    if !Wrapped(e, p) {
      StartsBare(e);
    }
  }

  lemma {:induction false} StartsBare(e: Expr)
    requires WellFormed(e)
    ensures PrintBare(e) != [] && StartToken(PrintBare(e)[0])
    ensures !Wrapped(e, 1) ==> !StartsStatement(PrintBare(e)[0])
    decreases e, 0
  {
    if e.Binary? || e.Assign? || e.Index? || e.Field? {
      InfixStarts(e);
    } else if Wrapped(e, 1) {
      StatementStarts(e);
    } else {
      PrefixStarts(e);
    }
  }

  lemma {:induction false} InfixStarts(e: Expr)
    requires WellFormed(e) && (e.Binary? || e.Assign? || e.Index? || e.Field?)
    ensures PrintBare(e) != [] && StartToken(PrintBare(e)[0]) && !StartsStatement(PrintBare(e)[0])
    decreases e, -1
  {
    hide Print, StartToken, StartsStatement;
    match e
    case Binary(op, left, right) => Starts(left, Prec(op));
    case Assign(target, newValue) => Starts(target, ASSIGN_PREC + 1);
    case Index(base, index) => Starts(base, FIELD_PREC);
    case Field(owner, field) => Starts(owner, FIELD_PREC);
  }

  lemma {:induction false} StatementStarts(e: Expr)
    requires Wrapped(e, 1) && !e.Binary? && !e.Assign? && !e.Index? && !e.Field?
    ensures PrintBare(e) != [] && StartToken(PrintBare(e)[0])
  {
    hide Print, PrintArms;
  }

  lemma {:induction false} PrefixStarts(e: Expr)
    requires WellFormed(e) && !Wrapped(e, 1) && !e.Binary? && !e.Assign? && !e.Index? && !e.Field?
    ensures PrintBare(e) != [] && StartToken(PrintBare(e)[0]) && !StartsStatement(PrintBare(e)[0])
  {
    hide Print, PrintItems, PrintFields, PrintArms, PrintPathTail, PrintRegion, AllWellFormed, FieldsWellFormed, ArmsWellFormed;
  }

  /** Where a printed expression sits, its first token can be seen. */
  lemma {:induction false} StartsAt(e: Expr, p: nat, ts: seq<Token>, i: nat)
    requires WellFormed(e) && At(ts, i, Print(e, p))
    ensures i < |ts| && StartToken(Peek(ts, i))
    ensures p > 0 ==> !StartsStatement(Peek(ts, i))
  {
    Starts(e, p);
    assert ts[i] == ts[i..i + |Print(e, p)|][0];
  }

  lemma {:induction false} OperatorAt(op: BinOp, ts: seq<Token>, i: nat, rest: seq<Token>)
    requires At(ts, i, OpTokens(op) + rest)
    requires StartToken(Peek(ts, i + |OpTokens(op)|))
    ensures OpAt(ts, i) == Some(op) && At(ts, i + |OpMarks(op)|, rest)
    ensures Settled(ts, i) && !IsMark(ts, i, Equals) && (IsMark(ts, i, Bar) <==> op == BitOr)
  {
    hide OpMarks, OpAt, StartToken, Settled;
    AtSplit(ts, i, OpTokens(op), rest);
    var m := OpMarks(op);
    assert forall k :: 0 <= k < |m| ==> Peek(ts, i + k) == Symbol(m[k]) by {
      forall k | 0 <= k < |m|
        ensures Peek(ts, i + k) == Symbol(m[k])
      {
        assert ts[i + k] == ts[i..i + |m|][k];
      }
    }
    assert Peek(ts, i + 0) == Symbol(m[0]);
    if |m| == 2 {
      assert Peek(ts, i + 1) == Symbol(m[1]);
      PairAt(op, ts, i);
    } else {
      SingleAt(op, ts, i);
    }
  }

  lemma {:induction false} PairAt(op: BinOp, ts: seq<Token>, i: nat)
    requires |OpMarks(op)| == 2 && Peek(ts, i) == Symbol(OpMarks(op)[0]) && Peek(ts, i + 1) == Symbol(OpMarks(op)[1])
    ensures OpAt(ts, i) == Some(op)
    ensures Settled(ts, i) && !IsMark(ts, i, Equals) && !IsMark(ts, i, Bar) && op != BitOr
  {
  }

  /** A one-token operator is not the first half of a shift: an operand follows. */
  lemma {:induction false} SingleAt(op: BinOp, ts: seq<Token>, i: nat)
    requires |OpMarks(op)| == 1 && Peek(ts, i) == Symbol(OpMarks(op)[0]) && StartToken(Peek(ts, i + 1))
    ensures OpAt(ts, i) == Some(op)
    ensures Settled(ts, i) && !IsMark(ts, i, Equals) && (IsMark(ts, i, Bar) <==> op == BitOr)
  {
  }

  // ---------------------------------------------------------------- names

  lemma {:induction false} PathTailParses(path: seq<Word>, ts: seq<Token>, i: nat)
    requires At(ts, i, PrintPathTail(path))
    requires !IsMark(ts, i + |PrintPathTail(path)|, Dot)
    ensures ParsePathTail(ts, i) == Some((path, i + |PrintPathTail(path)|))
    decreases |path|
  {
    if path != [] {
      AtToken(ts, i, Symbol(Dot), Kw(path[0]) + PrintPathTail(path[1..]));
      AtToken(ts, i + 1, Ident(path[0]), PrintPathTail(path[1..]));
      PathTailParses(path[1..], ts, i + 2);
      assert [path[0]] + path[1..] == path;
    }
  }

  /** Collecting the `.word` run first, or one field at a time, is the same. */
  lemma {:induction false} PathThenFields(ts: seq<Token>, e: Expr, i: nat, inArm: bool)
    ensures PostfixLoop(ts, e, i, inArm)
            == match ParsePathTail(ts, i)
               case None => None
               case Some((fields, m)) => PostfixLoop(ts, FieldChain(e, fields), m, inArm)
    decreases |ts| - i
  {
    if IsMark(ts, i, Dot) && ParseWord(ts, i + 1).Some? {
      var (w, i1) := ParseWord(ts, i + 1).value;
      PathThenFields(ts, Field(e, w), i1, inArm);
      var tail := ParsePathTail(ts, i1);
      if tail.Some? {
        var (ws, m) := tail.value;
        assert ([w] + ws)[0] == w && ([w] + ws)[1..] == ws;
        assert FieldChain(e, [w] + ws) == FieldChain(Field(e, w), ws);
      }
    }
  }

  lemma {:induction false} NestedStep(ts: seq<Token>, i: nat, w: Word)
    requires Peek(ts, i) == Ident(w) && w != Underscore
    ensures ParsePattern(ts, i)
            == if !IsMark(ts, i + 1, LParen) then Some((Binding(w), i + 1))
               else match ParsePattern(ts, i + 2)
                    case None => None
                    case Some((sub, j)) => if IsMark(ts, j, RParen) then Some((Nested(w, sub), j + 1)) else None
  {
  }

  lemma {:induction false} PatternParses(p: Pattern, ts: seq<Token>, i: nat)
    requires WellFormedPattern(p) && At(ts, i, PrintPattern(p))
    requires !IsMark(ts, i + |PrintPattern(p)|, LParen)
    ensures ParsePattern(ts, i) == Some((p, i + |PrintPattern(p)|))
    decreases p, 0
  {
    match p
    case Wildcard => AtLast(ts, i, Ident(Underscore));
    case Binding(name) => AtLast(ts, i, Ident(name)); NestedStep(ts, i, name);
    case Nested(variant, sub) => NestedParses(variant, sub, ts, i);
  }

  lemma {:induction false} NestedParses(variant: Word, sub: Pattern, ts: seq<Token>, i: nat)
    requires variant != Underscore && WellFormedPattern(sub) && At(ts, i, Kw(variant) + Parens(PrintPattern(sub)))
    ensures ParsePattern(ts, i) == Some((Nested(variant, sub), i + |Kw(variant) + Parens(PrintPattern(sub))|))
    decreases sub, 1
  {
    hide ParsePattern, PrintPattern, WellFormedPattern, At;
    AtToken(ts, i, Ident(variant), Parens(PrintPattern(sub)));
    AtToken(ts, i + 1, Symbol(LParen), PrintPattern(sub) + Sym(RParen));
    AtSplit(ts, i + 2, PrintPattern(sub), Sym(RParen));
    AtLast(ts, i + 2 + |PrintPattern(sub)|, Symbol(RParen));
    PatternParses(sub, ts, i + 2);
    NestedStep(ts, i, variant);
  }

  lemma {:induction false} IntParses(p: IntPattern, ts: seq<Token>, i: nat)
    requires At(ts, i, PrintInt(p))
    ensures ParseInt(ts, i) == Some((p, i + |PrintInt(p)|))
    ensures i < |ts| && (Peek(ts, i).Number? || Peek(ts, i) == Symbol(Minus))
  {
    if p.negative {
      AtToken(ts, i, Symbol(Minus), [Number(p.digits)]);
      AtLast(ts, i + 1, Number(p.digits));
    } else {
      AtLast(ts, i, Number(p.digits));
    }
  }

  lemma {:induction false} RangeStep(ts: seq<Token>, i: nat)
    requires Peek(ts, i).Number? || IsMark(ts, i, Minus)
    ensures ParseArmPattern(ts, i)
            == match ParseInt(ts, i)
               case None => None
               case Some((lo, i1)) =>
                 if !IsMark(ts, i1, DotDot) then Some((IntArm(lo), i1))
                 else
                   var inclusive := IsMark(ts, i1 + 1, Equals);
                   match ParseInt(ts, if inclusive then i1 + 2 else i1 + 1)
                   case None => None
                   case Some((hi, i2)) => Some((RangeArm(lo, hi, inclusive), i2))
  {
    hide ParseInt, ParsePattern;
  }

  lemma {:induction false} RangeParses(lo: IntPattern, hi: IntPattern, inclusive: bool, ts: seq<Token>, i: nat)
    requires At(ts, i, PrintArmPattern(RangeArm(lo, hi, inclusive)))
    ensures ParseArmPattern(ts, i)
            == Some((RangeArm(lo, hi, inclusive), i + |PrintArmPattern(RangeArm(lo, hi, inclusive))|))
  {
    hide ParseInt, ParsePattern, PrintInt, At, ParseArmPattern;
    var eq := if inclusive then Sym(Equals) else [];
    AtSplit(ts, i, PrintInt(lo), Sym(DotDot) + (eq + PrintInt(hi)));
    IntParses(lo, ts, i);
    var j := i + |PrintInt(lo)|;
    AtToken(ts, j, Symbol(DotDot), eq + PrintInt(hi));
    AtSplit(ts, j + 1, eq, PrintInt(hi));
    if inclusive {
      AtLast(ts, j + 1, Symbol(Equals));
    }
    IntParses(hi, ts, j + 1 + |eq|);
    RangeStep(ts, i);
  }

  lemma {:induction false} VariantParses(variant: Word, payload: Option<Pattern>, ts: seq<Token>, i: nat)
    requires WellFormedArmPattern(VariantArm(variant, payload))
    requires At(ts, i, PrintArmPattern(VariantArm(variant, payload)))
    requires !IsMark(ts, i + |PrintArmPattern(VariantArm(variant, payload))|, LParen)
    ensures ParseArmPattern(ts, i)
            == Some((VariantArm(variant, payload), i + |PrintArmPattern(VariantArm(variant, payload))|))
  {
    hide ParsePattern, PrintPattern, WellFormedPattern, ParseArmPattern, At;
    match payload {
      case None =>
        assert Kw(variant) + [] == Kw(variant);
        AtLast(ts, i, Ident(variant));
        VariantStep(ts, i, variant);
      case Some(sub) =>
        PayloadPatternParses(variant, sub, ts, i);
    }
  }

  lemma {:induction false} PayloadPatternParses(variant: Word, sub: Pattern, ts: seq<Token>, i: nat)
    requires !ReservedVariant(variant) && sub != Wildcard && WellFormedPattern(sub)
    requires At(ts, i, Kw(variant) + Parens(PrintPattern(sub)))
    ensures ParseArmPattern(ts, i) == Some((VariantArm(variant, Some(sub)), i + |Kw(variant) + Parens(PrintPattern(sub))|))
  {
    hide ParsePattern, PrintPattern, WellFormedPattern, ParseArmPattern, At;
    AtToken(ts, i, Ident(variant), Parens(PrintPattern(sub)));
    AtToken(ts, i + 1, Symbol(LParen), PrintPattern(sub) + Sym(RParen));
    AtSplit(ts, i + 2, PrintPattern(sub), Sym(RParen));
    AtLast(ts, i + 2 + |PrintPattern(sub)|, Symbol(RParen));
    PatternParses(sub, ts, i + 2);
    VariantStep(ts, i, variant);
  }

  lemma {:induction false} VariantStep(ts: seq<Token>, i: nat, variant: Word)
    requires !ReservedVariant(variant)
    ensures Peek(ts, i) == Ident(variant) ==>
              ParseArmPattern(ts, i)
              == if !IsMark(ts, i + 1, LParen) then Some((VariantArm(variant, None), i + 1))
                 else match ParsePattern(ts, i + 2)
                      case None => None
                      case Some((sub, j)) =>
                        if IsMark(ts, j, RParen) then Some((VariantArm(variant, if sub == Wildcard then None else Some(sub)), j + 1)) else None
  {
    hide ParseInt, ParsePattern;
  }

  /** An arm pattern is followed by a guard's `if` or by the arrow. */
  lemma {:induction false} ArmPatternParses(p: ArmPattern, printed: seq<Token>, ts: seq<Token>, i: nat)
    requires WellFormedArmPattern(p)
    requires printed == PrintArmPattern(p) || (p == AnyArm && printed == Kw(Else))
    requires At(ts, i, printed)
    requires Peek(ts, i + |printed|) == Ident(If) || Peek(ts, i + |printed|) == Symbol(Arrow)
    ensures ParseArmPattern(ts, i) == Some((p, i + |printed|))
  {
    hide ParseArmPattern, At, PrintInt, PrintPattern, WellFormedPattern, ParsePattern, ParseInt;
    match p
    case AnyArm => WordArmParses(p, printed[0].word, ts, i);
    case IntArm(n) => IntArmParses(n, ts, i);
    case BoolArm(b) => WordArmParses(p, printed[0].word, ts, i);
    case RangeArm(lo, hi, inclusive) => RangeParses(lo, hi, inclusive, ts, i);
    case VariantArm(variant, payload) => VariantParses(variant, payload, ts, i);
  }

  lemma {:induction false} WordArmParses(p: ArmPattern, w: Word, ts: seq<Token>, i: nat)
    requires At(ts, i, [Ident(w)]) && !IsMark(ts, i + 1, DotDot)
    requires (p == AnyArm && (w == Else || w == Underscore)) || (p == BoolArm(true) && w == True) || (p == BoolArm(false) && w == False)
    ensures ParseArmPattern(ts, i) == Some((p, i + 1))
  {
    hide ParseInt, ParsePattern;
    AtLast(ts, i, Ident(w));
  }

  lemma {:induction false} IntArmParses(n: IntPattern, ts: seq<Token>, i: nat)
    requires At(ts, i, PrintInt(n)) && !IsMark(ts, i + |PrintInt(n)|, DotDot)
    ensures ParseArmPattern(ts, i) == Some((IntArm(n), i + |PrintInt(n)|))
  {
    hide ParseInt, ParsePattern, PrintInt, At, ParseArmPattern;
    IntParses(n, ts, i);
    RangeStep(ts, i);
  }
}
