/** The parser object: a cursor over the tokens and the flag that ends an arm
    body at `|`. Every method reads exactly what the grammar reads from the
    cursor, moves the cursor past it, and leaves the flag as it found it. */
module ParserMachine {
  import opened Wrappers
  import opened Syntax
  import opened Grammar

  class Parser {
    const tokens: seq<Token>
    var pos: nat
    var bitorTerminates: bool

    constructor (tokens: seq<Token>)
      ensures this.tokens == tokens && pos == 0 && !bitorTerminates
    {
      this.tokens := tokens;
      pos := 0;
      bitorTerminates := false;
    }

    /** What a method returned and where it stopped is what the grammar says. */
    ghost predicate Reads<T>(spec: Parsed<T>, r: Option<T>)
      reads this`pos
    {
      match spec
      case None => r.None?
      case Some((v, j)) => r == Some(v) && pos == j
    }

    // -------------------------------------------------------------- tokens

    method ConsumeMark(m: Mark) returns (found: bool)
      modifies this`pos
      ensures found == IsMark(tokens, old(pos), m)
      ensures pos == if found then old(pos) + 1 else old(pos)
    {
      found := IsMark(tokens, pos, m);
      if found {
        pos := pos + 1;
      }
    }

    method ConsumeWord(w: Word) returns (found: bool)
      modifies this`pos
      ensures found == IsWord(tokens, old(pos), w)
      ensures pos == if found then old(pos) + 1 else old(pos)
    {
      found := IsWord(tokens, pos, w);
      if found {
        pos := pos + 1;
      }
    }

    method ExpectToken(t: Token) returns (r: Option<()>)
      requires t != Eof
      modifies this`pos
      ensures match Expect(tokens, old(pos), t) case None => r.None? case Some(j) => r.Some? && pos == j
    {
      if Peek(tokens, pos) != t {
        return None;
      }
      pos := pos + 1;
      return Some(());
    }

    method ExpectIdent() returns (r: Option<Word>)
      modifies this`pos
      ensures Reads(ParseWord(tokens, old(pos)), r)
    {
      match Peek(tokens, pos)
      case Ident(w) =>
        pos := pos + 1;
        return Some(w);
      case _ =>
        return None;
    }

    // -------------------------------------------------------------- keyword forms

    method ReadExpr() returns (r: Option<Expr>)
      modifies this
      ensures bitorTerminates == old(bitorTerminates)
      ensures Reads(ParseExpr(tokens, old(pos), bitorTerminates), r)
      decreases |tokens| - pos, 9
    {
      hide ParseLet, ParseReturn, ParseIf, ParseFold, ParseLoop, ParseCase, ParseAssignment;
      match Peek(tokens, pos) {
        case Ident(Let) => r := ReadLet();
        case Ident(Return) => r := ReadReturn();
        case Ident(If) => r := ReadIf();
        case Ident(Fold) => r := ReadFold();
        case Ident(Loop) => r := ReadLoop();
        case Ident(Case) => r := ReadCase();
        case _ => r := ReadAssignment();
      }
    }

    method ReadLet() returns (r: Option<Expr>)
      requires IsWord(tokens, pos, Let)
      modifies this
      ensures bitorTerminates == old(bitorTerminates)
      ensures Reads(ParseLet(tokens, old(pos), bitorTerminates), r)
      decreases |tokens| - pos, 8
    {
      hide ParseExpr, Expect, ParseWord;
      pos := pos + 1;
      var name :- ExpectIdent();
      var _ :- ExpectToken(Symbol(Colon));
      var ty :- ExpectIdent();
      var _ :- ExpectToken(Symbol(Equals));
      var bound :- ReadExpr();
      var _ :- ExpectToken(Ident(In));
      var body :- ReadExpr();
      return Some(LetIn(name, ty, bound, body));
    }

    method ReadReturn() returns (r: Option<Expr>)
      requires IsWord(tokens, pos, Return)
      modifies this
      ensures bitorTerminates == old(bitorTerminates)
      ensures Reads(ParseReturn(tokens, old(pos), bitorTerminates), r)
      decreases |tokens| - pos, 8
    {
      hide ParseExpr, Expect, ParseWord;
      pos := pos + 1;
      var result :- ReadExpr();
      return Some(ReturnExpr(result));
    }

    method ReadIf() returns (r: Option<Expr>)
      requires IsWord(tokens, pos, If)
      modifies this
      ensures bitorTerminates == old(bitorTerminates)
      ensures Reads(ParseIf(tokens, old(pos), bitorTerminates), r)
      decreases |tokens| - pos, 8
    {
      hide ParseExpr, Expect, ParseWord;
      pos := pos + 1;
      var cond :- ReadExpr();
      var _ :- ExpectToken(Ident(Then));
      var thenExpr :- ReadExpr();
      var _ :- ExpectToken(Ident(Else));
      var elseExpr :- ReadExpr();
      return Some(IfElse(cond, thenExpr, elseExpr));
    }

    method ReadFold() returns (r: Option<Expr>)
      requires IsWord(tokens, pos, Fold)
      modifies this
      ensures bitorTerminates == old(bitorTerminates)
      ensures Reads(ParseFold(tokens, old(pos), bitorTerminates), r)
      decreases |tokens| - pos, 8
    {
      hide ParseExpr, Expect, ParseWord;
      pos := pos + 1;
      var item :- ExpectIdent();
      var _ :- ExpectToken(Ident(In));
      var sequence :- ReadExpr();
      var _ :- ExpectToken(Ident(With));
      var acc :- ExpectIdent();
      var _ :- ExpectToken(Symbol(Equals));
      var init :- ReadExpr();
      var _ :- ExpectToken(Ident(Do));
      var step :- ReadExpr();
      return Some(FoldIn(item, sequence, acc, init, step));
    }

    method ReadLoop() returns (r: Option<Expr>)
      requires IsWord(tokens, pos, Loop)
      modifies this
      ensures bitorTerminates == old(bitorTerminates)
      ensures Reads(ParseLoop(tokens, old(pos), bitorTerminates), r)
      decreases |tokens| - pos, 8
    {
      hide ParseExpr, Expect, ParseWord;
      pos := pos + 1;
      var acc :- ExpectIdent();
      var _ :- ExpectToken(Symbol(Equals));
      var init :- ReadExpr();
      var _ :- ExpectToken(Ident(While));
      var cond :- ReadExpr();
      var _ :- ExpectToken(Ident(Do));
      var body :- ReadExpr();
      return Some(LoopWhile(acc, init, cond, body));
    }

    // -------------------------------------------------------------- case

    method ReadCase() returns (r: Option<Expr>)
      requires IsWord(tokens, pos, Case)
      modifies this
      ensures bitorTerminates == old(bitorTerminates)
      ensures Reads(ParseCase(tokens, old(pos), bitorTerminates), r)
      decreases |tokens| - pos, 8
    {
      hide ParseExpr, ParseArms;
      pos := pos + 1;
      var scrutinee :- ReadExpr();
      var _ :- ExpectToken(Ident(Of));
      var arms :- ReadArms();
      return Some(CaseOf(scrutinee, arms));
    }

    /** The arm loop; `arms` grows until no separator follows. */
    method ReadArms() returns (r: Option<seq<Arm>>)
      modifies this
      ensures bitorTerminates == old(bitorTerminates)
      ensures Reads(ParseArms(tokens, old(pos), bitorTerminates), r)
      decreases |tokens| - pos, 8, 1
    {
      hide ParseArm;
      var arms: seq<Arm> := [];
      while true
        invariant bitorTerminates == old(bitorTerminates) && (pos == old(pos) || old(pos) < pos <= |tokens|)
        invariant ParseArms(tokens, old(pos), bitorTerminates) == After(arms, ParseArms(tokens, pos, bitorTerminates))
        decreases |tokens| - pos
      {
        var arm :- ReadArm();
        AfterAppend(arms, arm, ParseArms(tokens, pos + 1, bitorTerminates));
        arms := arms + [arm];
        var more := ConsumeMark(Bar);
        if !more {
          return Some(arms);
        }
        if arm.pattern.AnyArm? && arm.guard.None? {
          return None;
        }
      }
    }

    /** Only the body of an arm ends at `|`; the guard is read as the case is. */
    method ReadArm() returns (r: Option<Arm>)
      modifies this
      ensures bitorTerminates == old(bitorTerminates)
      ensures Reads(ParseArm(tokens, old(pos), bitorTerminates), r)
      decreases |tokens| - pos, 8, 0
    {
      hide ParseExpr, ParseArmPattern, ParseGuard;
      var pattern :- ReadArmPattern();
      var guard :- ReadGuard();
      var _ :- ExpectToken(Symbol(Arrow));
      var saved := bitorTerminates;
      bitorTerminates := true;
      var body := ReadExpr();
      bitorTerminates := saved;
      if body.None? {
        return None;
      }
      return Some(Arm(pattern, guard, body.value));
    }

    method ReadGuard() returns (r: Option<Option<Expr>>)
      modifies this
      ensures bitorTerminates == old(bitorTerminates)
      ensures Reads(ParseGuard(tokens, old(pos), bitorTerminates), r)
      decreases |tokens| - pos, 10
    {
      hide ParseExpr;
      var guarded := ConsumeWord(If);
      if !guarded {
        return Some(None);
      }
      var guard :- ReadExpr();
      return Some(Some(guard));
    }

    /** Catch-all words, then a scalar or range, then a variant. */
    method ReadArmPattern() returns (r: Option<ArmPattern>)
      modifies this`pos
      ensures Reads(ParseArmPattern(tokens, old(pos)), r)
    {
      hide ParsePattern;
      var t := Peek(tokens, pos);
      if t.Ident? {
        var w := t.word;
        pos := pos + 1;
        if w == Else || w == Default || w == Underscore {
          return Some(AnyArm);
        } else if w == True || w == False {
          if IsMark(tokens, pos, DotDot) {
            return None;
          }
          return Some(BoolArm(w == True));
        }
        var nested := ConsumeMark(LParen);
        if !nested {
          return Some(VariantArm(w, None));
        }
        var sub :- ReadPattern();
        var _ :- ExpectToken(Symbol(RParen));
        return Some(VariantArm(w, if sub == Wildcard then None else Some(sub)));
      }
      var lo :- ReadInt();
      var range := ConsumeMark(DotDot);
      if !range {
        return Some(IntArm(lo));
      }
      var inclusive := ConsumeMark(Equals);
      var hi :- ReadInt();
      return Some(RangeArm(lo, hi, inclusive));
    }

    method ReadInt() returns (r: Option<IntPattern>)
      modifies this`pos
      ensures Reads(ParseInt(tokens, old(pos)), r)
    {
      var negative := ConsumeMark(Minus);
      match Peek(tokens, pos) {
        case Number(digits) =>
          pos := pos + 1;
          return Some(IntPattern(negative, digits));
        case _ =>
          return None;
      }
    }

    method ReadPattern() returns (r: Option<Pattern>)
      modifies this`pos
      ensures Reads(ParsePattern(tokens, old(pos)), r)
      decreases |tokens| - pos
    {
      var wildcard := ConsumeWord(Underscore);
      if wildcard {
        return Some(Wildcard);
      }
      var w :- ExpectIdent();
      var nested := ConsumeMark(LParen);
      if !nested {
        return Some(Binding(w));
      }
      var sub :- ReadPattern();
      var _ :- ExpectToken(Symbol(RParen));
      return Some(Nested(w, sub));
    }

    // -------------------------------------------------------------- operators

    method ReadAssignment() returns (r: Option<Expr>)
      modifies this
      ensures bitorTerminates == old(bitorTerminates)
      ensures Reads(ParseAssignment(tokens, old(pos), bitorTerminates), r)
      decreases |tokens| - pos, 7
    {
      hide ParseExpr, ParseBinary;
      var target :- ReadBinary(1);
      var isAssign := ConsumeMark(Equals);
      if !isAssign {
        return Some(target);
      }
      var newValue :- ReadExpr();
      return Some(Assign(target, newValue));
    }

    /** Precedence climbing; `left` collects the operators at least `min`. */
    method ReadBinary(min: nat) returns (r: Option<Expr>)
      modifies this
      ensures bitorTerminates == old(bitorTerminates)
      ensures Reads(ParseBinary(tokens, old(pos), min, bitorTerminates), r)
      decreases |tokens| - pos, 6
    {
      hide ParseUnary;
      var left :- ReadUnary();
      while true
        invariant bitorTerminates == old(bitorTerminates) && old(pos) < pos
        invariant ParseBinary(tokens, old(pos), min, bitorTerminates)
                  == BinaryLoop(tokens, left, pos, min, bitorTerminates)
        decreases |tokens| - pos
      {
        var op := OpAt(tokens, pos);
        if op.None? || (op.value == BitOr && bitorTerminates) || Prec(op.value) < min {
          return Some(left);
        }
        pos := pos + |OpMarks(op.value)|;
        var right :- ReadBinary(Prec(op.value) + 1);
        left := Binary(op.value, left, right);
      }
    }

    method ReadUnary() returns (r: Option<Expr>)
      modifies this
      ensures bitorTerminates == old(bitorTerminates)
      ensures Reads(ParseUnary(tokens, old(pos), bitorTerminates), r)
      decreases |tokens| - pos, 4
    {
      hide ParsePostfix;
      match Peek(tokens, pos) {
        case Symbol(Minus) =>
          pos := pos + 1;
          var e :- ReadUnary();
          return Some(Unary(Neg, e));
        case Symbol(Bang) =>
          pos := pos + 1;
          var e :- ReadUnary();
          return Some(Unary(Not, e));
        case Symbol(Tilde) =>
          pos := pos + 1;
          var e :- ReadUnary();
          return Some(Unary(Complement, e));
        case Symbol(Amp) =>
          pos := pos + 1;
          var region := None;
          var named := ConsumeMark(Quote);
          if named {
            var w :- ExpectIdent();
            region := Some(w);
          }
          var mutable := ConsumeWord(Mut);
          var e :- ReadUnary();
          return Some(Borrow(region, mutable, e));
        case _ =>
          r := ReadPostfix();
      }
    }

    method ReadPostfix() returns (r: Option<Expr>)
      modifies this
      ensures bitorTerminates == old(bitorTerminates)
      ensures Reads(ParsePostfix(tokens, old(pos), bitorTerminates), r)
      decreases |tokens| - pos, 3
    {
      hide ParseExpr, ParsePrimary;
      var e :- ReadPrimary();
      while true
        invariant bitorTerminates == old(bitorTerminates) && old(pos) < pos
        invariant ParsePostfix(tokens, old(pos), bitorTerminates) == PostfixLoop(tokens, e, pos, bitorTerminates)
        decreases |tokens| - pos
      {
        var bracket := ConsumeMark(LBracket);
        if bracket {
          var index :- ReadExpr();
          var _ :- ExpectToken(Symbol(RBracket));
          e := Index(e, index);
          continue;
        }
        var dot := ConsumeMark(Dot);
        if dot {
          var field :- ExpectIdent();
          e := Field(e, field);
          continue;
        }
        return Some(e);
      }
    }

    // -------------------------------------------------------------- primaries

    /** Inside a primary `|` is always an operator. */
    method ReadPrimary() returns (r: Option<Expr>)
      modifies this
      ensures bitorTerminates == old(bitorTerminates)
      ensures Reads(ParsePrimary(tokens, old(pos)), r)
      decreases |tokens| - pos, 2
    {
      var saved := bitorTerminates;
      bitorTerminates := false;
      r := ReadPrimaryInner();
      bitorTerminates := saved;
    }

    method ReadPrimaryInner() returns (r: Option<Expr>)
      requires !bitorTerminates
      modifies this
      ensures !bitorTerminates
      ensures Reads(ParsePrimary(tokens, old(pos)), r)
      decreases |tokens| - pos, 1
    {
      hide ParseExpr, ParseNamed, ParseBracketed, ParseFields;
      match Peek(tokens, pos) {
        case Number(digits) => pos := pos + 1; return Some(LitInt(digits));
        case Text(value) => pos := pos + 1; return Some(LitText(value));
        case Bytes(hex) => pos := pos + 1; return Some(LitBytes(hex));
        case Ident(first) =>
          if first == True || first == False {
            pos := pos + 1;
            return Some(LitBool(first == True));
          }
          r := ReadNamed(first);
        case Symbol(LParen) =>
          pos := pos + 1;
          var unit := ConsumeMark(RParen);
          if unit {
            return Some(Unit);
          }
          var e :- ReadExpr();
          var _ :- ExpectToken(Symbol(RParen));
          return Some(e);
        case Symbol(LBrace) =>
          pos := pos + 1;
          var fields :- ReadFields();
          return Some(Record(fields));
        case Symbol(LBracket) =>
          r := ReadBracketed();
        case _ =>
          return None;
      }
    }

    method ReadNamed(first: Word) returns (r: Option<Expr>)
      requires !bitorTerminates && pos < |tokens|
      modifies this
      ensures !bitorTerminates
      ensures Reads(ParseNamed(tokens, old(pos), first), r)
      decreases |tokens| - pos, 0
    {
      hide ParseExpr, ParseItems, ParsePathTail, FieldChain, Expect, ParseWord;
      pos := pos + 1;
      var more :- ReadPathTail();
      var constructs := ConsumeMark(ColonColon);
      if constructs {
        var variant :- ExpectIdent();
        var nested := ConsumeMark(LParen);
        if !nested {
          return Some(Construct([first] + more, variant, Unit));
        }
        var payload :- ReadExpr();
        var _ :- ExpectToken(Symbol(RParen));
        return Some(Construct([first] + more, variant, payload));
      }
      var called := ConsumeMark(LParen);
      if called {
        var empty := ConsumeMark(RParen);
        if empty {
          return Some(Call([first] + more, []));
        }
        var args :- ReadItems(RParen);
        return Some(Call([first] + more, args));
      }
      var chain := Fields(Name(first), more);
      return Some(chain);
    }

    /** A dotted name as field accesses, innermost first. */
    method Fields(e: Expr, fields: seq<Word>) returns (chain: Expr)
      ensures chain == FieldChain(e, fields)
    {
      chain := e;
      var i := 0;
      while i < |fields|
        invariant 0 <= i <= |fields|
        invariant FieldChain(chain, fields[i..]) == FieldChain(e, fields)
      {
        assert fields[i..][1..] == fields[i + 1..];
        chain := Field(chain, fields[i]);
        i := i + 1;
      }
    }

    method ReadPathTail() returns (r: Option<seq<Word>>)
      modifies this`pos
      ensures Reads(ParsePathTail(tokens, old(pos)), r)
    {
      var parts: seq<Word> := [];
      while true
        invariant pos >= old(pos)
        invariant ParsePathTail(tokens, old(pos)) == After(parts, ParsePathTail(tokens, pos))
        decreases |tokens| - pos
      {
        var dot := ConsumeMark(Dot);
        if !dot {
          assert parts + [] == parts;
          return Some(parts);
        }
        var w :- ExpectIdent();
        AfterAppend(parts, w, ParsePathTail(tokens, pos));
        parts := parts + [w];
      }
    }

    method ReadBracketed() returns (r: Option<Expr>)
      requires !bitorTerminates && IsMark(tokens, pos, LBracket)
      modifies this
      ensures !bitorTerminates
      ensures Reads(ParseBracketed(tokens, old(pos)), r)
      decreases |tokens| - pos, 0
    {
      hide ParseExpr, ParseItems;
      pos := pos + 1;
      var empty := ConsumeMark(RBracket);
      if empty {
        return None;
      }
      var first :- ReadExpr();
      var fill := ConsumeMark(Semicolon);
      if fill {
        var count :- ReadExpr();
        if !count.LitInt? {
          return None;
        }
        var _ :- ExpectToken(Symbol(RBracket));
        return Some(ArrayFill(first, count.digits));
      }
      var single := ConsumeMark(RBracket);
      if single {
        return Some(Array([first]));
      }
      var _ :- ExpectToken(Symbol(Comma));
      var rest :- ReadItems(RBracket);
      return Some(Array([first] + rest));
    }

    method ReadItems(close: Mark) returns (r: Option<seq<Expr>>)
      requires !bitorTerminates
      modifies this
      ensures !bitorTerminates
      ensures Reads(ParseItems(tokens, old(pos), close), r)
      decreases |tokens| - pos, 10
    {
      hide ParseExpr;
      var items: seq<Expr> := [];
      while true
        invariant !bitorTerminates && (pos == old(pos) || old(pos) < pos <= |tokens|)
        invariant ParseItems(tokens, old(pos), close) == After(items, ParseItems(tokens, pos, close))
        decreases |tokens| - pos
      {
        var e :- ReadExpr();
        var closed := ConsumeMark(close);
        if closed {
          return Some(items + [e]);
        }
        var _ :- ExpectToken(Symbol(Comma));
        AfterAppend(items, e, ParseItems(tokens, pos, close));
        items := items + [e];
      }
    }

    method ReadFields() returns (r: Option<seq<FieldInit>>)
      requires !bitorTerminates
      modifies this
      ensures !bitorTerminates
      ensures Reads(ParseFields(tokens, old(pos)), r)
      decreases |tokens| - pos, 10
    {
      hide ParseExpr;
      var fields: seq<FieldInit> := [];
      while true
        invariant !bitorTerminates && (pos == old(pos) || old(pos) < pos <= |tokens|)
        invariant ParseFields(tokens, old(pos)) == After(fields, ParseFields(tokens, pos))
        decreases |tokens| - pos
      {
        var name :- ExpectIdent();
        var _ :- ExpectToken(Symbol(Colon));
        var value :- ReadExpr();
        var field := FieldInit(name, value);
        var closed := ConsumeMark(RBrace);
        if closed {
          return Some(fields + [field]);
        }
        var _ :- ExpectToken(Symbol(Comma));
        AfterAppend(fields, field, ParseFields(tokens, pos));
        fields := fields + [field];
      }
    }
  }

  /** The items read so far, then the items still to come. */
  function After<T>(done: seq<T>, rest: Parsed<seq<T>>): (all: Parsed<seq<T>>)
    ensures done == [] ==> all == rest
  {
    match rest
    case None => None
    case Some((more, j)) =>
      assert [] + more == more;
      Some((done + more, j))
  }

  lemma AfterAppend<T>(done: seq<T>, x: T, rest: Parsed<seq<T>>)
    ensures After(done, After([x], rest)) == After(done + [x], rest)
  {
    if rest.Some? {
      assert done + ([x] + rest.value.0) == (done + [x]) + rest.value.0;
    }
  }

  /** Parse a whole source expression. */
  method ParseText(ts: seq<Token>) returns (r: Option<Expr>)
    ensures r == ParseSource(ts)
  {
    hide ParseExpr;
    var parser := new Parser(ts);
    var e :- parser.ReadExpr();
    if Peek(ts, parser.pos) != Eof {
      return None;
    }
    return Some(e);
  }
}
