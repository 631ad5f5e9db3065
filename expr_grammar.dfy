/**
 * The expression grammar the parser accepts, as recursive-descent functions
 * over a token list and a cursor position:
 *
 *   expression -> equality
 *   equality   -> comparison ( ( "!=" | "==" ) comparison )*
 *   comparison -> term ( ( ">" | ">=" | "<" | "<=" ) term )*
 *   term       -> factor ( ( "-" | "+" ) factor )*
 *   factor     -> unary ( ( "/" | "*" ) unary )*
 *   unary      -> ( "!" | "-" ) unary | primary
 *   primary    -> "false" | "true" | "nil" | NUMBER | STRING | "(" expression ")"
 *
 * The four binary levels share one definition, parameterised by `Level`.
 * Each function returns the tree and the position after it, or the failure
 * and the position where the parser stopped.
 */
module ExprGrammar {
  import opened Tokens
  import opened Outcomes
  import opened Syntax

  /** A token list the parser can walk: it ends with the EOF token. */
  predicate EofTerminated(ts: seq<Token>) {
    |ts| > 0 && ts[|ts| - 1].kind == EOF
  }

  /** A cursor inside an EOF-terminated list. */
  predicate Within(ts: seq<Token>, pos: nat) {
    EofTerminated(ts) && pos < |ts|
  }

  predicate AtEnd(ts: seq<Token>, pos: nat)
    requires pos < |ts|
  {
    ts[pos].kind == EOF
  }

  /** The token at `pos` has kind `kind`; never true of the EOF token itself. */
  predicate Checks(ts: seq<Token>, pos: nat, kind: TokenType)
    requires pos < |ts|
  {
    !AtEnd(ts, pos) && ts[pos].kind == kind
  }

  /** The token at `pos` has one of `kinds`: the parser consumes it. */
  predicate MatchesAny(ts: seq<Token>, pos: nat, kinds: seq<TokenType>)
    requires pos < |ts|
  {
    !AtEnd(ts, pos) && ts[pos].kind in kinds
  }

  /** Why a parse stopped: `consume` reported a missing token, or `primary` matched nothing. */
  datatype Failure = Expected(message: string) | NoPrimary

  datatype Parse =
    | Produced(expr: Expr, next: nat)
    | Failed(failure: Failure, at: nat)

  /** Where the cursor is once a parse is over. */
  function Stop(r: Parse): nat
  {
    match r
    case Produced(_, next) => next
    case Failed(_, at) => at
  }

  /** What a parse reports through the error sink: the token `consume` stopped at. */
  function Reported(ts: seq<Token>, r: Parse): seq<Diagnostic>
    requires r.Failed? ==> r.at < |ts|
  {
    if r.Failed? && r.failure.Expected? then [AtToken(ts[r.at], r.failure.message)] else []
  }

  /** The four binary levels, loosest first. */
  datatype Level = EqualityLevel | ComparisonLevel | TermLevel | FactorLevel

  /** The operator kinds of a level, in the order its loop matches them. */
  function Operators(lv: Level): seq<TokenType> {
    match lv
    case EqualityLevel => [BANG_EQUAL, EQUAL_EQUAL]
    case ComparisonLevel => [GREATER_THAN, GREATER_EQUAL, LESS_THAN, LESS_EQUAL]
    case TermLevel => [MINUS, PLUS]
    case FactorLevel => [SLASH, STAR]
  }

  /** How tightly a level binds: 1 for equality up to 4 for factor. */
  function Binding(lv: Level): nat {
    match lv
    case EqualityLevel => 1
    case ComparisonLevel => 2
    case TermLevel => 3
    case FactorLevel => 4
  }

  /** The level whose expressions are the operands of `lv`'s operators. */
  function Tighter(lv: Level): (t: Level)
    requires lv != FactorLevel
    ensures Binding(t) == Binding(lv) + 1
  {
    match lv
    case EqualityLevel => ComparisonLevel
    case ComparisonLevel => TermLevel
    case TermLevel => FactorLevel
  }

  /** The binding of a binary operator kind; 0 for a kind that is not one. */
  function OperatorBinding(k: TokenType): nat {
    if k in Operators(EqualityLevel) then 1
    else if k in Operators(ComparisonLevel) then 2
    else if k in Operators(TermLevel) then 3
    else if k in Operators(FactorLevel) then 4
    else 0
  }

  /** An operator of a level binds as tightly as the level. */
  lemma OperatorsBind(lv: Level, k: TokenType)
    requires k in Operators(lv)
    ensures OperatorBinding(k) == Binding(lv)
  {
  }

  /** How tightly an expression's outermost operator binds; 5 for unary and primary expressions. */
  function Precedence(e: Expr): nat {
    match e
    case Binary(_, op, _) => OperatorBinding(op.kind)
    case _ => 5
  }

  /**
   * The trees the grammar yields: every binary node carries a binary operator,
   * its left operand binds at least as tightly and its right operand strictly
   * more tightly (so chains of one level nest to the left, and looser operators
   * only appear inside parentheses); unary operands are unary or primary.
   */
  predicate WellNested(e: Expr) {
    match e
    case Binary(l, op, r) =>
      && 1 <= OperatorBinding(op.kind)
      && Precedence(l) >= OperatorBinding(op.kind)
      && Precedence(r) > OperatorBinding(op.kind)
      && WellNested(l) && WellNested(r)
    case Unary(op, x) => op.kind in [BANG, MINUS] && Precedence(x) == 5 && WellNested(x)
    case Grouping(x) => WellNested(x)
    case Literal(_) => true
    case _ => false
  }

  /**
   * A parse that starts at `pos` and yields a tree consumes at least one token
   * and leaves the cursor inside the list; a failed one stops inside the list
   * at or after `pos`.
   */
  predicate Advances(ts: seq<Token>, pos: nat, r: Parse) {
    match r
    case Produced(_, next) => pos < next < |ts|
    case Failed(_, at) => pos <= at < |ts|
  }

  /** A parse that yields a tree yields a well-nested one binding at least `least` tightly. */
  predicate Shaped(r: Parse, least: nat) {
    r.Produced? ==> WellNested(r.expr) && Precedence(r.expr) >= least
  }

  function ExpressionAt(ts: seq<Token>, pos: nat): (r: Parse)
    requires Within(ts, pos)
    ensures Advances(ts, pos, r)
    decreases |ts| - pos, 11
  {
    LevelAt(ts, pos, EqualityLevel)
  }

  /** One binary level: an operand, then the loop over the level's operators. */
  function LevelAt(ts: seq<Token>, pos: nat, lv: Level): (r: Parse)
    requires Within(ts, pos)
    ensures Advances(ts, pos, r)
    decreases |ts| - pos, 12 - 2 * Binding(lv)
  {
    match OperandAt(ts, pos, lv)
    case Failed(f, at) => Failed(f, at)
    case Produced(e, next) => LevelRest(ts, e, next, lv)
  }

  /** An operand of `lv`'s operators: the next tighter level, or a unary expression under factor. */
  function OperandAt(ts: seq<Token>, pos: nat, lv: Level): (r: Parse)
    requires Within(ts, pos)
    ensures Advances(ts, pos, r)
    decreases |ts| - pos, 11 - 2 * Binding(lv)
  {
    if lv == FactorLevel then UnaryAt(ts, pos) else LevelAt(ts, pos, Tighter(lv))
  }

  /** The loop of a binary level from `pos`, with `left` the tree built so far. */
  function LevelRest(ts: seq<Token>, left: Expr, pos: nat, lv: Level): (r: Parse)
    requires Within(ts, pos)
    ensures match r
      case Produced(_, next) => pos <= next < |ts|
      case Failed(_, at) => pos <= at < |ts|
    decreases |ts| - pos, 0
  {
    if MatchesAny(ts, pos, Operators(lv)) then
      match OperandAt(ts, pos + 1, lv)
      case Failed(f, at) => Failed(f, at)
      case Produced(right, next) => LevelRest(ts, Binary(left, ts[pos], right), next, lv)
    else
      Produced(left, pos)
  }

  function UnaryAt(ts: seq<Token>, pos: nat): (r: Parse)
    requires Within(ts, pos)
    ensures Advances(ts, pos, r)
    decreases |ts| - pos, 2
  {
    if MatchesAny(ts, pos, [BANG, MINUS]) then
      match UnaryAt(ts, pos + 1)
      case Failed(f, at) => Failed(f, at)
      case Produced(right, next) => Produced(Unary(ts[pos], right), next)
    else
      PrimaryAt(ts, pos)
  }

  /** The message `consume` reports when a group is not closed. */
  const UnclosedGroup := "Expect ')' after expression."

  /** A primary expression; matching none of its cases is `NoPrimary`, since the method falls off its end. */
  function PrimaryAt(ts: seq<Token>, pos: nat): (r: Parse)
    requires Within(ts, pos)
    ensures Advances(ts, pos, r)
    decreases |ts| - pos, 1
  {
    if MatchesAny(ts, pos, [FALSE]) then Produced(Literal(BoolLiteral(false)), pos + 1)
    else if MatchesAny(ts, pos, [TRUE]) then Produced(Literal(BoolLiteral(true)), pos + 1)
    else if MatchesAny(ts, pos, [NIL]) then Produced(Literal(NilLiteral), pos + 1)
    else if MatchesAny(ts, pos, [NUMBER, STRING]) then Produced(Literal(ts[pos].literal), pos + 1)
    else if MatchesAny(ts, pos, [LEFT_PAREN]) then GroupAt(ts, pos + 1)
    else Failed(NoPrimary, pos)
  }

  /** A parenthesised expression after its `(`: the expression, then the `)` that `consume` demands. */
  function GroupAt(ts: seq<Token>, pos: nat): (r: Parse)
    requires Within(ts, pos)
    ensures Advances(ts, pos, r)
    decreases |ts| - pos, 12
  {
    match ExpressionAt(ts, pos)
    case Failed(f, at) => Failed(f, at)
    case Produced(e, next) =>
      if Checks(ts, next, RIGHT_PAREN) then Produced(Grouping(e), next + 1)
      else Failed(Expected(UnclosedGroup), next)
  }

  /**
   * Every tree the parser yields is well nested: operators of one level chain
   * to the left, tighter levels sit below looser ones, and unary operators
   * nest to the right.
   */
  lemma {:induction false} ExpressionNested(ts: seq<Token>, pos: nat)
    requires Within(ts, pos)
    ensures Shaped(ExpressionAt(ts, pos), 1)
    decreases |ts| - pos, 11
  {
    LevelNested(ts, pos, EqualityLevel);
  }

  lemma {:induction false} LevelNested(ts: seq<Token>, pos: nat, lv: Level)
    requires Within(ts, pos)
    ensures Shaped(LevelAt(ts, pos, lv), Binding(lv))
    decreases |ts| - pos, 12 - 2 * Binding(lv)
  {
    OperandNested(ts, pos, lv);
    match OperandAt(ts, pos, lv)
    case Failed(_, _) =>
    case Produced(e, next) =>
      LevelRestNested(ts, e, next, lv);
  }

  lemma {:induction false} OperandNested(ts: seq<Token>, pos: nat, lv: Level)
    requires Within(ts, pos)
    ensures Shaped(OperandAt(ts, pos, lv), Binding(lv) + 1)
    decreases |ts| - pos, 11 - 2 * Binding(lv)
  {
    if lv == FactorLevel {
      UnaryNested(ts, pos);
    } else {
      LevelNested(ts, pos, Tighter(lv));
    }
  }

  lemma {:induction false} LevelRestNested(ts: seq<Token>, left: Expr, pos: nat, lv: Level)
    requires Within(ts, pos)
    requires WellNested(left) && Precedence(left) >= Binding(lv)
    ensures Shaped(LevelRest(ts, left, pos, lv), Binding(lv))
    decreases |ts| - pos, 0
  {
    if MatchesAny(ts, pos, Operators(lv)) {
      var operand := OperandAt(ts, pos + 1, lv);
      OperandNested(ts, pos + 1, lv);
      if operand.Produced? {
        var joined := Binary(left, ts[pos], operand.expr);
        OperatorsBind(lv, ts[pos].kind);
        assert WellNested(joined);
        LevelRestNested(ts, joined, operand.next, lv);
        assert LevelRest(ts, left, pos, lv) == LevelRest(ts, joined, operand.next, lv);
      }
    }
  }

  lemma {:induction false} UnaryNested(ts: seq<Token>, pos: nat)
    requires Within(ts, pos)
    ensures Shaped(UnaryAt(ts, pos), 5)
    decreases |ts| - pos, 2
  {
    if MatchesAny(ts, pos, [BANG, MINUS]) {
      UnaryNested(ts, pos + 1);
    } else {
      PrimaryNested(ts, pos);
    }
  }

  /**
   * A primary is a literal or a group: each literal keyword and each NUMBER or
   * STRING token is one literal, `(` opens a group, and any other token,
   * a unary operator included, matches nothing.
   */
  lemma {:induction false} PrimaryNested(ts: seq<Token>, pos: nat)
    requires Within(ts, pos)
    ensures Shaped(PrimaryAt(ts, pos), 5)
    ensures var r := PrimaryAt(ts, pos);
      && (r.Produced? ==> r.expr.Literal? || r.expr.Grouping?)
      && (MatchesAny(ts, pos, [FALSE]) ==> r == Produced(Literal(BoolLiteral(false)), pos + 1))
      && (MatchesAny(ts, pos, [TRUE]) ==> r == Produced(Literal(BoolLiteral(true)), pos + 1))
      && (MatchesAny(ts, pos, [NIL]) ==> r == Produced(Literal(NilLiteral), pos + 1))
      && (MatchesAny(ts, pos, [NUMBER, STRING]) ==> r == Produced(Literal(ts[pos].literal), pos + 1))
      && (MatchesAny(ts, pos, [LEFT_PAREN]) ==> r == GroupAt(ts, pos + 1))
      && (!MatchesAny(ts, pos, [FALSE, TRUE, NIL, NUMBER, STRING, LEFT_PAREN]) ==> r == Failed(NoPrimary, pos))
    decreases |ts| - pos, 1
  {
    if MatchesAny(ts, pos, [LEFT_PAREN]) {
      GroupNested(ts, pos + 1);
    }
  }

  lemma {:induction false} GroupNested(ts: seq<Token>, pos: nat)
    requires Within(ts, pos)
    ensures Shaped(GroupAt(ts, pos), 5)
    ensures GroupAt(ts, pos).Produced? ==> GroupAt(ts, pos).expr.Grouping?
    decreases |ts| - pos, 12
  {
    ExpressionNested(ts, pos);
  }

  /** The kinds an expression can start with: the unary operators and the first tokens of primaries. */
  const ExpressionStarts: seq<TokenType> := [BANG, MINUS, FALSE, TRUE, NIL, NUMBER, STRING, LEFT_PAREN]

  /** A unary parse stops at once with `NoPrimary` exactly when the token there starts no expression. */
  lemma UnaryStarts(ts: seq<Token>, pos: nat)
    requires Within(ts, pos)
    ensures UnaryAt(ts, pos) == Failed(NoPrimary, pos) <==> !MatchesAny(ts, pos, ExpressionStarts)
  {
    if MatchesAny(ts, pos, [BANG, MINUS]) {
      assert UnaryAt(ts, pos).Produced? || UnaryAt(ts, pos).at > pos;
    } else if MatchesAny(ts, pos, [LEFT_PAREN]) {
      assert PrimaryAt(ts, pos).Produced? || PrimaryAt(ts, pos).at > pos;
    }
  }

  /** A binary level stops at once with `NoPrimary` exactly when a unary parse there does. */
  lemma {:induction false} LevelStarts(ts: seq<Token>, pos: nat, lv: Level)
    requires Within(ts, pos)
    ensures LevelAt(ts, pos, lv) == Failed(NoPrimary, pos) <==> UnaryAt(ts, pos) == Failed(NoPrimary, pos)
    decreases 4 - Binding(lv)
  {
    if lv != FactorLevel {
      LevelStarts(ts, pos, Tighter(lv));
    }
    match OperandAt(ts, pos, lv)
    case Failed(f, at) =>
      assert LevelAt(ts, pos, lv) == Failed(f, at);
    case Produced(e, next) =>
      assert LevelAt(ts, pos, lv) == LevelRest(ts, e, next, lv);
  }

  /**
   * An expression parse fails without consuming anything exactly when the
   * first token starts no expression (the EOF token included).
   */
  lemma NoExpressionStart(ts: seq<Token>, pos: nat)
    requires Within(ts, pos)
    ensures ExpressionAt(ts, pos) == Failed(NoPrimary, pos) <==> !MatchesAny(ts, pos, ExpressionStarts)
  {
    LevelStarts(ts, pos, EqualityLevel);
    UnaryStarts(ts, pos);
  }

  // ---------------------------------------------------------------------
  // The tree spells the tokens it was parsed from
  // ---------------------------------------------------------------------

  /**
   * What a token stands for in a tree: the literal value of a literal keyword
   * or of a NUMBER or STRING token, a parenthesis, or else the operator token
   * itself.
   */
  datatype Symbol = Lit(value: LiteralValue) | Open | Close | Op(token: Token)

  function View(t: Token): Symbol {
    match t.kind
    case FALSE => Lit(BoolLiteral(false))
    case TRUE => Lit(BoolLiteral(true))
    case NIL => Lit(NilLiteral)
    case NUMBER => Lit(t.literal)
    case STRING => Lit(t.literal)
    case LEFT_PAREN => Open
    case RIGHT_PAREN => Close
    case _ => Op(t)
  }

  /** The symbols of the tokens from `a` up to `b`. */
  function Views(ts: seq<Token>, a: nat, b: nat): seq<Symbol>
    requires a <= b <= |ts|
    decreases b - a
  {
    if a == b then [] else [View(ts[a])] + Views(ts, a + 1, b)
  }

  lemma {:induction false} ViewsSplit(ts: seq<Token>, a: nat, m: nat, b: nat)
    requires a <= m <= b <= |ts|
    ensures Views(ts, a, b) == Views(ts, a, m) + Views(ts, m, b)
    decreases m - a
  {
    if a < m {
      ViewsSplit(ts, a + 1, m, b);
    }
  }

  /**
   * A tree read back left to right: operands around their operator, a unary
   * operator before its operand, a group inside its parentheses.
   */
  function Yield(e: Expr): seq<Symbol> {
    match e
    case Binary(l, op, r) => Yield(l) + [Op(op)] + Yield(r)
    case Unary(op, x) => [Op(op)] + Yield(x)
    case Grouping(x) => [Open] + Yield(x) + [Close]
    case Literal(v) => [Lit(v)]
    case _ => []
  }

  /**
   * A parse from `from` that yields a tree consumed exactly the tokens the
   * tree reads back as: the same operator tokens and literals, in order.
   */
  predicate Spells(ts: seq<Token>, from: nat, r: Parse) {
    r.Produced? ==> from <= r.next <= |ts| && Views(ts, from, r.next) == Yield(r.expr)
  }

  /** An operator the levels match stands for itself. */
  lemma OperatorViews(t: Token, lv: Level)
    requires t.kind in Operators(lv)
    ensures View(t) == Op(t)
  {
  }

  /**
   * Every tree the parser yields spells the tokens it consumed, so no token
   * is dropped, duplicated or reordered and each operator node carries the
   * token that was read.
   */
  lemma {:induction false} ExpressionSpells(ts: seq<Token>, pos: nat)
    requires Within(ts, pos)
    ensures Spells(ts, pos, ExpressionAt(ts, pos))
    decreases |ts| - pos, 11
  {
    LevelSpells(ts, pos, EqualityLevel);
  }

  lemma {:induction false} LevelSpells(ts: seq<Token>, pos: nat, lv: Level)
    requires Within(ts, pos)
    ensures Spells(ts, pos, LevelAt(ts, pos, lv))
    decreases |ts| - pos, 12 - 2 * Binding(lv)
  {
    OperandSpells(ts, pos, lv);
    match OperandAt(ts, pos, lv)
    case Failed(_, _) =>
    case Produced(e, next) =>
      LevelRestSpells(ts, e, pos, next, lv);
  }

  lemma {:induction false} OperandSpells(ts: seq<Token>, pos: nat, lv: Level)
    requires Within(ts, pos)
    ensures Spells(ts, pos, OperandAt(ts, pos, lv))
    decreases |ts| - pos, 11 - 2 * Binding(lv)
  {
    if lv == FactorLevel {
      UnarySpells(ts, pos);
    } else {
      LevelSpells(ts, pos, Tighter(lv));
    }
  }

  /** The loop keeps spelling: with `left` spelled by the tokens from `from`, so is every tree it extends it to. */
  lemma {:induction false} LevelRestSpells(ts: seq<Token>, left: Expr, from: nat, pos: nat, lv: Level)
    requires Within(ts, pos) && from <= pos
    requires Views(ts, from, pos) == Yield(left)
    ensures Spells(ts, from, LevelRest(ts, left, pos, lv))
    decreases |ts| - pos, 0
  {
    if MatchesAny(ts, pos, Operators(lv)) {
      var operand := OperandAt(ts, pos + 1, lv);
      OperandSpells(ts, pos + 1, lv);
      if operand.Produced? {
        var joined := Binary(left, ts[pos], operand.expr);
        OperatorViews(ts[pos], lv);
        ViewsSplit(ts, from, pos, operand.next);
        assert Views(ts, pos, operand.next) == [Op(ts[pos])] + Views(ts, pos + 1, operand.next);
        assert Views(ts, from, operand.next) == Yield(joined);
        LevelRestSpells(ts, joined, from, operand.next, lv);
        assert LevelRest(ts, left, pos, lv) == LevelRest(ts, joined, operand.next, lv);
      }
    }
  }

  lemma {:induction false} UnarySpells(ts: seq<Token>, pos: nat)
    requires Within(ts, pos)
    ensures Spells(ts, pos, UnaryAt(ts, pos))
    decreases |ts| - pos, 2
  {
    if MatchesAny(ts, pos, [BANG, MINUS]) {
      UnarySpells(ts, pos + 1);
    } else {
      PrimarySpells(ts, pos);
    }
  }

  lemma {:induction false} PrimarySpells(ts: seq<Token>, pos: nat)
    requires Within(ts, pos)
    ensures Spells(ts, pos, PrimaryAt(ts, pos))
    decreases |ts| - pos, 1
  {
    if MatchesAny(ts, pos, [FALSE, TRUE, NIL, NUMBER, STRING]) {
      assert Views(ts, pos, pos + 1) == [View(ts[pos])];
    } else if MatchesAny(ts, pos, [LEFT_PAREN]) {
      var r := GroupAt(ts, pos + 1);
      GroupSpells(ts, pos + 1);
      if r.Produced? {
        assert Views(ts, pos, r.next) == [Open] + Views(ts, pos + 1, r.next);
      }
    }
  }

  /** A group spells its expression's tokens followed by the `)`; the `(` before it is the caller's. */
  lemma {:induction false} GroupSpells(ts: seq<Token>, pos: nat)
    requires Within(ts, pos)
    ensures var r := GroupAt(ts, pos);
      r.Produced? ==> && r.expr.Grouping? && pos <= r.next <= |ts|
                      && Views(ts, pos, r.next) == Yield(r.expr.expression) + [Close]
    decreases |ts| - pos, 12
  {
    ExpressionSpells(ts, pos);
    match ExpressionAt(ts, pos)
    case Failed(_, _) =>
    case Produced(e, next) =>
      if Checks(ts, next, RIGHT_PAREN) {
        ViewsSplit(ts, pos, next, next + 1);
        assert Views(ts, next, next + 1) == [Close];
      }
  }

  // ---------------------------------------------------------------------
  // Two worked parses
  // ---------------------------------------------------------------------

  /** A NUMBER token not followed by a tighter operator is, at any level, an operand by itself. */
  lemma {:induction false} NumberOperand(ts: seq<Token>, pos: nat, lv: Level)
    requires Within(ts, pos) && ts[pos].kind == NUMBER
    requires pos + 1 < |ts| && OperatorBinding(ts[pos + 1].kind) <= Binding(lv)
    ensures OperandAt(ts, pos, lv) == Produced(Literal(ts[pos].literal), pos + 1)
    decreases 4 - Binding(lv)
  {
    if lv == FactorLevel {
      assert UnaryAt(ts, pos) == PrimaryAt(ts, pos);
    } else {
      var t := Tighter(lv);
      NumberOperand(ts, pos, t);
      if ts[pos + 1].kind in Operators(t) {
        OperatorsBind(t, ts[pos + 1].kind);
      }
      assert LevelAt(ts, pos, t) == LevelRest(ts, Literal(ts[pos].literal), pos + 1, t);
    }
  }

  /** A level whose operand stops before a token that is none of its operators yields that operand. */
  lemma LevelPassesOn(ts: seq<Token>, pos: nat, lv: Level)
    requires Within(ts, pos)
    requires OperandAt(ts, pos, lv).Produced?
    requires OperatorBinding(ts[OperandAt(ts, pos, lv).next].kind) != Binding(lv)
    ensures LevelAt(ts, pos, lv) == OperandAt(ts, pos, lv)
  {
    var r := OperandAt(ts, pos, lv);
    if ts[r.next].kind in Operators(lv) {
      OperatorsBind(lv, ts[r.next].kind);
    }
    assert LevelAt(ts, pos, lv) == LevelRest(ts, r.expr, r.next, lv);
  }

  /** `a - b - c` nests to the left: `(a - b) - c`. */
  lemma MinusChainsLeft(a: Token, m1: Token, b: Token, m2: Token, c: Token, eof: Token)
    requires a.kind == NUMBER && b.kind == NUMBER && c.kind == NUMBER
    requires m1.kind == MINUS && m2.kind == MINUS && eof.kind == EOF
    ensures var ts := [a, m1, b, m2, c, eof];
      ExpressionAt(ts, 0) == Produced(Binary(Binary(Literal(a.literal), m1, Literal(b.literal)), m2, Literal(c.literal)), 5)
  {
    var ts := [a, m1, b, m2, c, eof];
    var ab := Binary(Literal(a.literal), m1, Literal(b.literal));
    var abc := Binary(ab, m2, Literal(c.literal));
    NumberOperand(ts, 0, TermLevel);
    NumberOperand(ts, 2, TermLevel);
    NumberOperand(ts, 4, TermLevel);
    assert LevelRest(ts, abc, 5, TermLevel) == Produced(abc, 5);
    assert LevelRest(ts, ab, 3, TermLevel) == Produced(abc, 5);
    assert LevelRest(ts, Literal(a.literal), 1, TermLevel) == Produced(abc, 5);
    assert LevelAt(ts, 0, TermLevel) == Produced(abc, 5);
    LevelPassesOn(ts, 0, ComparisonLevel);
    LevelPassesOn(ts, 0, EqualityLevel);
  }

  /** `a + b * c` binds `*` tighter: `a + (b * c)`. */
  lemma StarBindsTighter(a: Token, plus: Token, b: Token, star: Token, c: Token, eof: Token)
    requires a.kind == NUMBER && b.kind == NUMBER && c.kind == NUMBER
    requires plus.kind == PLUS && star.kind == STAR && eof.kind == EOF
    ensures var ts := [a, plus, b, star, c, eof];
      ExpressionAt(ts, 0) == Produced(Binary(Literal(a.literal), plus, Binary(Literal(b.literal), star, Literal(c.literal))), 5)
  {
    var ts := [a, plus, b, star, c, eof];
    var bc := Binary(Literal(b.literal), star, Literal(c.literal));
    var abc := Binary(Literal(a.literal), plus, bc);
    NumberOperand(ts, 0, TermLevel);
    NumberOperand(ts, 2, FactorLevel);
    NumberOperand(ts, 4, FactorLevel);
    assert LevelRest(ts, bc, 5, FactorLevel) == Produced(bc, 5);
    assert LevelRest(ts, Literal(b.literal), 3, FactorLevel) == Produced(bc, 5);
    assert OperandAt(ts, 2, TermLevel) == Produced(bc, 5);
    assert LevelRest(ts, abc, 5, TermLevel) == Produced(abc, 5);
    assert LevelRest(ts, Literal(a.literal), 1, TermLevel) == Produced(abc, 5);
    assert LevelAt(ts, 0, TermLevel) == Produced(abc, 5);
    LevelPassesOn(ts, 0, ComparisonLevel);
    LevelPassesOn(ts, 0, EqualityLevel);
  }
}
