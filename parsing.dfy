/**
 * The parser object: a cursor over the token list, moved by `Match`,
 * `Consume` and `Advance`. Each parsing method is proved against the grammar
 * function of its level: it returns that function's result, leaves the cursor
 * where the function stops and reports what the function reports.
 */
module Parsing {
  import opened Tokens
  import opened Outcomes
  import opened Syntax
  import opened ExprGrammar

  class Parser {
    const tokens: seq<Token>
    var current: nat
    /** What the parser reported through the error sink, in order. */
    var diagnostics: seq<Diagnostic>

    ghost predicate Valid()
      reads this
    {
      Within(tokens, current)
    }

    constructor (tokens: seq<Token>)
      requires EofTerminated(tokens)
      ensures Valid()
      ensures this.tokens == tokens && current == 0 && diagnostics == []
    {
      this.tokens := tokens;
      current := 0;
      diagnostics := [];
    }

    method Expression() returns (r: Parse)
      requires Valid()
      modifies this`current, this`diagnostics
      ensures r == ExpressionAt(tokens, old(current))
      ensures current == Stop(r) && diagnostics == old(diagnostics) + Reported(tokens, r)
      decreases |tokens| - current, 11
    {
      r := Level(EqualityLevel);
    }

    /** `equality`, `comparison`, `term` and `factor`: an operand, then a loop over the level's operators. */
    method Level(lv: Level) returns (r: Parse)
      requires Valid()
      modifies this`current, this`diagnostics
      ensures r == LevelAt(tokens, old(current), lv)
      ensures current == Stop(r) && diagnostics == old(diagnostics) + Reported(tokens, r)
      decreases |tokens| - current, 12 - 2 * Binding(lv)
    {
      var first := Operand(lv);
      if first.Failed? {
        return first;
      }
      r := LevelLoop(lv, first.expr);
    }

    /** The loop of a binary level, with `left` the tree its operand parsed. */
    method LevelLoop(lv: Level, left: Expr) returns (r: Parse)
      requires Valid()
      modifies this`current, this`diagnostics
      ensures r == LevelRest(tokens, left, old(current), lv)
      ensures current == Stop(r) && diagnostics == old(diagnostics) + Reported(tokens, r)
      decreases |tokens| - current, 0
    {
      var expr := left;
      while true
        invariant Within(tokens, current) && old(current) <= current
        invariant LevelRest(tokens, left, old(current), lv) == LevelRest(tokens, expr, current, lv)
        invariant diagnostics == old(diagnostics)
        decreases |tokens| - current
      {
        var matched := Match(Operators(lv));
        if !matched {
          return Produced(expr, current);
        }
        var operator := Previous();
        var right := Operand(lv);
        if right.Failed? {
          return right;
        }
        expr := Binary(expr, operator, right.expr);
      }
    }

    /** The operand parser a level's loop calls: the next tighter level, or `unary` under factor. */
    method Operand(lv: Level) returns (r: Parse)
      requires Valid()
      modifies this`current, this`diagnostics
      ensures r == OperandAt(tokens, old(current), lv)
      ensures current == Stop(r) && diagnostics == old(diagnostics) + Reported(tokens, r)
      decreases |tokens| - current, 11 - 2 * Binding(lv)
    {
      if lv == FactorLevel {
        r := UnaryLevel();
      } else {
        r := Level(Tighter(lv));
      }
    }

    /** `unary`: prefix operators nest to the right, down to a primary. */
    method UnaryLevel() returns (r: Parse)
      requires Valid()
      modifies this`current, this`diagnostics
      ensures r == UnaryAt(tokens, old(current))
      ensures current == Stop(r) && diagnostics == old(diagnostics) + Reported(tokens, r)
      decreases |tokens| - current, 2
    {
      var matched := Match([BANG, MINUS]);
      if matched {
        var operator := Previous();
        var right := UnaryLevel();
        if right.Failed? {
          return right;
        }
        return Produced(Unary(operator, right.expr), current);
      }
      r := Primary();
    }

    method Primary() returns (r: Parse)
      requires Valid()
      modifies this`current, this`diagnostics
      ensures r == PrimaryAt(tokens, old(current))
      ensures current == Stop(r) && diagnostics == old(diagnostics) + Reported(tokens, r)
      decreases |tokens| - current, 1
    {
      var matched := Match([FALSE]);
      if matched {
        return Produced(Literal(BoolLiteral(false)), current);
      }
      matched := Match([TRUE]);
      if matched {
        return Produced(Literal(BoolLiteral(true)), current);
      }
      matched := Match([NIL]);
      if matched {
        return Produced(Literal(NilLiteral), current);
      }
      matched := Match([NUMBER, STRING]);
      if matched {
        var token := Previous();
        return Produced(Literal(token.literal), current);
      }
      matched := Match([LEFT_PAREN]);
      if matched {
        r := Group();
        return;
      }
      r := Failed(NoPrimary, current);
    }

    /** The grouping case of `primary`, after its `(`: an expression, then the `)` it consumes. */
    method Group() returns (r: Parse)
      requires Valid()
      modifies this`current, this`diagnostics
      ensures r == GroupAt(tokens, old(current))
      ensures current == Stop(r) && diagnostics == old(diagnostics) + Reported(tokens, r)
      decreases |tokens| - current, 12
    {
      var inner := Expression();
      if inner.Failed? {
        return inner;
      }
      var closing := Consume(RIGHT_PAREN, UnclosedGroup);
      if closing.None? {
        return Failed(Expected(UnclosedGroup), current);
      }
      r := Produced(Grouping(inner.expr), current);
    }

    /** Consumes a token of kind `kind`, or reports `message` at the current token and stops the parse (None). */
    method Consume(kind: TokenType, message: string) returns (t: Option<Token>)
      requires Valid()
      modifies this`current, this`diagnostics
      ensures Checks(tokens, old(current), kind) ==>
        t == Some(tokens[old(current)]) && current == old(current) + 1 && diagnostics == old(diagnostics)
      ensures !Checks(tokens, old(current), kind) ==>
        t == None && current == old(current) && diagnostics == old(diagnostics) + [AtToken(tokens[current], message)]
    {
      if Check(kind) {
        var token := Advance();
        return Some(token);
      }
      diagnostics := diagnostics + [AtToken(Peek(), message)];
      t := None;
    }

    /** Consumes the current token exactly when its kind is one of `kinds`, trying them in order. */
    method Match(kinds: seq<TokenType>) returns (matched: bool)
      requires Valid()
      modifies this`current
      ensures matched == MatchesAny(tokens, old(current), kinds)
      ensures current == old(current) + (if matched then 1 else 0)
    {
      for i := 0 to |kinds|
        invariant current == old(current)
        invariant forall j :: 0 <= j < i ==> !Checks(tokens, current, kinds[j])
      {
        if Check(kinds[i]) {
          var _ := Advance();
          return true;
        }
      }
      return false;
    }

    /** Whether the current token has kind `kind`; false at the end, even for EOF. */
    function Check(kind: TokenType): (b: bool)
      reads this
      requires current < |tokens|
      ensures b <==> kind != EOF && tokens[current].kind == kind
      ensures b == Checks(tokens, current, kind)
    {
      if IsAtEnd() then false else Peek().kind == kind
    }

    /** Whether the cursor is on the EOF token; in an EOF-terminated list, a token follows every other one. */
    function IsAtEnd(): (b: bool)
      reads this
      requires current < |tokens|
      ensures b == AtEnd(tokens, current)
      ensures EofTerminated(tokens) && !b ==> current + 1 < |tokens|
    {
      Peek().kind == EOF
    }

    function Peek(): Token
      reads this
      requires current < |tokens|
    {
      tokens[current]
    }

    /** Moves past the current token unless it is EOF, and returns the token before the cursor. */
    method Advance() returns (t: Token)
      requires current < |tokens|
      requires current > 0 || !AtEnd(tokens, current)
      modifies this`current
      ensures current == old(current) + (if AtEnd(tokens, old(current)) then 0 else 1)
      ensures t == tokens[current - 1]
    {
      if !IsAtEnd() {
        current := current + 1;
      }
      t := Previous();
    }

    function Previous(): Token
      reads this
      requires 0 < current <= |tokens|
    {
      tokens[current - 1]
    }
  }
}
