/**
 * The debug printer: an expression rendered as a fully parenthesized prefix
 * form. How a number's double is turned into text is the host's business, so
 * it is the parameter `showNum`.
 */
module Printing {
  import opened Tokens
  import opened Syntax

  /** The host's rendering of a literal's value: null as nil, booleans capitalised. */
  function ShowLiteral(literal: LiteralValue, showNum: Number -> string): string {
    match literal
    case NilLiteral => "nil"
    case BoolLiteral(b) => if b then "True" else "False"
    case NumberLiteral(n) => showNum(n)
    case StringLiteral(s) => s
  }

  /** Each part preceded by one space, in order. */
  function Spaced(parts: seq<string>): string {
    if |parts| == 0 then "" else " " + parts[0] + Spaced(parts[1..])
  }

  /** `(`, the name, each part after a space, `)`. */
  function Parenthesized(name: string, parts: seq<string>): string {
    "(" + name + Spaced(parts) + ")"
  }

  /**
   * What the printer produces for an expression: every node but a literal is
   * in parentheses, with its operator's lexeme (or `group`) first.
   */
  function Render(e: Expr, showNum: Number -> string): (r: string)
    requires Core(e)
    ensures !e.Literal? ==> |r| >= 2 && r[0] == '(' && r[|r| - 1] == ')'
    ensures e.Binary? || e.Unary? ==> |r| > |e.operator.lexeme| && r[1..|e.operator.lexeme| + 1] == e.operator.lexeme
    ensures e.Grouping? ==> |r| > 6 && r[..6] == "(group"
  {
    match e
    case Binary(left, operator, right) =>
      Parenthesized(operator.lexeme, [Render(left, showNum), Render(right, showNum)])
    case Grouping(inner) => Parenthesized("group", [Render(inner, showNum)])
    case Literal(literal) => ShowLiteral(literal, showNum)
    case Unary(operator, right) =>
      var inner := Render(right, showNum);
      assert Parenthesized(operator.lexeme, [inner]) == "(" + operator.lexeme + (Spaced([inner]) + ")");
      Parenthesized(operator.lexeme, [inner])
  }

  /** Prints an expression by visiting it. */
  method Print(e: Expr, showNum: Number -> string) returns (s: string)
    requires Core(e)
    ensures s == Render(e, showNum)
    decreases e, 1
  {
    match e
    case Binary(left, operator, right) =>
      s := Parenthesize(operator.lexeme, [left, right], showNum, e);
      assert RenderAll([left, right], showNum) == [Render(left, showNum), Render(right, showNum)];
    case Grouping(inner) =>
      s := Parenthesize("group", [inner], showNum, e);
      assert RenderAll([inner], showNum) == [Render(inner, showNum)];
    case Literal(literal) =>
      s := ShowLiteral(literal, showNum);
    case Unary(operator, right) =>
      s := Parenthesize(operator.lexeme, [right], showNum, e);
      assert RenderAll([right], showNum) == [Render(right, showNum)];
  }

  /** The renderings of several expressions, in order. */
  function RenderAll(exprs: seq<Expr>, showNum: Number -> string): (r: seq<string>)
    requires forall x :: x in exprs ==> Core(x)
    ensures |r| == |exprs| && forall i :: 0 <= i < |exprs| ==> r[i] == Render(exprs[i], showNum)
  {
    if |exprs| == 0 then [] else [Render(exprs[0], showNum)] + RenderAll(exprs[1..], showNum)
  }

  /** Writes `(` and the name, then a space and each child's rendering, then `)`. */
  method Parenthesize(name: string, exprs: seq<Expr>, showNum: Number -> string, ghost parent: Expr)
    returns (s: string)
    requires forall x :: x in exprs ==> Core(x) && x < parent
    ensures s == Parenthesized(name, RenderAll(exprs, showNum))
    decreases parent, 0
  {
    ghost var parts := RenderAll(exprs, showNum);
    var writer := "(" + name;
    for i := 0 to |exprs|
      invariant writer == "(" + name + Spaced(parts[..i])
    {
      assert exprs[i] in exprs;
      var part := Print(exprs[i], showNum);
      SpacedSnoc(parts[..i], part);
      assert parts[..i + 1] == parts[..i] + [part];
      writer := writer + " " + part;
    }
    assert parts[..|exprs|] == parts;
    s := writer + ")";
  }

  lemma {:induction false} SpacedSnoc(parts: seq<string>, last: string)
    ensures Spaced(parts + [last]) == Spaced(parts) + " " + last
  {
    if |parts| > 0 {
      assert (parts + [last])[1..] == parts[1..] + [last];
      SpacedSnoc(parts[1..], last);
    }
  }

  /** How often `c` occurs in `s`. */
  function Occurrences(s: string, c: char): nat {
    if |s| == 0 then 0 else (if s[0] == c then 1 else 0) + Occurrences(s[1..], c)
  }

  lemma {:induction false} OccurrencesConcat(a: string, b: string, c: char)
    ensures Occurrences(a + b, c) == Occurrences(a, c) + Occurrences(b, c)
  {
    if |a| > 0 {
      assert (a + b)[1..] == a[1..] + b;
      OccurrencesConcat(a[1..], b, c);
    } else {
      assert a + b == b;
    }
  }

  lemma {:induction false} NoOccurrences(s: string, c: char)
    requires c !in s
    ensures Occurrences(s, c) == 0
  {
    if |s| > 0 {
      NoOccurrences(s[1..], c);
    }
  }

  /** The number of operator and grouping nodes: each prints one pair of parentheses. */
  function Nodes(e: Expr): nat {
    match e
    case Binary(l, _, r) => 1 + Nodes(l) + Nodes(r)
    case Grouping(x) => 1 + Nodes(x)
    case Unary(_, x) => 1 + Nodes(x)
    case _ => 0
  }

  /** No operator lexeme and no literal's text contains a parenthesis. */
  predicate PlainText(e: Expr, showNum: Number -> string) {
    match e
    case Binary(l, op, r) => '(' !in op.lexeme && ')' !in op.lexeme && PlainText(l, showNum) && PlainText(r, showNum)
    case Grouping(x) => PlainText(x, showNum)
    case Literal(literal) =>
      var text := ShowLiteral(literal, showNum);
      '(' !in text && ')' !in text
    case Unary(op, x) => '(' !in op.lexeme && ')' !in op.lexeme && PlainText(x, showNum)
    case _ => true
  }

  /** How often `c` occurs in the parts altogether. */
  function OccurrencesAll(parts: seq<string>, c: char): nat {
    if |parts| == 0 then 0 else Occurrences(parts[0], c) + OccurrencesAll(parts[1..], c)
  }

  lemma {:induction false} SpacedCount(parts: seq<string>, c: char)
    requires c != ' '
    ensures Occurrences(Spaced(parts), c) == OccurrencesAll(parts, c)
  {
    if |parts| > 0 {
      OccurrencesConcat(" " + parts[0], Spaced(parts[1..]), c);
      OccurrencesConcat(" ", parts[0], c);
      SpacedCount(parts[1..], c);
    }
  }

  /** A parenthesized form adds one `(` and one `)` to what its name-free parts hold. */
  lemma ParenthesizedCount(name: string, parts: seq<string>, c: char)
    requires (c == '(' || c == ')') && c !in name
    ensures Occurrences(Parenthesized(name, parts), c) == 1 + OccurrencesAll(parts, c)
  {
    OccurrencesConcat("(" + name + Spaced(parts), ")", c);
    OccurrencesConcat("(" + name, Spaced(parts), c);
    OccurrencesConcat("(", name, c);
    NoOccurrences(name, c);
    SpacedCount(parts, c);
  }

  /**
   * When no lexeme or literal text brings its own parentheses, the output holds
   * exactly one `(` and one `)` per operator or grouping node.
   */
  lemma {:induction false} ParenthesesCountNodes(e: Expr, showNum: Number -> string, c: char)
    requires Core(e) && PlainText(e, showNum) && (c == '(' || c == ')')
    ensures Occurrences(Render(e, showNum), c) == Nodes(e)
  {
    match e
    case Binary(l, op, r) =>
      ParenthesesCountNodes(l, showNum, c);
      ParenthesesCountNodes(r, showNum, c);
      var parts := [Render(l, showNum), Render(r, showNum)];
      ParenthesizedCount(op.lexeme, parts, c);
      assert parts[1..][1..] == [];
    case Grouping(x) =>
      ParenthesesCountNodes(x, showNum, c);
      ParenthesizedCount("group", [Render(x, showNum)], c);
    case Literal(literal) =>
      NoOccurrences(ShowLiteral(literal, showNum), c);
    case Unary(op, x) =>
      ParenthesesCountNodes(x, showNum, c);
      ParenthesizedCount(op.lexeme, [Render(x, showNum)], c);
  }
}
