/**
 * The scanner object: a cursor over the source text that appends tokens to
 * its list and diagnostics to the reported ones, proved step by step against
 * `LexicalGrammar.ScanStep` and, for the whole pass, `LexicalGrammar.ScanFrom`.
 */
module Scanning {
  import opened Tokens
  import opened Outcomes
  import opened LexicalGrammar

  /** The scanner fields one step of `scanToken` changes. */
  datatype Progress = Progress(current: nat, line: int, tokens: seq<Token>, diagnostics: seq<Diagnostic>)

  /** The effect `step` describes, taking `before` to `after`; `ok` is false when it throws. */
  ghost predicate Applied(step: Step, ok: bool, before: Progress, after: Progress) {
    match step
    case OutOfRange(at) =>
      !ok && after == before.(current := at)
    case Scanned(t, d, next, l) =>
      && ok
      && after == Progress(next, l, before.tokens + t, before.diagnostics + d)
  }

  /** One `scanToken` from `before` leaves the rest of the pass unchanged: it moves its output into the lists. */
  lemma ScanOn(s: string, before: Progress, after: Progress, ok: bool)
    requires before.current < |s|
    requires Applied(ScanStep(s, before.current, before.line), ok, before, after)
    ensures after.current <= |s|
    ensures ok ==>
      Prepend(after.tokens, after.diagnostics, ScanFrom(s, after.current, after.line))
        == Prepend(before.tokens, before.diagnostics, ScanFrom(s, before.current, before.line))
    ensures !ok ==>
      && after == before.(current := after.current)
      && ScanFrom(s, before.current, before.line) == Crashed([], [], before.line, after.current)
  {
    match ScanStep(s, before.current, before.line)
    case OutOfRange(at) =>
      assert ScanFrom(s, before.current, before.line) == Crashed([], [], before.line, at);
    case Scanned(t, d, next, l) =>
      assert ScanFrom(s, before.current, before.line) == Prepend(t, d, ScanFrom(s, next, l));
      PrependTwice(before.tokens, before.diagnostics, t, d, ScanFrom(s, next, l));
  }

  class Scanner {
    const source: string
    var tokens: seq<Token>
    var start: nat
    var current: nat
    var line: int
    /** What the scanner reported through the error sink, in order. */
    var diagnostics: seq<Diagnostic>

    ghost predicate Valid()
      reads this
    {
      start <= current <= |source|
    }

    constructor (source: string)
      ensures Valid()
      ensures this.source == source
      ensures tokens == [] && diagnostics == []
      ensures start == 0 && current == 0 && line == 1
    {
      this.source := source;
      tokens := [];
      diagnostics := [];
      start := 0;
      current := 0;
      line := 1;
    }

    /** Whether the cursor has passed the last character; within bounds, exactly when it is at the end. */
    function IsAtEnd(): (b: bool)
      reads this
      ensures Valid() ==> (b <==> current == |source|)
      ensures !b ==> current < |source|
    {
      current >= |source|
    }

    /**
     * Scans the rest of the text and appends the EOF token; returns the
     * token list, or None when a step throws (the cursor is then where it threw).
     */
    method ScanTokens() returns (r: Option<seq<Token>>)
      requires Valid()
      modifies this
      ensures Valid()
      ensures var scan := ScanFrom(source, old(current), old(line));
        && tokens == old(tokens) + scan.tokens + (if scan.Finished? then [EofToken(scan.line)] else [])
        && diagnostics == old(diagnostics) + scan.diagnostics
        && line == scan.line
        && current == (if scan.Finished? then |source| else scan.at)
        && r == (if scan.Finished? then Some(tokens) else None)
    {
      ghost var whole := ScanFrom(source, current, line);
      ghost var before := Progress(current, line, tokens, diagnostics);
      while !IsAtEnd()
        invariant Valid()
        invariant Prepend(tokens, diagnostics, ScanFrom(source, current, line)) == Prepend(before.tokens, before.diagnostics, whole)
        decreases |source| - current
      {
        start := current;
        ghost var prior := Progress(current, line, tokens, diagnostics);
        var ok := ScanToken();
        ScanOn(source, prior, Progress(current, line, tokens, diagnostics), ok);
        if !ok {
          assert tokens + [] == tokens && diagnostics + [] == diagnostics;
          return None;
        }
      }
      assert tokens + [] == tokens && diagnostics + [] == diagnostics;
      tokens := tokens + [EofToken(line)];
      r := Some(tokens);
    }

    /** One step of the scan, as `ScanStep` describes it; `ok` is false when it throws. */
    method ScanToken() returns (ok: bool)
      requires Valid() && start == current < |source|
      modifies this`current, this`line, this`tokens, this`diagnostics
      ensures Applied(ScanStep(source, old(current), old(line)), ok, old(Progress(current, line, tokens, diagnostics)), Progress(current, line, tokens, diagnostics))
    {
      var c := Advance();
      match Classify(c) {
        case SingleChar(kind) =>
          AddToken(kind, NilLiteral);
        case Operator(withEqual, alone) =>
          var m := Match('=');
          AddToken(if m then withEqual else alone, NilLiteral);
        case Slash =>
          var m := Match('/');
          if m {
            SkipWhile(ToLineEnd);
          } else {
            AddToken(SLASH, NilLiteral);
          }
        case Blank =>
        case LineFeed =>
          line := line + 1;
        case Quote =>
          ScanString();
        case Digit =>
          ok := ScanNumber();
          return;
        case Letter =>
          ScanIdentifier();
        case Unexpected =>
          diagnostics := diagnostics + [AtLine(line, "Unexpected character.")];
      }
      ok := true;
    }

    /** Consumes the next character exactly when it is `expected`. */
    method Match(expected: char) returns (matched: bool)
      requires current <= |source|
      modifies this`current
      ensures matched == MatchesAt(source, old(current), expected)
      ensures current == old(current) + (if matched then 1 else 0)
    {
      if IsAtEnd() {
        return false;
      }
      if expected != source[current] {
        return false;
      }
      current := current + 1;
      return true;
    }

    /** Consumes and returns the next character. */
    method Advance() returns (c: char)
      requires current < |source|
      modifies this`current
      ensures c == source[old(current)] && current == old(current) + 1
    {
      c := source[current];
      current := current + 1;
    }

    /** Appends a token whose lexeme is the text from `start` to the cursor. */
    method AddToken(kind: TokenType, literal: LiteralValue)
      requires start <= current <= |source|
      modifies this`tokens
      ensures tokens == old(tokens) + [Token(kind, source[start..current], literal, line)]
    {
      tokens := tokens + [Token(kind, source[start..current], literal, line)];
    }

    /** The rest of a string literal, after its opening quote. */
    method ScanString()
      requires current == start + 1 <= |source|
      modifies this`current, this`line, this`tokens, this`diagnostics
      ensures Applied(StringStep(source, start, old(line)), true, old(Progress(current, line, tokens, diagnostics)), Progress(current, line, tokens, diagnostics))
    {
      SkipStringBody();
      if IsAtEnd() {
        assert StringStep(source, start, old(line)) == Scanned([], [AtLine(line, "Unterminated string")], current, line);
        diagnostics := diagnostics + [AtLine(line, "Unterminated string")];
        return;
      }
      assert StringStep(source, start, old(line))
        == Emit(source, start, current + 1, STRING, StringLiteral(source[start + 1..current]), line);
      var _ := Advance();
      var value := source[start + 1..current - 1];
      AddToken(STRING, StringLiteral(value));
    }

    /** The loop of `stringFunc`: up to the closing quote or the end, counting line feeds. */
    method SkipStringBody()
      requires current <= |source|
      modifies this`current, this`line
      ensures current == SpanEnd(source, old(current), ToQuote)
      ensures line == old(line) + LineFeeds(source, old(current), current)
    {
      while PeekAt(source, current) != '"' && !IsAtEnd()
        invariant old(current) <= current <= |source|
        invariant forall k :: old(current) <= k < current ==> source[k] != '"'
        invariant line == old(line) + LineFeeds(source, old(current), current)
        decreases |source| - current
      {
        if PeekAt(source, current) == '\n' {
          line := line + 1;
        }
        var _ := Advance();
      }
      SpanEndAt(source, old(current), current, ToQuote);
    }

    /** The rest of a number literal; `ok` is false when the look-ahead throws. */
    method ScanNumber() returns (ok: bool)
      requires current == start + 1 <= |source|
      requires IsDigit(source[start])
      modifies this`current, this`tokens
      ensures Applied(NumberStep(source, start, line), ok, old(Progress(current, line, tokens, diagnostics)), Progress(current, line, tokens, diagnostics))
    {
      SkipWhile(Digits);
      ok := SkipFraction();
      if ok {
        AddToken(NUMBER, NumberLiteral(Parsed(source[start..current])));
      }
    }

    /** The optional fraction of a number: `.` and the digits after it, when a digit follows the `.`. */
    method SkipFraction() returns (ok: bool)
      requires current <= |source|
      modifies this`current
      ensures var r := FractionEnd(source, old(current));
        && ok == r.Ok?
        && current == (if ok then r.value else old(current))
    {
      if PeekAt(source, current) == '.' {
        var next := PeekNextAt(source, current);
        if next.Err? {
          return false;
        }
        if IsDigit(next.value) {
          var _ := Advance();
          SkipWhile(Digits);
        }
      }
      ok := true;
    }

    /** The rest of an identifier or keyword. */
    method ScanIdentifier()
      requires current == start + 1 <= |source|
      modifies this`current, this`tokens
      ensures Applied(IdentifierStep(source, start, line), true, old(Progress(current, line, tokens, diagnostics)), Progress(current, line, tokens, diagnostics))
    {
      SkipWhile(AlphaNumerics);
      var text := source[start..current];
      var kind := KeywordType(text);
      AddToken(kind, NilLiteral);
    }

    /** Advances over the run of `p` characters: the skip loops of numbers, identifiers and comments. */
    method SkipWhile(p: Run)
      requires current <= |source|
      modifies this`current
      ensures current == SpanEnd(source, old(current), p)
    {
      while !IsAtEnd() && InRun(p, PeekAt(source, current))
        invariant old(current) <= current <= |source|
        invariant forall k :: old(current) <= k < current ==> InRun(p, source[k])
        decreases |source| - current
      {
        var _ := Advance();
      }
      SpanEndAt(source, old(current), current, p);
    }
  }

  /** A fresh scanner's pass yields exactly `Tokenize` of its text. */
  method Scan(source: string) returns (r: Option<seq<Token>>, diagnostics: seq<Diagnostic>)
    ensures r == Tokenize(source)
    ensures diagnostics == ScanFrom(source, 0, 1).diagnostics
  {
    var scanner := new Scanner(source);
    r := scanner.ScanTokens();
    diagnostics := scanner.diagnostics;
    assert [] + ScanFrom(source, 0, 1).tokens == ScanFrom(source, 0, 1).tokens;
    assert [] + ScanFrom(source, 0, 1).diagnostics == ScanFrom(source, 0, 1).diagnostics;
  }
}
