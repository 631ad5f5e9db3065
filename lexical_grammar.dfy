/**
 * The scanner's behaviour as functions: one step of `scanToken` from a start
 * position (`ScanStep`), the whole pass (`ScanFrom`, `Tokenize`), and the
 * properties of both.
 */
module LexicalGrammar {
  import opened Tokens
  import opened Outcomes

  // ---------------------------------------------------------------------
  // Character classes and the keyword table
  // ---------------------------------------------------------------------

  predicate IsDigit(c: char) { '0' <= c <= '9' }

  predicate IsAlpha(c: char) { ('a' <= c <= 'z') || ('A' <= c <= 'Z') || c == '_' }

  predicate IsAlphaNumeric(c: char) { IsAlpha(c) || IsDigit(c) }

  /** The runs of characters the scanner skips with a `while (...) advance();` loop. */
  datatype Run = Digits | AlphaNumerics | ToLineEnd | ToQuote

  predicate InRun(r: Run, c: char) {
    match r
    case Digits => IsDigit(c)
    case AlphaNumerics => IsAlphaNumeric(c)
    case ToLineEnd => c != '\n'
    case ToQuote => c != '"'
  }

  /** The keyword table, as the pairs the static constructor adds, in order. */
  const KeywordEntries: seq<(string, TokenType)> := [
    ("class", CLASS), ("else", ELSE), ("false", FALSE), ("for", FOR),
    ("fun", FUN), ("if", IF), ("nil", NIL), ("or", OR),
    ("print", PRINT), ("return", RETURN), ("super", SUPER), ("this", THIS),
    ("true", TRUE), ("var", VAR), ("while", WHILE), ("and", AND)]

  /**
   * `TryGetValue` on a dictionary filled with `entries`: the kind stored
   * under `text`, or the kind numbered 0 when there is none.
   */
  function Lookup(entries: seq<(string, TokenType)>, text: string): TokenType {
    if |entries| == 0 then DefaultTokenType
    else if entries[0].0 == text then entries[0].1
    else Lookup(entries[1..], text)
  }

  /** A lookup yields the default kind or the kind of an entry for that text. */
  lemma {:induction false} LookupStored(entries: seq<(string, TokenType)>, text: string)
    ensures var t := Lookup(entries, text);
      t == DefaultTokenType || exists i :: 0 <= i < |entries| && entries[i] == (text, t)
  {
    if |entries| > 0 && entries[0].0 != text {
      LookupStored(entries[1..], text);
      var t := Lookup(entries, text);
      if t != DefaultTokenType {
        var i :| 0 <= i < |entries| - 1 && entries[1..][i] == (text, t);
        assert entries[i + 1] == (text, t);
      }
    }
  }

  /** A text that no entry has is looked up as the default kind. */
  lemma {:induction false} LookupAbsent(entries: seq<(string, TokenType)>, text: string)
    requires forall i :: 0 <= i < |entries| ==> entries[i].0 != text
    ensures Lookup(entries, text) == DefaultTokenType
  {
    if |entries| > 0 {
      assert entries[0].0 != text;
      assert forall i :: 0 <= i < |entries| - 1 ==> entries[1..][i] == entries[i + 1];
      LookupAbsent(entries[1..], text);
    }
  }

  /** With distinct texts, the entry for a text is what a lookup of it yields. */
  lemma {:induction false} LookupPresent(entries: seq<(string, TokenType)>, i: nat)
    requires i < |entries|
    requires forall j, k :: 0 <= j < k < |entries| ==> entries[j].0 != entries[k].0
    ensures Lookup(entries, entries[i].0) == entries[i].1
  {
    if i > 0 {
      assert entries[0].0 != entries[i].0;
      assert forall j :: 0 <= j < |entries| - 1 ==> entries[1..][j] == entries[j + 1];
      LookupPresent(entries[1..], i - 1);
    }
  }

  /** The texts the static constructor adds are distinct, so none of its `Add` calls throws. */
  lemma KeywordTextsDistinct()
    ensures forall j, k :: 0 <= j < k < |KeywordEntries| ==> KeywordEntries[j].0 != KeywordEntries[k].0
  {
  }

  /**
   * The kind of an identifier-shaped lexeme. The lookup leaves the kind
   * numbered 0 when the text is not in the table, and kind 0 is then
   * replaced by IDENTIFIER: this is right because IDENTIFIER is kind 0 and
   * no keyword maps to it.
   */
  function KeywordType(text: string): (t: TokenType)
    ensures t != EOF
  {
    var found := Lookup(KeywordEntries, text);
    LookupStored(KeywordEntries, text);
    if Ordinal(found) == 0 then IDENTIFIER else found
  }

  /** Each keyword scans as its own kind. */
  lemma KeywordKind(i: nat)
    requires i < |KeywordEntries|
    ensures KeywordType(KeywordEntries[i].0) == KeywordEntries[i].1
  {
    KeywordTextsDistinct();
    LookupPresent(KeywordEntries, i);
  }

  /** Any other text scans as IDENTIFIER. */
  lemma NonKeywordKind(text: string)
    requires forall i :: 0 <= i < |KeywordEntries| ==> KeywordEntries[i].0 != text
    ensures KeywordType(text) == IDENTIFIER
  {
    LookupAbsent(KeywordEntries, text);
  }

  // ---------------------------------------------------------------------
  // Cursor reads
  // ---------------------------------------------------------------------

  /** `peek`: the character at `i`, or NUL past the end. */
  function PeekAt(s: string, i: nat): (c: char)
    ensures i < |s| ==> c == s[i]
    ensures i >= |s| ==> c == '\0'
  {
    if i >= |s| then '\0' else s[i]
  }

  /**
   * `peekNext` as written: its guard lets `i + 1 == |s|` through, and the
   * element read at index `|s|` then throws.
   */
  function PeekNextAt(s: string, i: nat): (r: Result<char>)
    ensures i + 1 < |s| ==> r == Ok(s[i + 1])
    ensures i + 1 > |s| ==> r == Ok('\0')
    ensures r.Err? <==> i + 1 == |s|
  {
    if i + 1 > |s| then Ok('\0')
    else if i + 1 < |s| then Ok(s[i + 1])
    else Err(Host(ArgumentOutOfRange))
  }

  /** `match(expected)` succeeds exactly when the next character is `expected`. */
  predicate MatchesAt(s: string, i: nat, expected: char) {
    i < |s| && s[i] == expected
  }

  /** The end of the run of characters satisfying `p` that starts at `i`. */
  function SpanEnd(s: string, i: nat, p: Run): (j: nat)
    requires i <= |s|
    ensures i <= j <= |s|
    ensures forall k :: i <= k < j ==> InRun(p, s[k])
    ensures j == |s| || !InRun(p, s[j])
    decreases |s| - i
  {
    if i == |s| || !InRun(p, s[i]) then i else SpanEnd(s, i + 1, p)
  }

  /** A run that is all `p` and stops before a non-`p` character or the end is the run `SpanEnd` finds. */
  lemma {:induction false} SpanEndAt(s: string, i: nat, j: nat, p: Run)
    requires i <= j <= |s|
    requires forall k :: i <= k < j ==> InRun(p, s[k])
    requires j == |s| || !InRun(p, s[j])
    ensures SpanEnd(s, i, p) == j
    decreases j - i
  {
    if i < j {
      SpanEndAt(s, i + 1, j, p);
    }
  }

  /** The number of line feeds in `s[a..b]`. */
  function LineFeeds(s: string, a: nat, b: nat): nat
    requires a <= b <= |s|
    decreases b - a
  {
    if a == b then 0 else LineFeeds(s, a, b - 1) + (if s[b - 1] == '\n' then 1 else 0)
  }

  lemma {:induction false} LineFeedsSplit(s: string, a: nat, m: nat, b: nat)
    requires a <= m <= b <= |s|
    ensures LineFeeds(s, a, b) == LineFeeds(s, a, m) + LineFeeds(s, m, b)
    decreases b - m
  {
    if m < b {
      LineFeedsSplit(s, a, m, b - 1);
    }
  }

  lemma {:induction false} NoLineFeeds(s: string, a: nat, b: nat)
    requires a <= b <= |s|
    requires forall k :: a <= k < b ==> s[k] != '\n'
    ensures LineFeeds(s, a, b) == 0
    decreases b - a
  {
    if a < b {
      NoLineFeeds(s, a, b - 1);
    }
  }

  // ---------------------------------------------------------------------
  // One call of scanToken
  // ---------------------------------------------------------------------

  /**
   * What one call of `scanToken` does: the tokens it adds and the
   * diagnostics it reports (at most one of each), where the cursor and the
   * line counter end up; or the position at which it throws.
   */
  datatype Step =
    | Scanned(tokens: seq<Token>, diagnostics: seq<Diagnostic>, next: nat, line: int)
    | OutOfRange(at: nat)

  /**
   * What every step promises: a throw happens only at a `.` that ends the
   * text right after a digit; otherwise the cursor moves forward, and at most
   * one token (never EOF, with the consumed text as its lexeme and the final
   * line) and at most one diagnostic come out.
   */
  predicate StepShape(s: string, start: nat, r: Step)
    requires start < |s|
  {
    match r
    case OutOfRange(at) => start < at && at + 1 == |s| && s[at] == '.' && IsDigit(s[at - 1])
    case Scanned(ts, ds, next, l) =>
      && start < next <= |s|
      && |ts| <= 1 && |ds| <= 1
      && (ts != [] ==> ts[0].kind != EOF && ts[0].lexeme == s[start..next] && ts[0].line == l)
  }

  /** `addToken`: the token's lexeme is the text from `start` to the cursor. */
  function Emit(s: string, start: nat, next: nat, kind: TokenType, literal: LiteralValue, line: int): Step
    requires start <= next <= |s|
  {
    Scanned([Token(kind, s[start..next], literal, line)], [], next, line)
  }

  /** A one-character operator, or its two-character form when `=` follows. */
  function OperatorStep(s: string, start: nat, line: int, withEqual: TokenType, alone: TokenType): (r: Step)
    requires start < |s|
    requires withEqual != EOF && alone != EOF
  {
    if MatchesAt(s, start + 1, '=') then Emit(s, start, start + 2, withEqual, NilLiteral, line)
    else Emit(s, start, start + 1, alone, NilLiteral, line)
  }

  /** `stringFunc`, entered with the opening quote at `start`. */
  function StringStep(s: string, start: nat, line: int): (r: Step)
    requires start < |s|
  {
    var close := SpanEnd(s, start + 1, ToQuote);
    var l := line + LineFeeds(s, start + 1, close);
    if close == |s| then Scanned([], [AtLine(l, "Unterminated string")], close, l)
    else Emit(s, start, close + 1, STRING, StringLiteral(s[start + 1..close]), l)
  }

  /** The NUMBER token for the text from `start` to `end`. */
  function NumberToken(s: string, start: nat, end: nat, line: int): Step
    requires start <= end <= |s|
  {
    Emit(s, start, end, NUMBER, NumberLiteral(Parsed(s[start..end])), line)
  }

  /**
   * Where a number whose digits run up to `intEnd` ends: past the fraction
   * when `.` and a digit follow, else at `intEnd`. The look-ahead past the
   * `.` throws when the `.` is the last character.
   */
  function FractionEnd(s: string, intEnd: nat): Result<nat> {
    if PeekAt(s, intEnd) == '.' then
      match PeekNextAt(s, intEnd)
      case Err(f) => Err(f)
      case Ok(c) => if IsDigit(c) then Ok(SpanEnd(s, intEnd + 1, Digits)) else Ok(intEnd)
    else Ok(intEnd)
  }

  /** `numberFunc`, entered with the first digit at `start`. */
  function NumberStep(s: string, start: nat, line: int): (r: Step)
    requires start < |s|
    requires IsDigit(s[start])
  {
    var intEnd := SpanEnd(s, start + 1, Digits);
    match FractionEnd(s, intEnd)
    case Err(_) => OutOfRange(intEnd)
    case Ok(end) => NumberToken(s, start, end, line)
  }

  /** `identifierFunc`, entered with the first letter at `start`. */
  function IdentifierStep(s: string, start: nat, line: int): (r: Step)
    requires start < |s|
  {
    var end := SpanEnd(s, start + 1, AlphaNumerics);
    Emit(s, start, end, KeywordType(s[start..end]), NilLiteral, line)
  }

  lemma OperatorStepShape(s: string, start: nat, line: int, withEqual: TokenType, alone: TokenType)
    requires start < |s|
    requires withEqual != EOF && alone != EOF
    ensures StepShape(s, start, OperatorStep(s, start, line, withEqual, alone))
  {
    var next := if MatchesAt(s, start + 1, '=') then start + 2 else start + 1;
    var kind := if MatchesAt(s, start + 1, '=') then withEqual else alone;
    assert OperatorStep(s, start, line, withEqual, alone) == Emit(s, start, next, kind, NilLiteral, line);
  }

  lemma StringStepShape(s: string, start: nat, line: int)
    requires start < |s|
    ensures StepShape(s, start, StringStep(s, start, line))
  {
  }

  lemma NumberStepShape(s: string, start: nat, line: int)
    requires start < |s| && IsDigit(s[start])
    ensures StepShape(s, start, NumberStep(s, start, line))
  {
  }

  lemma IdentifierStepShape(s: string, start: nat, line: int)
    requires start < |s|
    ensures StepShape(s, start, IdentifierStep(s, start, line))
  {
  }

  /** The case of `scanToken`'s switch that a first character selects. */
  datatype CharClass =
    | SingleChar(kind: TokenType)                       // a token that is always one character
    | Operator(withEqual: TokenType, alone: TokenType)  // `!`, `=`, `>`, `<`
    | Slash
    | Blank                                             // space, carriage return, tab
    | LineFeed
    | Quote
    | Digit
    | Letter
    | Unexpected

  function Classify(c: char): (k: CharClass)
    ensures k.Digit? <==> IsDigit(c)
    ensures k.Letter? <==> IsAlpha(c)
    ensures k.SingleChar? ==> k.kind != EOF
    ensures k.Operator? ==> k.withEqual != EOF && k.alone != EOF
  {
    match c
    case '(' => SingleChar(LEFT_PAREN)
    case ')' => SingleChar(RIGHT_PAREN)
    case '{' => SingleChar(LEFT_BRACE)
    case '}' => SingleChar(RIGHT_BRACE)
    case ',' => SingleChar(COMMA)
    case '.' => SingleChar(DOT)
    case '*' => SingleChar(STAR)
    case '+' => SingleChar(PLUS)
    case '-' => SingleChar(MINUS)
    case ';' => SingleChar(SEMICOLON)
    case '!' => Operator(BANG_EQUAL, BANG)
    case '=' => Operator(EQUAL_EQUAL, EQUAL)
    case '>' => Operator(GREATER_EQUAL, GREATER_THAN)
    case '<' => Operator(LESS_EQUAL, LESS_THAN)
    case '/' => Slash
    case ' ' => Blank
    case '\r' => Blank
    case '\t' => Blank
    case '\n' => LineFeed
    case '"' => Quote
    case _ => if IsDigit(c) then Digit else if IsAlpha(c) then Letter else Unexpected
  }

  /** `scanToken` started with the cursor at `start` and the line counter at `line`. */
  function ScanStep(s: string, start: nat, line: int): (r: Step)
    requires start < |s|
    ensures r.Scanned? ==> start < r.next <= |s|
    ensures r.OutOfRange? ==> start < r.at && r.at + 1 == |s| && s[r.at] == '.' && IsDigit(s[r.at - 1])
    ensures r.Scanned? ==> |r.tokens| <= 1 && |r.diagnostics| <= 1
    ensures r.Scanned? && r.tokens != [] ==>
      && r.tokens[0].kind != EOF
      && r.tokens[0].lexeme == s[start..r.next]
      && r.tokens[0].line == r.line
  {
    var next := start + 1;
    match Classify(s[start])
    case SingleChar(kind) => Emit(s, start, next, kind, NilLiteral, line)
    case Operator(withEqual, alone) =>
      OperatorStepShape(s, start, line, withEqual, alone);
      OperatorStep(s, start, line, withEqual, alone)
    case Slash =>
      if MatchesAt(s, next, '/') then Scanned([], [], SpanEnd(s, next + 1, ToLineEnd), line)
      else Emit(s, start, next, SLASH, NilLiteral, line)
    case Blank => Scanned([], [], next, line)
    case LineFeed => Scanned([], [], next, line + 1)
    case Quote =>
      StringStepShape(s, start, line);
      StringStep(s, start, line)
    case Digit =>
      NumberStepShape(s, start, line);
      NumberStep(s, start, line)
    case Letter =>
      IdentifierStepShape(s, start, line);
      IdentifierStep(s, start, line)
    case Unexpected => Scanned([], [AtLine(line, "Unexpected character.")], next, line)
  }

  // ---------------------------------------------------------------------
  // Properties of one step
  // ---------------------------------------------------------------------

  /** Characters that `scanToken` handles before its default case. */
  predicate HasOwnCase(c: char) {
    c in "(){},.*+-;!=<>/ \r\t\n\""
  }

  lemma StringStepLineFeeds(s: string, start: nat, line: int)
    requires start < |s| && s[start] == '"'
    ensures var r := StringStep(s, start, line);
      r.Scanned? && r.next <= |s| && r.line == line + LineFeeds(s, start, r.next)
  {
    var close := SpanEnd(s, start + 1, ToQuote);
    assert LineFeeds(s, start, start + 1) == 0;
    LineFeedsSplit(s, start, start + 1, close);
    if close < |s| {
      assert s[close] == '"';
      assert LineFeeds(s, start, close + 1) == LineFeeds(s, start, close);
    }
  }

  /** A number consumes digits and at most one `.`: no line feed, and the line stays. */
  lemma NumberStepLineFeeds(s: string, start: nat, line: int)
    requires start < |s| && IsDigit(s[start])
    ensures var r := NumberStep(s, start, line);
      r.Scanned? ==> r.next <= |s| && r.line == line && LineFeeds(s, start, r.next) == 0
  {
    var intEnd := SpanEnd(s, start + 1, Digits);
    match FractionEnd(s, intEnd)
    case Err(_) =>
    case Ok(end) =>
      assert NumberStep(s, start, line) == NumberToken(s, start, end, line);
      forall k | start <= k < end
        ensures s[k] != '\n'
      {
        if k > intEnd {
          assert IsDigit(s[k]);
        }
      }
      NoLineFeeds(s, start, end);
  }

  /** An identifier consumes letters and digits: no line feed, and the line stays. */
  lemma IdentifierStepLineFeeds(s: string, start: nat, line: int)
    requires start < |s| && IsAlpha(s[start])
    ensures var r := IdentifierStep(s, start, line);
      r.Scanned? && r.next <= |s| && r.line == line && LineFeeds(s, start, r.next) == 0
  {
    var r := IdentifierStep(s, start, line);
    IdentifierStepShape(s, start, line);
    assert forall k :: start <= k < r.next ==> IsAlphaNumeric(s[k]);
    NoLineFeeds(s, start, r.next);
  }

  /** The line counter grows by exactly the line feeds the step consumed. */
  lemma StepCountsLineFeeds(s: string, start: nat, line: int)
    requires start < |s|
    ensures var r := ScanStep(s, start, line);
      r.Scanned? ==> r.line == line + LineFeeds(s, start, r.next)
  {
    var next := start + 1;
    assert LineFeeds(s, start, next) == (if s[start] == '\n' then 1 else 0);
    match Classify(s[start])
    case Quote =>
      assert ScanStep(s, start, line) == StringStep(s, start, line);
      StringStepLineFeeds(s, start, line);
    case Digit =>
      assert ScanStep(s, start, line) == NumberStep(s, start, line);
      NumberStepLineFeeds(s, start, line);
    case Letter =>
      assert ScanStep(s, start, line) == IdentifierStep(s, start, line);
      IdentifierStepLineFeeds(s, start, line);
    case Slash =>
      if MatchesAt(s, next, '/') {
        var end := SpanEnd(s, next + 1, ToLineEnd);
        assert ScanStep(s, start, line) == Scanned([], [], end, line);
        assert forall k :: start <= k < end ==> s[k] != '\n';
        NoLineFeeds(s, start, end);
      }
    case Operator(withEqual, alone) =>
      if MatchesAt(s, next, '=') {
        assert ScanStep(s, start, line).next == start + 2;
        assert LineFeeds(s, start, start + 2) == 0;
      }
    case _ =>
      assert ScanStep(s, start, line).Scanned? ==> ScanStep(s, start, line).next == next;
  }

  /** Maximal munch: `!`, `=`, `<` and `>` take a following `=` into one token. */
  lemma OperatorMunch(s: string, start: nat, line: int)
    requires start < |s| && (s[start] == '!' || s[start] == '=' || s[start] == '<' || s[start] == '>')
    ensures var r := ScanStep(s, start, line);
      && r.Scanned? && |r.tokens| == 1 && r.diagnostics == []
      && (MatchesAt(s, start + 1, '=') <==> r.next == start + 2)
      && (!MatchesAt(s, start + 1, '=') <==> r.next == start + 1)
      && r.tokens[0].kind == (
          match s[start]
          case '!' => if r.next == start + 2 then BANG_EQUAL else BANG
          case '=' => if r.next == start + 2 then EQUAL_EQUAL else EQUAL
          case '<' => if r.next == start + 2 then LESS_EQUAL else LESS_THAN
          case _ => if r.next == start + 2 then GREATER_EQUAL else GREATER_THAN)
  {
  }

  /** `//` skips up to, not including, the next line feed; a lone `/` is SLASH. */
  lemma SlashOrComment(s: string, start: nat, line: int)
    requires start < |s| && s[start] == '/'
    ensures var r := ScanStep(s, start, line);
      && r.Scanned? && r.diagnostics == [] && r.line == line
      && (MatchesAt(s, start + 1, '/') ==>
            && r.tokens == []
            && (forall k :: start + 2 <= k < r.next ==> s[k] != '\n')
            && (r.next == |s| || s[r.next] == '\n'))
      && (!MatchesAt(s, start + 1, '/') ==>
            r.tokens == [Token(SLASH, "/", NilLiteral, line)] && r.next == start + 1)
  {
    if !MatchesAt(s, start + 1, '/') {
      assert s[start..start + 1] == "/";
    }
  }

  /**
   * A terminated string is one STRING token whose literal is the text
   * strictly between the quotes; an unterminated one, which has no closing
   * quote anywhere after the opening one, reports and adds nothing.
   */
  lemma StringLiteralStep(s: string, start: nat, line: int)
    requires start < |s| && s[start] == '"'
    ensures var r := StringStep(s, start, line);
      && r.Scanned?
      && (forall k :: start + 1 <= k < r.next - 1 ==> s[k] != '"')
      && (r.tokens != [] ==>
            && r.diagnostics == []
            && s[r.next - 1] == '"' && start + 2 <= r.next
            && r.tokens[0].kind == STRING
            && r.tokens[0].literal == StringLiteral(s[start + 1..r.next - 1]))
      && (r.tokens == [] ==>
            && r.next == |s|
            && (forall k :: start + 1 <= k < |s| ==> s[k] != '"')
            && r.diagnostics == [AtLine(r.line, "Unterminated string")])
      && (r.tokens != [] <==> exists k :: start < k < |s| && s[k] == '"')
  {
    var close := SpanEnd(s, start + 1, ToQuote);
    var l := line + LineFeeds(s, start + 1, close);
    if close < |s| {
      assert StringStep(s, start, line) == Emit(s, start, close + 1, STRING, StringLiteral(s[start + 1..close]), l);
      assert start < close && s[close] == '"';
    }
  }

  /** A number lexeme: digits, then optionally `.` and at least one digit. */
  predicate IsDigits(s: string) {
    |s| > 0 && forall k :: 0 <= k < |s| ==> IsDigit(s[k])
  }

  predicate IsNumberLexeme(s: string) {
    IsDigits(s) || exists i :: 0 < i < |s| - 1 && s[i] == '.' && IsDigits(s[..i]) && IsDigits(s[i + 1..])
  }

  /**
   * A NUMBER token's lexeme has the number shape, and it is the longest such
   * text: it is followed neither by a digit nor by `.` and a digit.
   */
  lemma NumberLexeme(s: string, start: nat, line: int)
    requires start < |s| && IsDigit(s[start])
    ensures var r := NumberStep(s, start, line);
      r.Scanned? ==>
        && |r.tokens| == 1 && r.diagnostics == [] && r.line == line
        && r.tokens[0].kind == NUMBER
        && r.tokens[0].literal == NumberLiteral(Parsed(s[start..r.next]))
        && IsNumberLexeme(s[start..r.next])
        && !IsDigit(PeekAt(s, r.next))
        && (IsDigits(s[start..r.next]) ==> !(PeekAt(s, r.next) == '.' && r.next + 1 < |s| && IsDigit(s[r.next + 1])))
  {
    var intEnd := SpanEnd(s, start + 1, Digits);
    match FractionEnd(s, intEnd)
    case Err(_) =>
    case Ok(end) =>
      assert NumberStep(s, start, line) == NumberToken(s, start, end, line);
      if end == intEnd {
        assert IsDigits(s[start..end]);
      } else {
        FractionLexeme(s, start, intEnd, end);
      }
  }

  /** Digits, a `.`, then digits again: a number lexeme, and not a digit run. */
  lemma FractionLexeme(s: string, start: nat, dot: nat, end: nat)
    requires start < dot < end - 1 && end <= |s|
    requires s[dot] == '.'
    requires forall k :: start <= k < end && k != dot ==> IsDigit(s[k])
    ensures IsNumberLexeme(s[start..end]) && !IsDigits(s[start..end])
  {
    var text := s[start..end];
    var i := dot - start;
    assert text[..i] == s[start..dot];
    assert text[i + 1..] == s[dot + 1..end];
    assert IsDigits(text[..i]) && IsDigits(text[i + 1..]);
    assert text[i] == '.';
  }

  /** The first character picks the step: a quote a string, a digit a number, a letter an identifier. */
  lemma Dispatch(s: string, start: nat, line: int)
    requires start < |s|
    ensures s[start] == '"' ==> ScanStep(s, start, line) == StringStep(s, start, line)
    ensures IsDigit(s[start]) ==> ScanStep(s, start, line) == NumberStep(s, start, line)
    ensures IsAlpha(s[start]) ==> ScanStep(s, start, line) == IdentifierStep(s, start, line)
  {
  }

  /** An identifier-shaped lexeme is a keyword when the table has it, else IDENTIFIER. */
  lemma IdentifierKind(s: string, start: nat, line: int)
    requires start < |s| && IsAlpha(s[start])
    ensures var r := ScanStep(s, start, line);
      && r.Scanned? && |r.tokens| == 1 && r.diagnostics == []
      && (forall k :: start <= k < r.next ==> IsAlphaNumeric(s[k]))
      && !IsAlphaNumeric(PeekAt(s, r.next))
      && r.tokens[0].kind == KeywordType(s[start..r.next])
  {
    assert !IsDigit(s[start]);
  }

  /** Any other character is reported, skipped, and scanning goes on. */
  lemma UnexpectedCharacter(s: string, start: nat, line: int)
    requires start < |s| && !HasOwnCase(s[start]) && !IsAlphaNumeric(s[start])
    ensures ScanStep(s, start, line) == Scanned([], [AtLine(line, "Unexpected character.")], start + 1, line)
  {
  }

  // ---------------------------------------------------------------------
  // The whole pass
  // ---------------------------------------------------------------------

  /**
   * What the loop of `scanTokens` has produced from a position on: the
   * tokens and diagnostics it added and the final line; or, when a step
   * throws, what was added before that and where the cursor stood.
   */
  datatype Scan =
    | Finished(tokens: seq<Token>, diagnostics: seq<Diagnostic>, line: int)
    | Crashed(tokens: seq<Token>, diagnostics: seq<Diagnostic>, line: int, at: nat)

  function Prepend(ts: seq<Token>, ds: seq<Diagnostic>, r: Scan): Scan {
    r.(tokens := ts + r.tokens, diagnostics := ds + r.diagnostics)
  }

  lemma PrependTwice(ts: seq<Token>, ds: seq<Diagnostic>, ts': seq<Token>, ds': seq<Diagnostic>, r: Scan)
    ensures Prepend(ts, ds, Prepend(ts', ds', r)) == Prepend(ts + ts', ds + ds', r)
  {
    assert ts + (ts' + r.tokens) == (ts + ts') + r.tokens;
    assert ds + (ds' + r.diagnostics) == (ds + ds') + r.diagnostics;
  }

  /** Scanning from `pos` on, with the line counter at `line`. */
  function ScanFrom(s: string, pos: nat, line: int): Scan
    requires pos <= |s|
    decreases |s| - pos
  {
    if pos == |s| then Finished([], [], line)
    else match ScanStep(s, pos, line)
      case OutOfRange(at) => Crashed([], [], line, at)
      case Scanned(t, d, next, l) => Prepend(t, d, ScanFrom(s, next, l))
  }

  /** The EOF token `scanTokens` appends, carrying the final line. */
  function EofToken(line: int): Token {
    Token(EOF, "", NilLiteral, line)
  }

  /** `scanTokens` on a fresh scanner: the token list, or None when it throws. */
  function Tokenize(s: string): Option<seq<Token>> {
    match ScanFrom(s, 0, 1)
    case Finished(ts, _, l) => Some(ts + [EofToken(l)])
    case Crashed(_, _, _, _) => None
  }

  /** No step ever emits EOF. */
  lemma {:induction false} ScanFromNoEof(s: string, pos: nat, line: int)
    requires pos <= |s|
    ensures forall k :: 0 <= k < |ScanFrom(s, pos, line).tokens| ==> ScanFrom(s, pos, line).tokens[k].kind != EOF
    decreases |s| - pos
  {
    if pos < |s| {
      match ScanStep(s, pos, line)
      case OutOfRange(at) =>
        assert ScanFrom(s, pos, line) == Crashed([], [], line, at);
      case Scanned(t, d, next, l) =>
        assert ScanFrom(s, pos, line) == Prepend(t, d, ScanFrom(s, next, l));
        ScanFromNoEof(s, next, l);
    }
  }

  /** After a full pass the line counter has grown by exactly the line feeds in the rest of the text. */
  lemma {:induction false} ScanFromLines(s: string, pos: nat, line: int)
    requires pos <= |s|
    ensures var r := ScanFrom(s, pos, line);
      && (r.Finished? ==> r.line == line + LineFeeds(s, pos, |s|))
      && r.line >= line
    decreases |s| - pos
  {
    if pos < |s| {
      match ScanStep(s, pos, line)
      case OutOfRange(at) =>
        assert ScanFrom(s, pos, line) == Crashed([], [], line, at);
      case Scanned(t, d, next, l) =>
        assert ScanFrom(s, pos, line) == Prepend(t, d, ScanFrom(s, next, l));
        StepCountsLineFeeds(s, pos, line);
        ScanFromLines(s, next, l);
        LineFeedsSplit(s, pos, next, |s|);
    }
  }

  /** A pass throws only at a `.` that ends the text right after a digit run. */
  lemma {:induction false} ScanFromCrash(s: string, pos: nat, line: int)
    requires pos <= |s|
    ensures var r := ScanFrom(s, pos, line);
      r.Crashed? ==> r.at + 1 == |s| && s[r.at] == '.' && pos < r.at && IsDigit(s[r.at - 1])
    decreases |s| - pos
  {
    if pos < |s| {
      match ScanStep(s, pos, line)
      case OutOfRange(at) =>
        assert ScanFrom(s, pos, line) == Crashed([], [], line, at);
      case Scanned(t, d, next, l) =>
        assert ScanFrom(s, pos, line) == Prepend(t, d, ScanFrom(s, next, l));
        ScanFromCrash(s, next, l);
    }
  }

  /**
   * The token list of a pass ends with exactly one EOF token, which carries
   * the final line: 1 plus the number of line feeds in the text.
   */
  lemma TokenizeEndsWithEof(s: string)
    ensures var r := Tokenize(s);
      r.Some? ==>
        && |r.value| >= 1
        && r.value[|r.value| - 1] == EofToken(1 + LineFeeds(s, 0, |s|))
        && forall k :: 0 <= k < |r.value| - 1 ==> r.value[k].kind != EOF
  {
    var r := ScanFrom(s, 0, 1);
    if r.Finished? {
      assert Tokenize(s) == Some(r.tokens + [EofToken(r.line)]);
      ScanFromNoEof(s, 0, 1);
      ScanFromLines(s, 0, 1);
    }
  }

  /** A pass fails only when the text ends in a digit followed by `.`. */
  lemma TokenizeFails(s: string)
    ensures Tokenize(s).None? ==> |s| >= 2 && s[|s| - 1] == '.' && IsDigit(s[|s| - 2])
  {
    ScanFromCrash(s, 0, 1);
  }
}
