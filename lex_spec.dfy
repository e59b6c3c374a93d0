/**
 * A pure specification of the four scanners of the repository, which share one cursor loop and
 * differ in which characters they accept:
 *
 *   Klox        kotlin/klox/.../klox/Scanner.kt     comments skipped, numbers, identifiers, keywords
 *   OldKlox     kotlin/klox/src/main/kotlin/Scanner.kt   like Klox but with no identifier rule
 *   LoxNet      lox.net/Scanner.cs                  comments become LINE_COMMENT tokens; no numbers
 *                                                   and no identifiers
 *   FirstLoxNet csharp/lox.net/Scanner.cs           punctuation and operators only; no whitespace,
 *                                                   no newlines, no comments, no strings
 *
 * ScanStep is one call of `scanToken`/`ScanTokenAsync` (the lexeme starts at `start`); ScanFrom is
 * the loop that calls it until the end of the source; Scan adds the final EOF token. The
 * imperative scanner classes are proved to compute exactly these functions, and the lemmas below
 * state what the scanners promise about their output.
 */
module LexSpec {
  import opened Wrappers
  import opened TokenTypes
  import opened Errors

  datatype Dialect = Klox | OldKlox | LoxNet | FirstLoxNet

  predicate IsDigit(c: char) { '0' <= c <= '9' }

  predicate IsAlpha(c: char) { ('a' <= c <= 'z') || ('A' <= c <= 'Z') || c == '_' }

  predicate IsAlphaNumeric(c: char) { IsAlpha(c) || IsDigit(c) }

  predicate NotNewline(c: char) { c != '\n' }

  predicate NotQuote(c: char) { c != '"' }

  /** The reserved words of the Kotlin scanner and the kinds it gives them. */
  const Keywords: map<string, TokenType> := map[
    "and" := And, "class" := Class, "else" := Else, "false" := False,
    "for" := For, "fun" := Fun, "if" := If, "nil" := Nil,
    "or" := Or, "print" := Print, "return" := Return, "super" := Super,
    "this" := This, "true" := True, "var" := Var, "while" := While
  ]

  /**
   * The spelling of every token kind that has exactly one spelling: punctuation, operators and
   * keywords. An independent reference for the scanner's character cases and its keyword map.
   */
  function FixedLexeme(k: TokenType): Option<string> {
    if IsKeywordKind(k) then Some(KeywordSpelling(k)) else SymbolSpelling(k)
  }

  /** The spelling of each reserved word's kind. */
  function KeywordSpelling(k: TokenType): string
    requires IsKeywordKind(k)
  {
    match k
    case And => "and"
    case Class => "class"
    case Else => "else"
    case False => "false"
    case For => "for"
    case Fun => "fun"
    case If => "if"
    case Nil => "nil"
    case Or => "or"
    case Print => "print"
    case Return => "return"
    case Super => "super"
    case This => "this"
    case True => "true"
    case Var => "var"
    case While => "while"
  }

  /** The spelling of each punctuation and operator kind. */
  function SymbolSpelling(k: TokenType): Option<string> {
    match k
    case LeftParen => Some("(")
    case RightParen => Some(")")
    case LeftBrace => Some("{")
    case RightBrace => Some("}")
    case Comma => Some(",")
    case Dot => Some(".")
    case Minus => Some("-")
    case Plus => Some("+")
    case Semicolon => Some(";")
    case Slash => Some("/")
    case Star => Some("*")
    case Bang => Some("!")
    case BangEqual => Some("!=")
    case Equal => Some("=")
    case EqualEqual => Some("==")
    case Greater => Some(">")
    case GreaterEqual => Some(">=")
    case Less => Some("<")
    case LessEqual => Some("<=")
    case _ => None
  }

  predicate IsKeywordKind(k: TokenType) {
    k in {And, Class, Else, False, For, Fun, If, Nil, Or, Print, Return, Super, This, True, Var, While}
  }

  /** The keyword map gives each reserved word the keyword kind spelt that way, and nothing else. */
  lemma KeywordsAgreeWithSpelling(w: string)
    ensures w in Keywords ==> IsKeywordKind(Keywords[w]) && FixedLexeme(Keywords[w]) == Some(w)
    ensures forall k :: IsKeywordKind(k) && FixedLexeme(k) == Some(w) ==> w in Keywords && Keywords[w] == k
  {
  }

  // ---------------------------------------------------------------------------------------------
  // Cursor helpers

  /** The first index at or after `i` whose character does not satisfy `p`, or the end. */
  function SkipWhile(src: string, i: nat, p: char -> bool): (r: nat)
    requires i <= |src|
    ensures i <= r <= |src|
    ensures forall k :: i <= k < r ==> p(src[k])
    ensures r == |src| || !p(src[r])
    decreases |src| - i
  {
    if i < |src| && p(src[i]) then SkipWhile(src, i + 1, p) else i
  }

  /** The number of line breaks in a string. */
  function CountNewlines(s: string): nat
  {
    if s == [] then 0 else CountNewlines(s[..|s| - 1]) + (if s[|s| - 1] == '\n' then 1 else 0)
  }

  lemma {:induction false} CountNewlinesConcat(a: string, b: string)
    ensures CountNewlines(a + b) == CountNewlines(a) + CountNewlines(b)
    decreases |b|
  {
    if b == [] {
      assert a + b == a;
    } else {
      assert (a + b)[..|a + b| - 1] == a + b[..|b| - 1];
      CountNewlinesConcat(a, b[..|b| - 1]);
    }
  }

  lemma {:induction false} CountNewlinesNone(s: string)
    requires forall k :: 0 <= k < |s| ==> s[k] != '\n'
    ensures CountNewlines(s) == 0
    decreases |s|
  {
    if s != [] {
      CountNewlinesNone(s[..|s| - 1]);
    }
  }

  // ---------------------------------------------------------------------------------------------
  // One scanning step

  /** What one call of `scanToken` does: where the cursor ends, the new line, and what it emits. */
  datatype Step = Step(next: nat, line: int, token: Option<Token>, error: Option<Diagnostic>)

  /** `addToken`: the lexeme is the source from the start of the step to the cursor. */
  function Emit(src: string, start: nat, end: nat, line: int, kind: TokenType, literal: Literal): Step
    requires start <= end <= |src|
  {
    Step(end, line, Some(Token(kind, src[start..end], literal, line)), None)
  }

  function Skip(next: nat, line: int): Step {
    Step(next, line, None, None)
  }

  function Fail(next: nat, line: int, message: string): Step {
    Step(next, line, None, Some(LineError(line, message)))
  }

  /** The message for a character no rule accepts: the Kotlin scanners name the character. */
  function UnexpectedMessage(d: Dialect, c: char): string {
    if d == Klox || d == OldKlox then "Unexpected character: " + [c] else "Unexpected character."
  }

  /** `!`, `=`, `<` or `>`: the two-character kind when `=` follows, otherwise the one-character kind. */
  function OperatorStep(src: string, start: nat, line: int, one: TokenType, two: TokenType): Step
    requires start < |src|
  {
    if start + 1 < |src| && src[start + 1] == '=' then Emit(src, start, start + 2, line, two, NoLiteral)
    else Emit(src, start, start + 1, line, one, NoLiteral)
  }

  /** `//` up to (not including) the next line break: skipped, or a LINE_COMMENT token in C#. */
  function CommentStep(d: Dialect, src: string, start: nat, line: int): Step
    requires start + 2 <= |src|
  {
    var e := SkipWhile(src, start + 2, NotNewline);
    if d == LoxNet then Emit(src, start, e, line, LineComment, NoLiteral) else Skip(e, line)
  }

  /** `string()`: up to the closing quote, counting line breaks; an error if there is none. */
  function StringStep(src: string, start: nat, line: int): Step
    requires start < |src|
  {
    var e := SkipWhile(src, start + 1, NotQuote);
    var l := line + CountNewlines(src[start + 1..e]);
    if e == |src| then Fail(e, l, "Unterminated string.")
    else Emit(src, start, e + 1, l, String, StringLit(src[start + 1..e]))
  }

  /** Where `number()` stops: digits, then `.` and digits only if a digit follows the `.`. */
  function NumberEnd(src: string, start: nat): (e: nat)
    requires start < |src|
    ensures start < e <= |src|
  {
    var e := SkipWhile(src, start + 1, IsDigit);
    if e + 1 < |src| && src[e] == '.' && IsDigit(src[e + 1]) then SkipWhile(src, e + 1, IsDigit) else e
  }

  function NumberStep(src: string, start: nat, line: int): Step
    requires start < |src|
  {
    var e := NumberEnd(src, start);
    Emit(src, start, e, line, Number, NumberLit(src[start..e]))
  }

  /** `identifier()`: the longest run of letters, digits and `_`; a keyword if the map has it. */
  function IdentifierStep(src: string, start: nat, line: int): Step
    requires start < |src|
  {
    var e := SkipWhile(src, start + 1, IsAlphaNumeric);
    var text := src[start..e];
    Emit(src, start, e, line, if text in Keywords then Keywords[text] else Identifier, NoLiteral)
  }

  /** The characters that are always a one-character token, and the kind each one gets. */
  function SingleCharKind(c: char): Option<TokenType> {
    match c
    case '(' => Some(LeftParen)
    case ')' => Some(RightParen)
    case '{' => Some(LeftBrace)
    case '}' => Some(RightBrace)
    case ',' => Some(Comma)
    case '.' => Some(Dot)
    case '-' => Some(Minus)
    case '+' => Some(Plus)
    case ';' => Some(Semicolon)
    case '*' => Some(Star)
    case _ => None
  }

  /** Each one-character kind is spelt by the character that produces it. */
  lemma SingleCharSpelling(c: char)
    ensures SingleCharKind(c).Some? <==> c in "(){},.-+;*"
    ensures SingleCharKind(c).Some? ==> FixedLexeme(SingleCharKind(c).value) == Some([c])
  {
  }

  function ScanStep(d: Dialect, src: string, start: nat, line: int): (s: Step)
    requires start < |src|
    ensures start < s.next <= |src|
  {
    var c := src[start];
    if SingleCharKind(c).Some? then Emit(src, start, start + 1, line, SingleCharKind(c).value, NoLiteral)
    else if c == '!' then OperatorStep(src, start, line, Bang, BangEqual)
    else if c == '=' then OperatorStep(src, start, line, Equal, EqualEqual)
    else if c == '<' then OperatorStep(src, start, line, Less, LessEqual)
    else if c == '>' then OperatorStep(src, start, line, Greater, GreaterEqual)
    else if c == '/' then
      if d != FirstLoxNet && start + 1 < |src| && src[start + 1] == '/' then CommentStep(d, src, start, line)
      else Emit(src, start, start + 1, line, Slash, NoLiteral)
    else if d == FirstLoxNet then Fail(start + 1, line, UnexpectedMessage(d, c))
    else if c == ' ' || c == '\r' || c == '\t' then Skip(start + 1, line)
    else if c == '\n' then Skip(start + 1, line + 1)
    else if c == '"' then StringStep(src, start, line)
    else if d != LoxNet && IsDigit(c) then NumberStep(src, start, line)
    else if d == Klox && IsAlpha(c) then IdentifierStep(src, start, line)
    else Fail(start + 1, line, UnexpectedMessage(d, c))
  }

  // ---------------------------------------------------------------------------------------------
  // The whole scan

  /** The source positions `[start, end)` a token was scanned from. */
  datatype Span = Span(start: nat, end: nat)

  datatype ScanResult = ScanResult(tokens: seq<Token>, spans: seq<Span>, errors: seq<Diagnostic>, line: int)

  /** The `while (!isAtEnd())` loop from cursor `pos` on line `line`. */
  function ScanFrom(d: Dialect, src: string, pos: nat, line: int): (r: ScanResult)
    requires pos <= |src|
    decreases |src| - pos
  {
    if pos == |src| then ScanResult([], [], [], line)
    else
      var s := ScanStep(d, src, pos, line);
      var rest := ScanFrom(d, src, s.next, s.line);
      ScanResult(OptionToSeq(s.token) + rest.tokens,
                 (if s.token.Some? then [Span(pos, s.next)] else []) + rest.spans,
                 OptionToSeq(s.error) + rest.errors,
                 rest.line)
  }

  /**
   * One turn of the loop, for a scanner that has already produced `doneTokens` and `doneErrors`:
   * the step's token and error join them, and the scan goes on from where the step ended.
   */
  lemma ScanFromStep(d: Dialect, src: string, pos: nat, line: int, doneTokens: seq<Token>, doneErrors: seq<Diagnostic>)
    requires pos < |src|
    ensures var s := ScanStep(d, src, pos, line);
      var r := ScanFrom(d, src, pos, line);
      var rest := ScanFrom(d, src, s.next, s.line);
      && doneTokens + r.tokens == (doneTokens + OptionToSeq(s.token)) + rest.tokens
      && doneErrors + r.errors == (doneErrors + OptionToSeq(s.error)) + rest.errors
      && r.line == rest.line
  {
    var s := ScanStep(d, src, pos, line);
    var rest := ScanFrom(d, src, s.next, s.line);
    ConcatAssoc(doneTokens, OptionToSeq(s.token), rest.tokens);
    ConcatAssoc(doneErrors, OptionToSeq(s.error), rest.errors);
  }

  /** `scanTokens` from a fresh scanner: the tokens of the loop, then EOF on the final line. */
  function Scan(d: Dialect, src: string): seq<Token> {
    var r := ScanFrom(d, src, 0, 1);
    r.tokens + [EofToken(r.line)]
  }

  /** The errors a fresh scanner reports. */
  function ScanErrors(d: Dialect, src: string): seq<Diagnostic> {
    ScanFrom(d, src, 0, 1).errors
  }

  // ---------------------------------------------------------------------------------------------
  // The shapes of lexemes

  predicate IsDigits(s: string) {
    |s| > 0 && forall k :: 0 <= k < |s| ==> IsDigit(s[k])
  }

  /** A run of digits, optionally followed by `.` and another run of digits. */
  predicate IsNumberLexeme(s: string) {
    IsDigits(s) || exists i :: 0 < i < |s| && s[i] == '.' && IsDigits(s[..i]) && IsDigits(s[i + 1..])
  }

  predicate IsIdentifierLexeme(s: string) {
    |s| > 0 && IsAlpha(s[0]) && forall k :: 0 <= k < |s| ==> IsAlphaNumeric(s[k])
  }

  /** A string in quotes, with no quote inside. */
  predicate IsStringLexeme(s: string) {
    |s| >= 2 && s[0] == '"' && s[|s| - 1] == '"' && forall k :: 0 < k < |s| - 1 ==> s[k] != '"'
  }

  /** `//` and the rest of the line, without its line break. */
  predicate IsCommentLexeme(s: string) {
    |s| >= 2 && s[0] == '/' && s[1] == '/' && forall k :: 0 <= k < |s| ==> s[k] != '\n'
  }

  /** What a token the scanner of dialect `d` emits looks like, kind by kind. */
  predicate TokenShape(d: Dialect, t: Token) {
    if t.kind.String? then
      d != FirstLoxNet && IsStringLexeme(t.lexeme) && t.literal == StringLit(t.lexeme[1..|t.lexeme| - 1])
    else if t.kind.Number? then (d == Klox || d == OldKlox) && IsNumberLexeme(t.lexeme) && t.literal == NumberLit(t.lexeme)
    else if t.kind.Identifier? then d == Klox && IsIdentifierLexeme(t.lexeme) && t.lexeme !in Keywords && t.literal == NoLiteral
    else if t.kind.LineComment? then d == LoxNet && IsCommentLexeme(t.lexeme) && t.literal == NoLiteral
    else if t.kind.Eof? then false
    else
      && FixedLexeme(t.kind) == Some(t.lexeme)
      && t.literal == NoLiteral
      && (IsKeywordKind(t.kind) ==> d == Klox)
  }

  // ---------------------------------------------------------------------------------------------
  // Facts about one step

  /**
   * What every step promises: it moves the cursor forward; the line counter grows by the line
   * breaks it consumed (none in the earliest C# scanner, which has no newline rule); and a token it
   * emits is the slice it consumed, on the line the step ends on, shaped as its kind calls for.
   */
  predicate StepOk(d: Dialect, src: string, pos: nat, line: int, s: Step)
    requires pos <= |src|
  {
    && pos < s.next <= |src|
    && s.line == line + (if d == FirstLoxNet then 0 else CountNewlines(src[pos..s.next]))
    && (s.token.Some? ==>
          s.token.value.lexeme == src[pos..s.next] && s.token.value.line == s.line && TokenShape(d, s.token.value))
  }

  lemma NoNewlineSlice(src: string, i: nat, j: nat)
    requires i <= j <= |src|
    requires forall k :: i <= k < j ==> src[k] != '\n'
    ensures CountNewlines(src[i..j]) == 0
  {
    CountNewlinesNone(src[i..j]);
  }

  /** A token of fixed spelling taken from a slice with no line break in it. */
  lemma EmitFixedOk(d: Dialect, src: string, pos: nat, end: nat, line: int, k: TokenType)
    requires pos < end <= |src|
    requires FixedLexeme(k) == Some(src[pos..end])
    requires IsKeywordKind(k) ==> d == Klox
    requires forall i :: pos <= i < end ==> src[i] != '\n'
    ensures StepOk(d, src, pos, line, Emit(src, pos, end, line, k, NoLiteral))
  {
    assert !k.String? && !k.Number? && !k.Identifier? && !k.LineComment? && !k.Eof?;
    NoNewlineSlice(src, pos, end);
  }

  /** `//` runs to the line break or the end, and the comment holds no line break. */
  lemma CommentStepOk(d: Dialect, src: string, pos: nat, line: int)
    requires d != FirstLoxNet && pos + 1 < |src| && src[pos] == '/' && src[pos + 1] == '/'
    ensures StepOk(d, src, pos, line, CommentStep(d, src, pos, line))
    ensures var s := CommentStep(d, src, pos, line);
      && s.error.None?
      && (s.next == |src| || src[s.next] == '\n')
      && (forall k :: pos <= k < s.next ==> src[k] != '\n')
      && (d == LoxNet <==> s.token.Some?)
  {
    var e := SkipWhile(src, pos + 2, NotNewline);
    assert forall k :: pos <= k < e ==> src[k] != '\n' by {
      forall k | pos <= k < e ensures src[k] != '\n' {
        if k >= pos + 2 {
          assert NotNewline(src[k]);
        }
      }
    }
    NoNewlineSlice(src, pos, e);
    if d == LoxNet {
      assert IsCommentLexeme(src[pos..e]);
    }
  }

  /** A closed string's lexeme: quotes around a body without quotes, and no line break from the quotes. */
  lemma ClosedStringLexeme(src: string, pos: nat, e: nat)
    requires pos < |src| && src[pos] == '"' && e == SkipWhile(src, pos + 1, NotQuote) && e < |src|
    ensures IsStringLexeme(src[pos..e + 1])
    ensures src[pos..e + 1][1..e - pos] == src[pos + 1..e]
    ensures CountNewlines(src[pos..e + 1]) == CountNewlines(src[pos + 1..e])
  {
    var body := src[pos + 1..e];
    var lexeme := src[pos..e + 1];
    CountNewlinesQuoted(body);
    assert lexeme == ['"'] + body + ['"'];
    assert IsStringLexeme(lexeme) by {
      forall k | 0 < k < |lexeme| - 1 ensures lexeme[k] != '"' {
        assert lexeme[k] == src[pos + k] && NotQuote(src[pos + k]);
      }
    }
  }

  /** A string runs to the closing quote; without one it is an error and no token. */
  lemma StringStepOk(d: Dialect, src: string, pos: nat, line: int)
    requires d != FirstLoxNet && pos < |src| && src[pos] == '"'
    ensures StepOk(d, src, pos, line, StringStep(src, pos, line))
  {
    if SkipWhile(src, pos + 1, NotQuote) < |src| {
      ClosedStringOk(d, src, pos, line);
    } else {
      UnclosedStringOk(d, src, pos, line);
    }
  }

  lemma ClosedStringOk(d: Dialect, src: string, pos: nat, line: int)
    requires d != FirstLoxNet && pos < |src| && src[pos] == '"'
    requires SkipWhile(src, pos + 1, NotQuote) < |src|
    ensures StepOk(d, src, pos, line, StringStep(src, pos, line))
  {
    var e := SkipWhile(src, pos + 1, NotQuote);
    ClosedStringValue(src, pos, line);
    ClosedStringLexeme(src, pos, e);
    StringTokenStepOk(d, src, pos, e, line, StringStep(src, pos, line));
  }

  /** A step that emits `src[pos..e + 1]` as a STRING token, with the quotes stripped for the literal. */
  lemma StringTokenStepOk(d: Dialect, src: string, pos: nat, e: nat, line: int, s: Step)
    requires d != FirstLoxNet && pos < e < |src| && s.next == e + 1
    requires s.token.Some? && s.token.value.kind == String && s.token.value.line == s.line
    requires s.token.value.lexeme == src[pos..e + 1] && IsStringLexeme(src[pos..e + 1])
    requires s.token.value.literal == StringLit(src[pos + 1..e])
    requires src[pos..e + 1][1..e - pos] == src[pos + 1..e]
    requires s.line == line + CountNewlines(src[pos + 1..e])
    requires CountNewlines(src[pos..e + 1]) == CountNewlines(src[pos + 1..e])
    ensures StepOk(d, src, pos, line, s)
  {
  }

  /** A closed string's step, field by field. */
  lemma ClosedStringValue(src: string, pos: nat, line: int)
    requires pos < |src| && src[pos] == '"'
    requires SkipWhile(src, pos + 1, NotQuote) < |src|
    ensures var e := SkipWhile(src, pos + 1, NotQuote);
      var l := line + CountNewlines(src[pos + 1..e]);
      var s := StringStep(src, pos, line);
      && s.next == e + 1 && s.line == l && s.error.None? && s.token.Some?
      && s.token.value.kind == String && s.token.value.lexeme == src[pos..e + 1]
      && s.token.value.literal == StringLit(src[pos + 1..e]) && s.token.value.line == l
  {
  }

  lemma UnclosedStringOk(d: Dialect, src: string, pos: nat, line: int)
    requires d != FirstLoxNet && pos < |src| && src[pos] == '"'
    requires SkipWhile(src, pos + 1, NotQuote) == |src|
    ensures StepOk(d, src, pos, line, StringStep(src, pos, line))
  {
    var e := SkipWhile(src, pos + 1, NotQuote);
    var body := src[pos + 1..e];
    var s := StringStep(src, pos, line);
    assert s.next == e && s.token.None? && s.line == line + CountNewlines(body);
    assert src[pos..e] == ['"'] + body;
    CountNewlinesQuoted(body);
  }

  /** With the closing quote the step emits a STRING token; without it, an error at the end. */
  lemma StringStepOutcome(src: string, pos: nat, line: int)
    requires pos < |src| && src[pos] == '"'
    ensures var s := StringStep(src, pos, line);
      && (s.token.None? <==> SkipWhile(src, pos + 1, NotQuote) == |src|)
      && (s.token.Some? ==> s.error.None? && s.token.value.kind == String)
      && (s.token.None? ==> s.next == |src| && s.error == Some(LineError(s.line, "Unterminated string.")))
  {
  }

  /** The line breaks from `i` on are those before `j` and those from `j` on. */
  lemma CountNewlinesSplit(src: string, i: nat, j: nat)
    requires i <= j <= |src|
    ensures CountNewlines(src[i..]) == CountNewlines(src[i..j]) + CountNewlines(src[j..])
  {
    assert src[i..] == src[i..j] + src[j..];
    CountNewlinesConcat(src[i..j], src[j..]);
  }

  /** A line without a break, then its break. */
  lemma CountNewlinesLine(a: string)
    requires '\n' !in a
    ensures CountNewlines(a + "\n") == 1
  {
    assert (a + "\n")[..|a|] == a;
    CountNewlinesNone(a);
  }

  /** Quotes add no line break. */
  lemma CountNewlinesQuoted(m: string)
    ensures CountNewlines(['"'] + m) == CountNewlines(m)
    ensures CountNewlines(['"'] + m + ['"']) == CountNewlines(m)
  {
    CountNewlinesConcat(['"'], m);
    CountNewlinesConcat(['"'] + m, ['"']);
    CountNewlinesNone(['"']);
  }

  /**
   * A number step consumes a number lexeme, stops before the next non-digit, and takes a `.` only
   * when a digit follows it.
   */
  lemma NumberRule(src: string, pos: nat)
    requires pos < |src| && IsDigit(src[pos])
    ensures var e := NumberEnd(src, pos);
      && IsNumberLexeme(src[pos..e])
      && (forall k :: pos <= k < e ==> IsDigit(src[k]) || src[k] == '.')
      && (e == |src| || !IsDigit(src[e]))
      && ((forall k :: pos <= k < e ==> src[k] != '.') ==> !(e + 1 < |src| && src[e] == '.' && IsDigit(src[e + 1])))
  {
    var e1 := SkipWhile(src, pos + 1, IsDigit);
    assert IsDigits(src[pos..e1]);
    var e := NumberEnd(src, pos);
    if e1 + 1 < |src| && src[e1] == '.' && IsDigit(src[e1 + 1]) {
      var s := src[pos..e];
      var i := e1 - pos;
      assert s[..i] == src[pos..e1];
      assert s[i + 1..] == src[e1 + 1..e];
      assert IsDigits(s[i + 1..]);
      assert s[i] == '.';
      assert forall k :: pos <= k < e ==> IsDigit(src[k]) || src[k] == '.' by {
        forall k | pos <= k < e ensures IsDigit(src[k]) || src[k] == '.' {
          if k > e1 {
            assert IsDigit(src[k]);
          }
        }
      }
      assert src[e1] == '.';
    }
  }

  lemma NumberStepOk(d: Dialect, src: string, pos: nat, line: int)
    requires (d == Klox || d == OldKlox) && pos < |src| && IsDigit(src[pos])
    ensures StepOk(d, src, pos, line, NumberStep(src, pos, line))
  {
    NumberRule(src, pos);
    NoNewlineSlice(src, pos, NumberEnd(src, pos));
  }

  /** An identifier step consumes a maximal identifier and keys its kind on the keyword map. */
  lemma IdentifierRule(src: string, pos: nat, line: int)
    requires pos < |src| && IsAlpha(src[pos])
    ensures StepOk(Klox, src, pos, line, IdentifierStep(src, pos, line))
    ensures var s := IdentifierStep(src, pos, line);
      && s.token.Some? && s.error.None?
      && IsIdentifierLexeme(s.token.value.lexeme)
      && (s.next == |src| || !IsAlphaNumeric(src[s.next]))
      && s.token.value.kind == (if s.token.value.lexeme in Keywords then Keywords[s.token.value.lexeme] else Identifier)
  {
    var e := SkipWhile(src, pos + 1, IsAlphaNumeric);
    var text := src[pos..e];
    assert forall k :: 0 <= k < |text| ==> text[k] == src[pos + k];
    assert IsIdentifierLexeme(text);
    NoNewlineSlice(src, pos, e);
    KeywordsAgreeWithSpelling(text);
  }

  /** The punctuation cases of a step. */
  lemma SingleStepFacts(d: Dialect, src: string, pos: nat, line: int)
    requires pos < |src| && SingleCharKind(src[pos]).Some?
    ensures StepOk(d, src, pos, line, ScanStep(d, src, pos, line))
  {
    var c := src[pos];
    SingleCharSpelling(c);
    assert src[pos..pos + 1] == [c];
    EmitFixedOk(d, src, pos, pos + 1, line, SingleCharKind(c).value);
  }

  /** An operator with or without its `=`. */
  lemma OperatorStepOk(d: Dialect, src: string, pos: nat, line: int, one: TokenType, two: TokenType)
    requires pos < |src| && src[pos] != '\n'
    requires FixedLexeme(one) == Some([src[pos]]) && FixedLexeme(two) == Some([src[pos], '='])
    requires !IsKeywordKind(one) && !IsKeywordKind(two)
    ensures StepOk(d, src, pos, line, OperatorStep(src, pos, line, one, two))
  {
    if pos + 1 < |src| && src[pos + 1] == '=' {
      assert src[pos..pos + 2] == [src[pos], '='];
      EmitFixedOk(d, src, pos, pos + 2, line, two);
    } else {
      assert src[pos..pos + 1] == [src[pos]];
      EmitFixedOk(d, src, pos, pos + 1, line, one);
    }
  }

  /** The spellings of `!`, `!=`, `=` and `==`. */
  lemma BangEqualSpellings()
    ensures FixedLexeme(Bang) == Some("!") && FixedLexeme(BangEqual) == Some("!=")
    ensures FixedLexeme(Equal) == Some("=") && FixedLexeme(EqualEqual) == Some("==")
    ensures !IsKeywordKind(Bang) && !IsKeywordKind(BangEqual) && !IsKeywordKind(Equal) && !IsKeywordKind(EqualEqual)
  {
  }

  /** The spellings of `<`, `<=`, `>` and `>=`. */
  lemma LessGreaterSpellings()
    ensures FixedLexeme(Less) == Some("<") && FixedLexeme(LessEqual) == Some("<=")
    ensures FixedLexeme(Greater) == Some(">") && FixedLexeme(GreaterEqual) == Some(">=")
    ensures !IsKeywordKind(Less) && !IsKeywordKind(LessEqual) && !IsKeywordKind(Greater) && !IsKeywordKind(GreaterEqual)
  {
  }

  /** The `!`, `=`, `<` and `>` cases of a step. */
  lemma OperatorStepFacts(d: Dialect, src: string, pos: nat, line: int)
    requires pos < |src| && src[pos] in "!=<>"
    ensures StepOk(d, src, pos, line, ScanStep(d, src, pos, line))
  {
    var c := src[pos];
    var s := ScanStep(d, src, pos, line);
    assert SingleCharKind(c).None?;
    BangEqualSpellings();
    LessGreaterSpellings();
    if c == '!' {
      assert s == OperatorStep(src, pos, line, Bang, BangEqual);
      OperatorStepOk(d, src, pos, line, Bang, BangEqual);
    } else if c == '=' {
      assert s == OperatorStep(src, pos, line, Equal, EqualEqual);
      OperatorStepOk(d, src, pos, line, Equal, EqualEqual);
    } else if c == '<' {
      assert s == OperatorStep(src, pos, line, Less, LessEqual);
      OperatorStepOk(d, src, pos, line, Less, LessEqual);
    } else {
      assert c == '>';
      assert s == OperatorStep(src, pos, line, Greater, GreaterEqual);
      OperatorStepOk(d, src, pos, line, Greater, GreaterEqual);
    }
  }

  /** The `/` case of a step: a comment or SLASH. */
  lemma SlashStepFacts(d: Dialect, src: string, pos: nat, line: int)
    requires pos < |src| && src[pos] == '/'
    ensures StepOk(d, src, pos, line, ScanStep(d, src, pos, line))
  {
    SingleCharSpelling('/');
    if d != FirstLoxNet && pos + 1 < |src| && src[pos + 1] == '/' {
      CommentStepOk(d, src, pos, line);
    } else {
      assert src[pos..pos + 1] == ['/'];
      EmitFixedOk(d, src, pos, pos + 1, line, Slash);
    }
  }

  /** The remaining cases: blanks, line breaks, strings, numbers, identifiers and errors. */
  lemma OtherStepFacts(d: Dialect, src: string, pos: nat, line: int)
    requires pos < |src| && SingleCharKind(src[pos]).None? && src[pos] !in "!=<>/"
    ensures StepOk(d, src, pos, line, ScanStep(d, src, pos, line))
  {
    var c := src[pos];
    if d == FirstLoxNet {
    } else if c == '\n' {
      assert src[pos..pos + 1] == [c];
      assert [c][..0] == [];
    } else if c == '"' {
      StringStepOk(d, src, pos, line);
    } else if d != LoxNet && IsDigit(c) {
      NumberStepOk(d, src, pos, line);
    } else if d == Klox && IsAlpha(c) {
      IdentifierRule(src, pos, line);
    } else {
      NoNewlineSlice(src, pos, pos + 1);
    }
  }

  /** Every step keeps the promises of StepOk. */
  lemma StepFacts(d: Dialect, src: string, pos: nat, line: int)
    requires pos < |src|
    ensures StepOk(d, src, pos, line, ScanStep(d, src, pos, line))
  {
    var c := src[pos];
    SingleCharSpelling(c);
    if SingleCharKind(c).Some? {
      SingleStepFacts(d, src, pos, line);
    } else if c in "!=<>" {
      OperatorStepFacts(d, src, pos, line);
    } else if c == '/' {
      SlashStepFacts(d, src, pos, line);
    } else {
      OtherStepFacts(d, src, pos, line);
    }
  }

  /** The part of StepFacts about the line counter: the line breaks of the lexeme, or none in the earliest C# scanner. */
  lemma StepLines(d: Dialect, src: string, pos: nat, line: int)
    requires pos < |src|
    ensures var s := ScanStep(d, src, pos, line);
      s.line == line + (if d == FirstLoxNet then 0 else CountNewlines(src[pos..s.next]))
  {
    StepFacts(d, src, pos, line);
  }

  // ---------------------------------------------------------------------------------------------
  // Facts about the whole scan

  /**
   * Tokens and spans that match one to one: each span lies in `[pos, |src|)`, its slice is the
   * token's lexeme, and the spans come in order without overlapping.
   */
  ghost predicate SlicesFrom(src: string, pos: nat, tokens: seq<Token>, spans: seq<Span>) {
    && |tokens| == |spans|
    && (forall i :: 0 <= i < |spans| ==>
          pos <= spans[i].start < spans[i].end <= |src| && src[spans[i].start..spans[i].end] == tokens[i].lexeme)
    && (forall i, j :: 0 <= i < j < |spans| ==> spans[i].end <= spans[j].start)
  }

  /** A token for the slice `[pos, next)` may go in front of matching tokens and spans from `next` on. */
  lemma SlicesCons(src: string, pos: nat, next: nat, t: Token, tokens: seq<Token>, spans: seq<Span>)
    requires pos < next <= |src| && t.lexeme == src[pos..next]
    requires SlicesFrom(src, next, tokens, spans)
    ensures SlicesFrom(src, pos, [t] + tokens, [Span(pos, next)] + spans)
  {
    var ts, sp := [t] + tokens, [Span(pos, next)] + spans;
    assert forall i :: 0 < i < |sp| ==> sp[i] == spans[i - 1] && ts[i] == tokens[i - 1];
  }

  /** The part of StepFacts about the lexeme: the slice the step consumed. */
  lemma StepSlice(d: Dialect, src: string, pos: nat, line: int)
    requires pos < |src|
    ensures var s := ScanStep(d, src, pos, line);
      pos < s.next <= |src| && (s.token.Some? ==> s.token.value.lexeme == src[pos..s.next])
  {
    StepFacts(d, src, pos, line);
  }

  /** Slices that lie after `next` also lie after any earlier position. */
  lemma SlicesWeaken(src: string, pos: nat, next: nat, tokens: seq<Token>, spans: seq<Span>)
    requires pos <= next && SlicesFrom(src, next, tokens, spans)
    ensures SlicesFrom(src, pos, tokens, spans)
  {
  }

  /** One unfolding of the loop, field by field. */
  lemma ScanFromUnfold(d: Dialect, src: string, pos: nat, line: int)
    requires pos < |src|
    ensures var s := ScanStep(d, src, pos, line);
      var r := ScanFrom(d, src, pos, line);
      var rest := ScanFrom(d, src, s.next, s.line);
      && r.tokens == OptionToSeq(s.token) + rest.tokens
      && r.spans == (if s.token.Some? then [Span(pos, s.next)] else []) + rest.spans
      && r.errors == OptionToSeq(s.error) + rest.errors
      && r.line == rest.line
  {
  }

  /** The loop's tokens match its spans one to one, each lexeme the slice of its span, in order. */
  lemma {:induction false} ScanFromSlices(d: Dialect, src: string, pos: nat, line: int)
    requires pos <= |src|
    ensures var r := ScanFrom(d, src, pos, line); SlicesFrom(src, pos, r.tokens, r.spans)
    decreases |src| - pos
  {
    if pos < |src| {
      var s := ScanStep(d, src, pos, line);
      StepSlice(d, src, pos, line);
      ScanFromSlices(d, src, s.next, s.line);
      ScanFromUnfold(d, src, pos, line);
      var rest := ScanFrom(d, src, s.next, s.line);
      if s.token.Some? {
        SlicesCons(src, pos, s.next, s.token.value, rest.tokens, rest.spans);
      } else {
        SlicesWeaken(src, pos, s.next, rest.tokens, rest.spans);
      }
    }
  }

  /** The loop ends on the line it started on plus the number of line breaks it passed. */
  lemma {:induction false} ScanFromLines(d: Dialect, src: string, pos: nat, line: int)
    requires pos <= |src|
    ensures ScanFrom(d, src, pos, line).line == line + (if d == FirstLoxNet then 0 else CountNewlines(src[pos..]))
    decreases |src| - pos
  {
    if pos == |src| {
      assert src[pos..] == [];
    } else {
      var s := ScanStep(d, src, pos, line);
      StepLines(d, src, pos, line);
      ScanFromLines(d, src, s.next, s.line);
      assert ScanFrom(d, src, pos, line).line == ScanFrom(d, src, s.next, s.line).line;
      CountNewlinesSplit(src, pos, s.next);
    }
  }

  /** Every token of the loop is well formed, and none of them is EOF. */
  lemma {:induction false} ScanFromShapes(d: Dialect, src: string, pos: nat, line: int)
    requires pos <= |src|
    ensures forall t :: t in ScanFrom(d, src, pos, line).tokens ==> TokenShape(d, t) && t.kind != Eof
    decreases |src| - pos
  {
    if pos < |src| {
      var s := ScanStep(d, src, pos, line);
      StepFacts(d, src, pos, line);
      ScanFromShapes(d, src, s.next, s.line);
    }
  }

  /** In the earliest C# scanner nothing moves the line counter. */
  lemma {:induction false} FirstLoxNetLines(src: string, pos: nat, line: int)
    requires pos <= |src|
    ensures var r := ScanFrom(FirstLoxNet, src, pos, line);
      r.line == line && forall t :: t in r.tokens ==> t.line == line
    decreases |src| - pos
  {
    if pos < |src| {
      var s := ScanStep(FirstLoxNet, src, pos, line);
      StepFacts(FirstLoxNet, src, pos, line);
      FirstLoxNetLines(src, s.next, s.line);
    }
  }

  /** The output ends with exactly one EOF token, with an empty lexeme and no literal. */
  lemma ScanEndsWithEof(d: Dialect, src: string)
    ensures var ts := Scan(d, src);
      && |ts| >= 1
      && ts[|ts| - 1] == EofToken(ts[|ts| - 1].line)
      && forall i :: 0 <= i < |ts| - 1 ==> ts[i].kind != Eof
  {
    var r := ScanFrom(d, src, 0, 1);
    ScanFromShapes(d, src, 0, 1);
    assert forall i :: 0 <= i < |r.tokens| ==> r.tokens[i] in r.tokens;
  }

  /** Empty input scans to EOF on line 1 alone, with no error. */
  lemma ScanEmpty(d: Dialect)
    ensures Scan(d, "") == [EofToken(1)]
    ensures ScanErrors(d, "") == []
  {
  }

  /** EOF sits on line 1 plus the number of line breaks in the source. */
  lemma EofLineCountsNewlines(d: Dialect, src: string)
    requires d != FirstLoxNet
    ensures var ts := Scan(d, src); ts[|ts| - 1].line == 1 + CountNewlines(src)
  {
    ScanFromLines(d, src, 0, 1);
    assert src[0..] == src;
  }

  /** The earliest C# scanner puts every token, EOF included, on line 1. */
  lemma FirstLoxNetOnLineOne(src: string)
    ensures forall t :: t in Scan(FirstLoxNet, src) ==> t.line == 1
  {
    FirstLoxNetLines(src, 0, 1);
  }

  /** Every emitted lexeme is a slice of the source; the slices come in source order and do not overlap. */
  lemma LexemesAreOrderedSlices(d: Dialect, src: string)
    ensures var r := ScanFrom(d, src, 0, 1);
      && Scan(d, src)[..|r.tokens|] == r.tokens
      && |r.spans| == |r.tokens|
      && (forall i :: 0 <= i < |r.spans| ==>
            r.spans[i].start < r.spans[i].end <= |src| && src[r.spans[i].start..r.spans[i].end] == r.tokens[i].lexeme)
      && (forall i, j :: 0 <= i < j < |r.spans| ==> r.spans[i].end <= r.spans[j].start)
  {
    ScanFromSlices(d, src, 0, 1);
  }

  /** Every token before EOF has the shape its kind calls for in that dialect. */
  lemma TokensWellFormed(d: Dialect, src: string)
    ensures var ts := Scan(d, src); forall i :: 0 <= i < |ts| - 1 ==> TokenShape(d, ts[i])
  {
    var r := ScanFrom(d, src, 0, 1);
    ScanFromShapes(d, src, 0, 1);
    assert forall i :: 0 <= i < |r.tokens| ==> r.tokens[i] in r.tokens;
  }

  // ---------------------------------------------------------------------------------------------
  // Character rules

  /** `!`, `=`, `<`, `>` take a following `=` into a two-character token, and otherwise stand alone. */
  lemma OperatorRule(d: Dialect, src: string, pos: nat, line: int)
    requires pos < |src| && src[pos] in "!=<>"
    ensures var s := ScanStep(d, src, pos, line);
      && s.token.Some? && s.error.None? && s.line == line
      && (if pos + 1 < |src| && src[pos + 1] == '='
          then s.next == pos + 2 && s.token.value.lexeme == [src[pos], '=']
               && s.token.value.kind in {BangEqual, EqualEqual, LessEqual, GreaterEqual}
          else s.next == pos + 1 && s.token.value.lexeme == [src[pos]]
               && s.token.value.kind in {Bang, Equal, Less, Greater})
  {
    assert src[pos..pos + 1] == [src[pos]];
    if pos + 1 < |src| {
      assert src[pos..pos + 2] == [src[pos], src[pos + 1]];
    }
  }

  /** A lone `/` is SLASH; in the earliest C# scanner every `/` is. */
  lemma SlashRule(d: Dialect, src: string, pos: nat, line: int)
    requires pos < |src| && src[pos] == '/'
    requires d == FirstLoxNet || pos + 1 == |src| || src[pos + 1] != '/'
    ensures ScanStep(d, src, pos, line) == Step(pos + 1, line, Some(Token(Slash, "/", NoLiteral, line)), None)
  {
    assert src[pos..pos + 1] == "/";
  }

  /** The Kotlin scanners skip `//` to the end of the line, emitting nothing and keeping the line break. */
  lemma CommentSkipped(d: Dialect, src: string, pos: nat, line: int)
    requires d == Klox || d == OldKlox
    requires pos + 1 < |src| && src[pos] == '/' && src[pos + 1] == '/'
    ensures var s := ScanStep(d, src, pos, line);
      && s.token.None? && s.error.None? && s.line == line
      && (s.next == |src| || src[s.next] == '\n')
      && forall k :: pos <= k < s.next ==> src[k] != '\n'
  {
    CommentStepOk(d, src, pos, line);
  }

  /** The C# scanner turns `//` and the rest of the line, without its line break, into LINE_COMMENT. */
  lemma CommentToken(src: string, pos: nat, line: int)
    requires pos + 1 < |src| && src[pos] == '/' && src[pos + 1] == '/'
    ensures var s := ScanStep(LoxNet, src, pos, line);
      && s.token == Some(Token(LineComment, src[pos..s.next], NoLiteral, line))
      && s.error.None? && s.line == line
      && IsCommentLexeme(s.token.value.lexeme)
      && (s.next == |src| || src[s.next] == '\n')
  {
    CommentStepOk(LoxNet, src, pos, line);
  }

  /** A closed string is a STRING token whose literal is its lexeme without the quotes. */
  lemma StringRule(src: string, pos: nat, line: int)
    requires pos < |src| && src[pos] == '"'
    requires SkipWhile(src, pos + 1, NotQuote) < |src|
    ensures var s := StringStep(src, pos, line);
      && s.token.Some? && s.error.None? && s.token.value.kind == String
      && IsStringLexeme(s.token.value.lexeme)
      && s.token.value.literal == StringLit(s.token.value.lexeme[1..|s.token.value.lexeme| - 1])
      && s.line == line + CountNewlines(src[pos..s.next])
  {
    var e := SkipWhile(src, pos + 1, NotQuote);
    ClosedStringValue(src, pos, line);
    ClosedStringLexeme(src, pos, e);
    StringTokenFacts(src, pos, e, line, StringStep(src, pos, line));
  }

  /** StringRule's conclusion for a step that emits `src[pos..e + 1]` as a STRING token. */
  lemma StringTokenFacts(src: string, pos: nat, e: nat, line: int, s: Step)
    requires pos < e < |src| && s.next == e + 1 && s.error.None?
    requires s.token.Some? && s.token.value.kind == String
    requires s.token.value.lexeme == src[pos..e + 1] && IsStringLexeme(src[pos..e + 1])
    requires s.token.value.literal == StringLit(src[pos + 1..e])
    requires src[pos..e + 1][1..e - pos] == src[pos + 1..e]
    requires s.line == line + CountNewlines(src[pos + 1..e])
    requires CountNewlines(src[pos..e + 1]) == CountNewlines(src[pos + 1..e])
    ensures && s.token.Some? && s.error.None? && s.token.value.kind == String
      && IsStringLexeme(s.token.value.lexeme)
      && s.token.value.literal == StringLit(s.token.value.lexeme[1..|s.token.value.lexeme| - 1])
      && s.line == line + CountNewlines(src[pos..s.next])
  {
  }

  /** A quote starts a string in every dialect but the earliest C# one. */
  lemma StringDispatch(d: Dialect, src: string, pos: nat, line: int)
    requires d != FirstLoxNet && pos < |src| && src[pos] == '"'
    ensures ScanStep(d, src, pos, line) == StringStep(src, pos, line)
  {
  }

  /** An unclosed string reports "Unterminated string." on the line it reached and emits nothing. */
  lemma UnterminatedString(d: Dialect, src: string, pos: nat, line: int)
    requires d != FirstLoxNet && pos < |src| && src[pos] == '"'
    requires forall k :: pos < k < |src| ==> src[k] != '"'
    ensures var s := ScanStep(d, src, pos, line);
      && s.token.None? && s.next == |src|
      && s.line == line + CountNewlines(src[pos..])
      && s.error == Some(LineError(s.line, "Unterminated string."))
  {
    StringStepOk(d, src, pos, line);
    StringStepOutcome(src, pos, line);
    assert src[pos..|src|] == src[pos..];
  }

  /** Blanks emit nothing; a line break only moves to the next line. */
  lemma WhitespaceIgnored(d: Dialect, src: string, pos: nat, line: int)
    requires d != FirstLoxNet && pos < |src| && src[pos] in " \r\t\n"
    ensures ScanStep(d, src, pos, line) == Skip(pos + 1, if src[pos] == '\n' then line + 1 else line)
  {
  }

  /** The characters a dialect has no rule for: punctuation and operators aside, per dialect. */
  predicate Unexpected(d: Dialect, c: char) {
    && c !in "(){},.-+;*!=<>/"
    && (d == FirstLoxNet || c !in " \r\t\n\"")
    && (d in {LoxNet, FirstLoxNet} || !IsDigit(c))
    && (d != Klox || !IsAlpha(c))
  }

  /** Any other character is reported on the current line, emits nothing, and scanning moves on by one. */
  lemma UnexpectedReported(d: Dialect, src: string, pos: nat, line: int)
    requires pos < |src| && Unexpected(d, src[pos])
    ensures ScanStep(d, src, pos, line) == Fail(pos + 1, line, UnexpectedMessage(d, src[pos]))
  {
    SingleCharSpelling(src[pos]);
  }

  /** The older Kotlin scanner has no identifier rule: a letter is an unexpected character. */
  lemma OldKloxRejectsLetters(src: string, pos: nat, line: int)
    requires pos < |src| && IsAlpha(src[pos])
    ensures ScanStep(OldKlox, src, pos, line) == Fail(pos + 1, line, "Unexpected character: " + [src[pos]])
  {
    SingleCharSpelling(src[pos]);
  }

  /** The C# scanners have no number and no identifier rules. */
  lemma NetRejectsDigitsAndLetters(d: Dialect, src: string, pos: nat, line: int)
    requires d in {LoxNet, FirstLoxNet} && pos < |src| && IsAlphaNumeric(src[pos])
    ensures ScanStep(d, src, pos, line) == Fail(pos + 1, line, "Unexpected character.")
  {
    SingleCharSpelling(src[pos]);
  }

  // ---------------------------------------------------------------------------------------------
  // The repository's scanner tests, as lemmas

  /** ScannerTest.kt: the empty string. */
  lemma KloxScansEmptyString()
    ensures Scan(Klox, "") == [Token(Eof, "", NoLiteral, 1)]
  {
  }

  /** ScannerTests.cs: a single operator. */
  lemma NetScansSingleOperator()
    ensures Scan(LoxNet, "*") == [Token(Star, "*", NoLiteral, 1), Token(Eof, "", NoLiteral, 1)]
  {
    SingleCharRule(LoxNet, "*", 0, 1);
  }

  /** ScannerTests.cs: a line comment after two parentheses. */
  lemma NetScansLineComment()
    ensures var comment := "// this is a comment";
      Scan(LoxNet, "() " + comment) == [
        Token(LeftParen, "(", NoLiteral, 1), Token(RightParen, ")", NoLiteral, 1),
        Token(LineComment, comment, NoLiteral, 1), Token(Eof, "", NoLiteral, 1)]
  {
    CommentAfterParens("// this is a comment");
  }

  /** The same for any comment text. */
  lemma CommentAfterParens(a: string)
    requires |a| >= 2 && a[0] == '/' && a[1] == '/' && '\n' !in a
    ensures Scan(LoxNet, "() " + a) == [
      Token(LeftParen, "(", NoLiteral, 1), Token(RightParen, ")", NoLiteral, 1),
      Token(LineComment, a, NoLiteral, 1), Token(Eof, "", NoLiteral, 1)]
  {
    var src := "() " + a;
    assert src[0] == '(' && src[1] == ')' && src[2] == ' ' && src[3] == '/' && src[4] == '/';
    SingleCharRule(LoxNet, src, 0, 1);
    SingleCharRule(LoxNet, src, 1, 1);
    WhitespaceIgnored(LoxNet, src, 2, 1);
    CommentToken(src, 3, 1);
    var s := ScanStep(LoxNet, src, 3, 1);
    assert forall k :: 3 <= k < |src| ==> src[k] == a[k - 3];
    assert s.next == |src|;
    assert src[3..|src|] == a;
    assert ScanFrom(LoxNet, src, |src|, 1) == ScanResult([], [], [], 1);
    var r3 := ScanFrom(LoxNet, src, 3, 1);
    assert r3.tokens == [Token(LineComment, a, NoLiteral, 1)] && r3.line == 1;
    assert ScanFrom(LoxNet, src, 2, 1) == r3;
    var r1 := ScanFrom(LoxNet, src, 1, 1);
    assert r1.tokens == [Token(RightParen, ")", NoLiteral, 1)] + r3.tokens && r1.line == 1;
  }

  /** ScannerTests.cs: a string spanning four lines ends on line 4, and so does EOF. */
  lemma NetStringsAreMultiline()
    ensures var inner := "string\n  on\n  multiple\n  lines";
      var src := "\"" + inner + "\"";
      Scan(LoxNet, src) == [Token(String, src, StringLit(inner), 4), Token(Eof, "", NoLiteral, 4)]
  {
    var inner := "string\n  on\n  multiple\n  lines";
    FourLines();
    QuotedBody(inner);
    QuotedStringScan(LoxNet, "\"" + inner + "\"");
  }

  lemma FourLines()
    ensures CountNewlines("string\n  on\n  multiple\n  lines") == 3
  {
    var p1, p2, p3, p4 := "string" + "\n", "  on" + "\n", "  multiple" + "\n", "  lines";
    CountNewlinesLine("string");
    CountNewlinesLine("  on");
    CountNewlinesLine("  multiple");
    CountNewlinesNone(p4);
    CountNewlinesConcat(p1, p2);
    CountNewlinesConcat(p1 + p2, p3);
    CountNewlinesConcat(p1 + p2 + p3, p4);
    assert p1 + p2 + p3 + p4 == "string\n  on\n  multiple\n  lines";
  }

  /** `m` between quotes, when `m` has no quote of its own. */
  lemma QuotedBody(m: string)
    requires '"' !in m
    ensures var src := "\"" + m + "\"";
      && |src| >= 2 && src[0] == '"' && src[|src| - 1] == '"'
      && (forall k :: 0 < k < |src| - 1 ==> src[k] != '"')
      && src[1..|src| - 1] == m
  {
    var src := "\"" + m + "\"";
    forall k | 0 < k < |src| - 1
      ensures src[k] != '"'
    {
      assert src[k] == m[k - 1];
    }
    assert src[1..|src| - 1] == m;
  }

  /**
   * A source that is one closed string scans to that string, on line 1 plus the line breaks
   * inside it, and EOF on the same line.
   */
  lemma QuotedStringScan(d: Dialect, src: string)
    requires d != FirstLoxNet && |src| >= 2 && src[0] == '"' && src[|src| - 1] == '"'
    requires forall k :: 0 < k < |src| - 1 ==> src[k] != '"'
    ensures var l := 1 + CountNewlines(src[1..|src| - 1]);
      Scan(d, src) == [Token(String, src, StringLit(src[1..|src| - 1]), l), Token(Eof, "", NoLiteral, l)]
  {
    var n := |src|;
    var l := 1 + CountNewlines(src[1..n - 1]);
    assert SkipWhile(src, 1, NotQuote) == n - 1 by {
      SkipWhileStops(src, 1, n - 1, NotQuote);
    }
    assert src[0..n] == src;
    StringDispatch(d, src, 0, 1);
    assert ScanStep(d, src, 0, 1) == Step(n, l, Some(Token(String, src, StringLit(src[1..n - 1]), l)), None);
    assert ScanFrom(d, src, n, l) == ScanResult([], [], [], l);
  }

  /** A punctuation character is a token of its own. */
  lemma SingleCharRule(d: Dialect, src: string, pos: nat, line: int)
    requires pos < |src| && SingleCharKind(src[pos]).Some?
    ensures ScanStep(d, src, pos, line) == Step(pos + 1, line, Some(Token(SingleCharKind(src[pos]).value, [src[pos]], NoLiteral, line)), None)
  {
    assert src[pos..pos + 1] == [src[pos]];
  }

  /** SkipWhile stops exactly at the first index from `i` on whose character fails `p`. */
  lemma {:induction false} SkipWhileStops(src: string, i: nat, j: nat, p: char -> bool)
    requires i <= j <= |src|
    requires forall k :: i <= k < j ==> p(src[k])
    requires j == |src| || !p(src[j])
    ensures SkipWhile(src, i, p) == j
    decreases j - i
  {
    if i < j {
      SkipWhileStops(src, i + 1, j, p);
    }
  }

  /** Extending a slice by one character adds that character's line break, if it is one. */
  lemma CountNewlinesSnoc(src: string, i: nat, j: nat)
    requires i <= j < |src|
    ensures CountNewlines(src[i..j + 1]) == CountNewlines(src[i..j]) + (if src[j] == '\n' then 1 else 0)
  {
    assert src[i..j + 1][..j - i] == src[i..j];
  }
}
