/**
 * The C# scanner (lox.net/Scanner.cs). Unlike the Kotlin scanners it keeps no token list:
 * `ScanTokenAsync` returns the token of one lexeme or null, and `ScanTokensAsync` yields the
 * non-null ones followed by EOF. A `//` comment becomes a LINE_COMMENT token, numbers and
 * identifiers are not recognised yet, and errors go to the program's static `ErrorAsync`, which the
 * model passes in as an Errors.ErrorReporter (`program`). Each method is proved to do what the
 * LoxNet dialect of LexSpec says.
 */
module NetScanner {
  import opened Wrappers
  import opened TokenTypes
  import opened Errors
  import opened LexSpec

  class Scanner {
    const source: string
    /** Stands for the static error state of `Program` (`ErrorAsync`, `hadError`). */
    const program: ErrorReporter
    var start: nat
    var current: nat
    var line: int

    constructor (source: string, program: ErrorReporter)
      ensures this.source == source && this.program == program
      ensures start == 0 && current == 0 && line == 1
    {
      this.source := source;
      this.program := program;
      start := 0;
      current := 0;
      line := 1;
    }

    /**
     * `ScanTokensAsync`: the sequence it yields, which is LexSpec.ScanFrom's tokens from the cursor
     * followed by EOF on the final line; the errors reported are ScanFrom's.
     */
    method ScanTokens() returns (yielded: seq<Token>)
      requires start <= current <= |source|
      modifies this, program
      ensures var r := ScanFrom(LoxNet, source, old(current), old(line));
        && yielded == r.tokens + [EofToken(r.line)]
        && current == |source| && line == r.line
        && program.reports == old(program.reports) + r.errors
        && program.hadError == (old(program.hadError) || r.errors != [])
    {
      ghost var all := ScanFrom(LoxNet, source, current, line);
      ghost var doneErrors: seq<Diagnostic> := [];
      yielded := [];
      while !IsAtEnd()
        invariant start <= current <= |source|
        invariant program.reports == old(program.reports) + doneErrors
        invariant program.hadError == (old(program.hadError) || doneErrors != [])
        invariant var r := ScanFrom(LoxNet, source, current, line);
          all.tokens == yielded + r.tokens && all.errors == doneErrors + r.errors && r.line == all.line
        decreases |source| - current
      {
        start := current;
        ghost var s := ScanStep(LoxNet, source, current, line);
        ScanFromStep(LoxNet, source, current, line, yielded, doneErrors);
        ConcatAssoc(old(program.reports), doneErrors, OptionToSeq(s.error));
        var token := ScanToken();
        ghost var expected := yielded + OptionToSeq(s.token);
        if token.Some? {
          yielded := yielded + [token.value];
        }
        assert yielded == expected;
        doneErrors := doneErrors + OptionToSeq(s.error);
      }
      assert ScanFrom(LoxNet, source, current, line) == ScanResult([], [], [], line);
      assert all.tokens == yielded && all.errors == doneErrors;
      yielded := yielded + [EofToken(line)];
    }

    predicate IsAtEnd()
      reads this
    {
      current >= |source|
    }

    /** `ScanTokenAsync`: one lexeme from `start`, which is where the cursor stands. */
    method ScanToken() returns (token: Option<Token>)
      requires start == current < |source|
      modifies this, program
      ensures var s := ScanStep(LoxNet, source, old(current), old(line));
        && start == old(start) && current == s.next && line == s.line && token == s.token
        && program.reports == old(program.reports) + OptionToSeq(s.error)
        && program.hadError == (old(program.hadError) || s.error.Some?)
    {
      var c := Advance();
      match c
      case '(' =>
        return Some(CreateToken(LeftParen, NoLiteral));
      case ')' =>
        return Some(CreateToken(RightParen, NoLiteral));
      case '{' =>
        return Some(CreateToken(LeftBrace, NoLiteral));
      case '}' =>
        return Some(CreateToken(RightBrace, NoLiteral));
      case ',' =>
        return Some(CreateToken(Comma, NoLiteral));
      case '.' =>
        return Some(CreateToken(Dot, NoLiteral));
      case '-' =>
        return Some(CreateToken(Minus, NoLiteral));
      case '+' =>
        return Some(CreateToken(Plus, NoLiteral));
      case ';' =>
        return Some(CreateToken(Semicolon, NoLiteral));
      case '/' =>
        var m := Match('/');
        if m {
          Comment();
          return Some(CreateToken(LineComment, NoLiteral));
        } else {
          return Some(CreateToken(Slash, NoLiteral));
        }
      case '*' =>
        return Some(CreateToken(Star, NoLiteral));
      case '!' =>
        var m := Match('=');
        return Some(CreateToken(if m then BangEqual else Bang, NoLiteral));
      case '=' =>
        var m := Match('=');
        return Some(CreateToken(if m then EqualEqual else Equal, NoLiteral));
      case '<' =>
        var m := Match('=');
        return Some(CreateToken(if m then LessEqual else Less, NoLiteral));
      case '>' =>
        var m := Match('=');
        return Some(CreateToken(if m then GreaterEqual else Greater, NoLiteral));
      case ' ' =>
        return None;
      case '\r' =>
        return None;
      case '\t' =>
        return None;
      case '\n' =>
        line := line + 1;
        return None;
      case '"' =>
        token := String();
      case _ =>
        program.ErrorAtLine(line, "Unexpected character.");
        return None;
    }

    /** The comment loop of `ScanTokenAsync`: up to the line break, which it leaves for the next lexeme. */
    method Comment()
      requires start + 2 == current <= |source| && source[start] == '/' && source[start + 1] == '/'
      modifies this
      ensures start == old(start) && line == old(line)
      ensures current == SkipWhile(source, start + 2, NotNewline)
    {
      while Peek() != '\n' && !IsAtEnd()
        invariant start + 2 <= current <= |source|
        invariant forall k :: start + 2 <= k < current ==> NotNewline(source[k])
        invariant start == old(start) && line == old(line)
        decreases |source| - current
      {
        var _ := Advance();
      }
      SkipWhileStops(source, start + 2, current, NotNewline);
    }

    /** `StringAsync`: up to the closing quote, counting line breaks; null and an error without one. */
    method String() returns (token: Option<Token>)
      requires current == start + 1 <= |source| && source[start] == '"'
      modifies this, program
      ensures start == old(start)
      ensures var s := StringStep(source, start, old(line));
        && current == s.next && line == s.line && token == s.token
        && program.reports == old(program.reports) + OptionToSeq(s.error)
        && program.hadError == (old(program.hadError) || s.error.Some?)
    {
      SkipString();
      ghost var step := StringStep(source, start, old(line));
      if IsAtEnd() {
        assert step == Fail(current, line, "Unterminated string.");
        program.ErrorAtLine(line, "Unterminated string.");
        return None;
      }
      var _ := Advance();
      var value := source[start + 1..current - 1];
      assert step == Emit(source, start, current, line, TokenType.String, StringLit(value));
      return Some(CreateToken(TokenType.String, StringLit(value)));
    }

    /** The loop of `StringAsync`: up to the closing quote or the end, counting line breaks. */
    method SkipString()
      requires start + 1 <= current <= |source|
      modifies this
      ensures start == old(start)
      ensures current == SkipWhile(source, old(current), NotQuote)
      ensures line == old(line) + CountNewlines(source[old(current)..current])
    {
      while Peek() != '"' && !IsAtEnd()
        invariant old(current) <= current <= |source|
        invariant forall k :: old(current) <= k < current ==> NotQuote(source[k])
        invariant line == old(line) + CountNewlines(source[old(current)..current])
        invariant start == old(start)
        decreases |source| - current
      {
        CountNewlinesSnoc(source, old(current), current);
        if Peek() == '\n' {
          line := line + 1;
        }
        var _ := Advance();
      }
      SkipWhileStops(source, old(current), current, NotQuote);
    }

    /** `Advance`. */
    method Advance() returns (c: char)
      requires current < |source|
      modifies this
      ensures c == source[old(current)] && current == old(current) + 1
      ensures start == old(start) && line == old(line)
    {
      current := current + 1;
      c := source[current - 1];
    }

    /** `CreateToken`: the lexeme is the source from `start` to the cursor, on the current line. */
    function CreateToken(kind: TokenType, literal: Literal): (t: Token)
      requires start <= current <= |source|
      reads this
      ensures t.kind == kind && t.literal == literal && t.line == line && t.lexeme == source[start..current]
    {
      Token(kind, source[start..current], literal, line)
    }

    /** `Match`: consumes `expected` if it is the next character. */
    method Match(expected: char) returns (matched: bool)
      modifies this
      ensures matched == (old(current) < |source| && source[old(current)] == expected)
      ensures current == if matched then old(current) + 1 else old(current)
      ensures start == old(start) && line == old(line)
    {
      if IsAtEnd() {
        return false;
      }
      if source[current] != expected {
        return false;
      }
      current := current + 1;
      return true;
    }

    /** `Peek`: the next character, or NUL at the end. */
    function Peek(): (c: char)
      reads this
      ensures current < |source| ==> c == source[current]
      ensures current >= |source| ==> c == '\0'
    {
      if IsAtEnd() then '\0' else source[current]
    }
  }

  /** Enumerating a fresh scanner yields exactly LexSpec.Scan, and reports exactly LexSpec.ScanErrors. */
  method ScanSource(source: string, program: ErrorReporter) returns (tokens: seq<Token>)
    modifies program
    ensures tokens == Scan(LoxNet, source)
    ensures program.reports == old(program.reports) + ScanErrors(LoxNet, source)
  {
    var scanner := new Scanner(source, program);
    tokens := scanner.ScanTokens();
  }
}
