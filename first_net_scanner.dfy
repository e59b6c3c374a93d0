/**
 * The first C# scanner (csharp/lox.net/Scanner.cs): punctuation and the one- or two-character
 * operators only. `/` is always SLASH, and every other character, whitespace and line breaks
 * included, is reported as unexpected, so the line number never changes. Each method is proved to
 * do what the FirstLoxNet dialect of LexSpec says.
 */
module FirstNetScanner {
  import opened Wrappers
  import opened TokenTypes
  import opened Errors
  import opened LexSpec

  class Scanner {
    const source: string
    /** Stands for the static error state of `Program` (`ErrorAsync`, `hadError`). */
    const program: ErrorReporter
    var start: nat
    var current: nat
    var line: int

    constructor (source: string, program: ErrorReporter)
      ensures this.source == source && this.program == program
      ensures start == 0 && current == 0 && line == 1
    {
      this.source := source;
      this.program := program;
      start := 0;
      current := 0;
      line := 1;
    }

    /**
     * `ScanTokensAsync`: the sequence it yields, which is LexSpec.ScanFrom's tokens from the cursor
     * followed by EOF; the errors reported are ScanFrom's.
     */
    method ScanTokens() returns (yielded: seq<Token>)
      requires start <= current <= |source|
      modifies this, program
      ensures var r := ScanFrom(FirstLoxNet, source, old(current), old(line));
        && yielded == r.tokens + [EofToken(r.line)]
        && current == |source| && line == r.line
        && program.reports == old(program.reports) + r.errors
        && program.hadError == (old(program.hadError) || r.errors != [])
    {
      ghost var all := ScanFrom(FirstLoxNet, source, current, line);
      ghost var doneErrors: seq<Diagnostic> := [];
      yielded := [];
      while !IsAtEnd()
        invariant start <= current <= |source|
        invariant program.reports == old(program.reports) + doneErrors
        invariant program.hadError == (old(program.hadError) || doneErrors != [])
        invariant var r := ScanFrom(FirstLoxNet, source, current, line);
          all.tokens == yielded + r.tokens && all.errors == doneErrors + r.errors && r.line == all.line
        decreases |source| - current
      {
        start := current;
        ghost var s := ScanStep(FirstLoxNet, source, current, line);
        ScanFromStep(FirstLoxNet, source, current, line, yielded, doneErrors);
        ConcatAssoc(old(program.reports), doneErrors, OptionToSeq(s.error));
        var token := ScanToken();
        ghost var expected := yielded + OptionToSeq(s.token);
        if token.Some? {
          yielded := yielded + [token.value];
        }
        assert yielded == expected;
        doneErrors := doneErrors + OptionToSeq(s.error);
      }
      assert ScanFrom(FirstLoxNet, source, current, line) == ScanResult([], [], [], line);
      assert all.tokens == yielded && all.errors == doneErrors;
      yielded := yielded + [EofToken(line)];
    }

    predicate IsAtEnd()
      reads this
    {
      current >= |source|
    }

    /** `ScanTokenAsync`: one lexeme from `start`, which is where the cursor stands. */
    method ScanToken() returns (token: Option<Token>)
      requires start == current < |source|
      modifies this, program
      ensures var s := ScanStep(FirstLoxNet, source, old(current), old(line));
        && start == old(start) && current == s.next && line == s.line && token == s.token
        && program.reports == old(program.reports) + OptionToSeq(s.error)
        && program.hadError == (old(program.hadError) || s.error.Some?)
    {
      var c := Advance();
      match c
      case '(' =>
        return Some(CreateToken(LeftParen, NoLiteral));
      case ')' =>
        return Some(CreateToken(RightParen, NoLiteral));
      case '{' =>
        return Some(CreateToken(LeftBrace, NoLiteral));
      case '}' =>
        return Some(CreateToken(RightBrace, NoLiteral));
      case ',' =>
        return Some(CreateToken(Comma, NoLiteral));
      case '.' =>
        return Some(CreateToken(Dot, NoLiteral));
      case '-' =>
        return Some(CreateToken(Minus, NoLiteral));
      case '+' =>
        return Some(CreateToken(Plus, NoLiteral));
      case ';' =>
        return Some(CreateToken(Semicolon, NoLiteral));
      case '/' =>
        return Some(CreateToken(Slash, NoLiteral));
      case '*' =>
        return Some(CreateToken(Star, NoLiteral));
      case '!' =>
        var m := Match('=');
        return Some(CreateToken(if m then BangEqual else Bang, NoLiteral));
      case '=' =>
        var m := Match('=');
        return Some(CreateToken(if m then EqualEqual else Equal, NoLiteral));
      case '<' =>
        var m := Match('=');
        return Some(CreateToken(if m then LessEqual else Less, NoLiteral));
      case '>' =>
        var m := Match('=');
        return Some(CreateToken(if m then GreaterEqual else Greater, NoLiteral));
      case _ =>
        program.ErrorAtLine(line, "Unexpected character.");
        return None;
    }

    /** `Advance`. */
    method Advance() returns (c: char)
      requires current < |source|
      modifies this
      ensures c == source[old(current)] && current == old(current) + 1
      ensures start == old(start) && line == old(line)
    {
      current := current + 1;
      c := source[current - 1];
    }

    /** `CreateToken`: the lexeme is the source from `start` to the cursor, on the current line. */
    function CreateToken(kind: TokenType, literal: Literal): (t: Token)
      requires start <= current <= |source|
      reads this
      ensures t.kind == kind && t.literal == literal && t.line == line && t.lexeme == source[start..current]
    {
      Token(kind, source[start..current], literal, line)
    }

    /** `Match`: consumes `expected` if it is the next character. */
    method Match(expected: char) returns (matched: bool)
      modifies this
      ensures matched == (old(current) < |source| && source[old(current)] == expected)
      ensures current == if matched then old(current) + 1 else old(current)
      ensures start == old(start) && line == old(line)
    {
      if IsAtEnd() {
        return false;
      }
      if source[current] != expected {
        return false;
      }
      current := current + 1;
      return true;
    }
  }

  /** Enumerating a fresh scanner yields exactly LexSpec.Scan, and reports exactly LexSpec.ScanErrors. */
  method ScanSource(source: string, program: ErrorReporter) returns (tokens: seq<Token>)
    modifies program
    ensures tokens == Scan(FirstLoxNet, source)
    ensures program.reports == old(program.reports) + ScanErrors(FirstLoxNet, source)
  {
    var scanner := new Scanner(source, program);
    tokens := scanner.ScanTokens();
  }
}
