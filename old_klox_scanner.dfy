/**
 * The first Kotlin scanner (the top-level Scanner.kt, before the `klox` package existed). It is the
 * later scanner without identifiers and keywords: a letter is an unexpected character. Each method
 * is proved to do what the OldKlox dialect of LexSpec says.
 */
module OldKloxScanner {
  import opened Wrappers
  import opened TokenTypes
  import opened Errors
  import opened LexSpec

  class Scanner {
    const source: string
    const errorReporter: ErrorReporter
    var tokens: seq<Token>
    var start: nat
    var current: nat
    var line: int

    constructor (source: string, errorReporter: ErrorReporter)
      ensures this.source == source && this.errorReporter == errorReporter
      ensures tokens == [] && start == 0 && current == 0 && line == 1
    {
      this.source := source;
      this.errorReporter := errorReporter;
      tokens := [];
      start := 0;
      current := 0;
      line := 1;
    }

    /**
     * `scanTokens`: scans from the cursor to the end of the source, then appends EOF on the final
     * line. The tokens and the reports are those of LexSpec.ScanFrom from the cursor.
     */
    method ScanTokens() returns (result: seq<Token>)
      requires start <= current <= |source|
      modifies this, errorReporter
      ensures var r := ScanFrom(OldKlox, source, old(current), old(line));
        && result == tokens == old(tokens) + r.tokens + [EofToken(r.line)]
        && current == |source| && line == r.line
        && errorReporter.reports == old(errorReporter.reports) + r.errors
        && errorReporter.hadError == (old(errorReporter.hadError) || r.errors != [])
    {
      ghost var all := ScanFrom(OldKlox, source, current, line);
      ghost var doneTokens: seq<Token> := [];
      ghost var doneErrors: seq<Diagnostic> := [];
      while !IsAtEnd()
        invariant start <= current <= |source|
        invariant tokens == old(tokens) + doneTokens
        invariant errorReporter.reports == old(errorReporter.reports) + doneErrors
        invariant errorReporter.hadError == (old(errorReporter.hadError) || doneErrors != [])
        invariant var r := ScanFrom(OldKlox, source, current, line);
          all.tokens == doneTokens + r.tokens && all.errors == doneErrors + r.errors && r.line == all.line
        decreases |source| - current
      {
        start := current;
        ghost var s := ScanStep(OldKlox, source, current, line);
        ScanFromStep(OldKlox, source, current, line, doneTokens, doneErrors);
        ConcatAssoc(old(tokens), doneTokens, OptionToSeq(s.token));
        ConcatAssoc(old(errorReporter.reports), doneErrors, OptionToSeq(s.error));
        ScanToken();
        doneTokens := doneTokens + OptionToSeq(s.token);
        doneErrors := doneErrors + OptionToSeq(s.error);
      }
      assert ScanFrom(OldKlox, source, current, line) == ScanResult([], [], [], line);
      assert all.tokens == doneTokens && all.errors == doneErrors;
      tokens := tokens + [EofToken(line)];
      result := tokens;
    }

    /** `scanToken`: one lexeme from `start`, which is where the cursor stands. */
    method ScanToken()
      requires start == current < |source|
      modifies this, errorReporter
      ensures var s := ScanStep(OldKlox, source, old(current), old(line));
        && start == old(start) && current == s.next && line == s.line
        && tokens == old(tokens) + OptionToSeq(s.token)
        && errorReporter.reports == old(errorReporter.reports) + OptionToSeq(s.error)
        && errorReporter.hadError == (old(errorReporter.hadError) || s.error.Some?)
    {
      var c := Advance();
      // The ten one-character arms of the `when` differ only in the kind: SingleCharKind is that table.
      if SingleCharKind(c).Some? {
        AddToken(SingleCharKind(c).value, NoLiteral);
        return;
      }
      match c
      case '!' =>
        var m := Match('=');
        AddToken(if m then BangEqual else Bang, NoLiteral);
      case '=' =>
        var m := Match('=');
        AddToken(if m then EqualEqual else Equal, NoLiteral);
      case '<' =>
        var m := Match('=');
        AddToken(if m then LessEqual else Less, NoLiteral);
      case '>' =>
        var m := Match('=');
        AddToken(if m then GreaterEqual else Greater, NoLiteral);
      case '/' =>
        var m := Match('/');
        if m {
          Comment();
        } else {
          AddToken(Slash, NoLiteral);
        }
      case ' ' =>
      case '\r' =>
      case '\t' =>
      case '\n' =>
        line := line + 1;
      case '"' =>
        String();
      case _ =>
        if IsDigit(c) {
          Number();
        } else {
          errorReporter.ErrorAtLine(line, "Unexpected character: " + [c]);
        }
    }

    /** The comment loop of `scanToken`: up to the line break, which it leaves for the next lexeme. */
    method Comment()
      requires start + 2 == current <= |source| && source[start] == '/' && source[start + 1] == '/'
      modifies this
      ensures start == old(start) && line == old(line) && tokens == old(tokens)
      ensures current == SkipWhile(source, start + 2, NotNewline)
    {
      while Peek() != '\n' && !IsAtEnd()
        invariant start + 2 <= current <= |source|
        invariant forall k :: start + 2 <= k < current ==> NotNewline(source[k])
        invariant start == old(start) && line == old(line) && tokens == old(tokens)
        decreases |source| - current
      {
        var _ := Advance();
      }
      SkipWhileStops(source, start + 2, current, NotNewline);
    }

    /** `advance`. */
    method Advance() returns (c: char)
      requires current < |source|
      modifies this
      ensures c == source[old(current)] && current == old(current) + 1
      ensures start == old(start) && line == old(line) && tokens == old(tokens)
    {
      c := source[current];
      current := current + 1;
    }

    /** `addToken`: the lexeme is the source from `start` to the cursor, on the current line. */
    method AddToken(kind: TokenType, literal: Literal)
      requires start <= current <= |source|
      modifies this
      ensures start == old(start) && current == old(current) && line == old(line)
      ensures tokens == old(tokens) + [Token(kind, source[start..current], literal, line)]
    {
      tokens := tokens + [Token(kind, source[start..current], literal, line)];
    }

    /** `match`: consumes `expected` if it is the next character. */
    method Match(expected: char) returns (matched: bool)
      modifies this
      ensures matched == (old(current) < |source| && source[old(current)] == expected)
      ensures current == if matched then old(current) + 1 else old(current)
      ensures start == old(start) && line == old(line) && tokens == old(tokens)
    {
      if IsAtEnd() {
        return false;
      }
      if source[current] != expected {
        return false;
      }
      current := current + 1;
      return true;
    }

    /** `peek`: the next character, or NUL at the end. */
    function Peek(): (c: char)
      reads this
      ensures current < |source| ==> c == source[current]
      ensures current >= |source| ==> c == '\0'
    {
      if IsAtEnd() then '\0' else source[current]
    }

    /** `peekNext`: the character after the next one, or NUL past the end. */
    function PeekNext(): (c: char)
      reads this
      ensures current + 1 < |source| ==> c == source[current + 1]
      ensures current + 1 >= |source| ==> c == '\0'
    {
      if current + 1 >= |source| then '\0' else source[current + 1]
    }

    predicate IsAtEnd()
      reads this
    {
      current >= |source|
    }

    /** `string`: up to the closing quote, counting line breaks; "Unterminated string." without one. */
    method String()
      requires current == start + 1 <= |source| && source[start] == '"'
      modifies this, errorReporter
      ensures start == old(start)
      ensures var s := StringStep(source, start, old(line));
        && current == s.next && line == s.line
        && tokens == old(tokens) + OptionToSeq(s.token)
        && errorReporter.reports == old(errorReporter.reports) + OptionToSeq(s.error)
        && errorReporter.hadError == (old(errorReporter.hadError) || s.error.Some?)
    {
      SkipString();
      ghost var step := StringStep(source, start, old(line));
      if IsAtEnd() {
        assert step == Fail(current, line, "Unterminated string.");
        errorReporter.ErrorAtLine(line, "Unterminated string.");
        return;
      }
      var _ := Advance();
      var value := source[start + 1..current - 1];
      assert step == Emit(source, start, current, line, TokenType.String, StringLit(value));
      AddToken(TokenType.String, StringLit(value));
    }

    /** The loop of `string`: up to the closing quote or the end, counting line breaks. */
    method SkipString()
      requires start + 1 <= current <= |source|
      modifies this
      ensures start == old(start) && tokens == old(tokens)
      ensures current == SkipWhile(source, old(current), NotQuote)
      ensures line == old(line) + CountNewlines(source[old(current)..current])
    {
      while Peek() != '"' && !IsAtEnd()
        invariant old(current) <= current <= |source|
        invariant forall k :: old(current) <= k < current ==> NotQuote(source[k])
        invariant line == old(line) + CountNewlines(source[old(current)..current])
        invariant start == old(start) && tokens == old(tokens)
        decreases |source| - current
      {
        CountNewlinesSnoc(source, old(current), current);
        if Peek() == '\n' {
          line := line + 1;
        }
        var _ := Advance();
      }
      SkipWhileStops(source, old(current), current, NotQuote);
    }

    /** `number`: digits, then a fraction only when a digit follows the `.`. */
    method Number()
      requires current == start + 1 <= |source| && IsDigit(source[start])
      modifies this
      ensures start == old(start) && line == old(line)
      ensures current == NumberEnd(source, start)
      ensures tokens == old(tokens) + [Token(TokenType.Number, source[start..current], NumberLit(source[start..current]), line)]
    {
      Digits();
      if Peek() == '.' && IsDigit(PeekNext()) {
        var _ := Advance();
        Digits();
      }
      AddToken(TokenType.Number, NumberLit(source[start..current]));
    }

    /** The `while (isDigit(peek())) advance()` loops of `number`. */
    method Digits()
      requires start < current <= |source|
      modifies this
      ensures start == old(start) && line == old(line) && tokens == old(tokens)
      ensures current == SkipWhile(source, old(current), IsDigit)
    {
      while IsDigit(Peek())
        invariant old(current) <= current <= |source|
        invariant forall k :: old(current) <= k < current ==> IsDigit(source[k])
        invariant start == old(start) && line == old(line) && tokens == old(tokens)
        decreases |source| - current
      {
        var _ := Advance();
      }
      SkipWhileStops(source, old(current), current, IsDigit);
    }
  }

  /** A fresh scanner produces exactly LexSpec.Scan, and reports exactly LexSpec.ScanErrors. */
  method ScanSource(source: string, errorReporter: ErrorReporter) returns (tokens: seq<Token>)
    modifies errorReporter
    ensures tokens == Scan(OldKlox, source)
    ensures errorReporter.reports == old(errorReporter.reports) + ScanErrors(OldKlox, source)
  {
    var scanner := new Scanner(source, errorReporter);
    tokens := scanner.ScanTokens();
  }
}
