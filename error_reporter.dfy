/**
 * The error reporter of the Kotlin interpreter (ErrorReporter.kt): every diagnostic becomes a
 * `(line, where, message)` report, and any report sets `hadError`.
 *
 * The scanners and the parser hold an ErrorReporter and report through it; their specification
 * functions describe the same reports as values, built with LineError and TokenError below.
 */
module Errors {
  import opened TokenTypes

  /** What `reportInternal` receives: a line, a location text and a message. */
  datatype Diagnostic = Diagnostic(line: int, where: string, message: string)

  /** The report `error(line, message)` produces: no location. */
  function LineError(line: int, message: string): (r: Diagnostic)
    ensures r.line == line && r.message == message && r.where == ""
  {
    Diagnostic(line, "", message)
  }

  /** The location text `error(token, message)` uses for a token. */
  function Where(token: Token): (w: string)
    ensures token.kind == Eof ==> w == " at end"
    ensures token.kind != Eof ==> w == " at '" + token.lexeme + "'"
  {
    if token.kind == Eof then " at end" else " at '" + token.lexeme + "'"
  }

  /** The report `error(token, message)` produces: the token's line, and a location from the token. */
  function TokenError(token: Token, message: string): (r: Diagnostic)
    ensures r.line == token.line && r.message == message && r.where == Where(token)
  {
    Diagnostic(token.line, Where(token), message)
  }

  /** The location text tells an end-of-input error apart from every other token error. */
  lemma WhereAtEndOnlyForEof(token: Token)
    ensures Where(token) == " at end" <==> token.kind == Eof
  {
    if token.kind != Eof {
      var w := Where(token);
      assert w[4] == '\'';
      assert " at end"[4] == 'e';
    }
  }

  /** A token error never has the empty location of a line error. */
  lemma TokenErrorHasLocation(token: Token, line: int, message: string)
    ensures TokenError(token, message) != LineError(line, message)
  {
    assert |Where(token)| > 0;
  }

  class ErrorReporter {
    /** Whether any error has been reported since construction or the last reset. */
    var hadError: bool
    /** Every report passed to `reportInternal`, in order. */
    var reports: seq<Diagnostic>

    constructor ()
      ensures !hadError && reports == []
    {
      hadError := false;
      reports := [];
    }

    /** `report`: hands the report on and records that an error happened. */
    method Report(line: int, where: string, message: string)
      modifies this
      ensures hadError
      ensures reports == old(reports) + [Diagnostic(line, where, message)]
    {
      reports := reports + [Diagnostic(line, where, message)];
      hadError := true;
    }

    /** `error(line, message)`. */
    method ErrorAtLine(line: int, message: string)
      modifies this
      ensures hadError
      ensures reports == old(reports) + [LineError(line, message)]
    {
      Report(line, "", message);
    }

    /** `error(token, message)`: " at end" for the end-of-input token, " at '<lexeme>'" otherwise. */
    method ErrorAtToken(token: Token, message: string)
      modifies this
      ensures hadError
      ensures reports == old(reports) + [TokenError(token, message)]
    {
      if token.kind == Eof {
        Report(token.line, " at end", message);
      } else {
        Report(token.line, " at '" + token.lexeme + "'", message);
      }
    }

    /** `reset`: clears the flag; what was reported stays reported. */
    method Reset()
      modifies this
      ensures !hadError && reports == old(reports)
    {
      hadError := false;
    }
  }
}
