/**
 * The value semantics of the C# front end's token (lox.net/lox.net/Token.cs): `Equals`,
 * `GetHashCode` and `ToString`. Unlike the Kotlin token, equality looks at the type and the
 * lexeme only.
 *
 * A C# token's properties have getters and no setters, so the immutable token datatype is the
 * whole of its state.
 */
module NetToken {
  import opened TokenTypes
  import LexSpec

  /** `Equals`: `obj as Token` is not null, and the type and the lexeme agree; literal and line are not compared. */
  function Equals(t: Token, obj: Object): (eq: bool)
    ensures eq <==> (obj.TokenObject? && obj.token.kind == t.kind && obj.token.lexeme == t.lexeme)
  {
    match obj
    case TokenObject(other) => t.kind == other.kind && t.lexeme == other.lexeme
    case _ => false
  }

  /**
   * `GetHashCode`: `Type.GetHashCode() * 31 + Lexeme.GetHashCode()` in unchecked 32-bit arithmetic.
   * .NET randomises string hashes per process, and the enum's hash is its underlying value, which
   * TokenType.cs (not part of this model) fixes; both are parameters.
   */
  function GetHashCode(t: Token, kindHash: TokenType -> Int32, stringHash: string -> Int32): (h: Int32)
    ensures (h as int - (kindHash(t.kind) as int * 31 + stringHash(t.lexeme) as int)) % 0x1_0000_0000 == 0
  {
    Wrap32(kindHash(t.kind) as int * 31 + stringHash(t.lexeme) as int)
  }

  /**
   * `ToString`: `$"{Type} {Lexeme} {Literal}"`. Interpolating a null literal gives the empty string;
   * no C# scanner makes number literals, whose formatting is a parameter.
   */
  function ToString(t: Token, numberText: string -> string): (s: string)
    ensures t.literal.NoLiteral? ==> s == KindName(t.kind) + " " + t.lexeme + " "
    ensures t.literal.StringLit? ==> s == KindName(t.kind) + " " + t.lexeme + " " + t.literal.s
    ensures t.literal.NumberLit? ==> s == KindName(t.kind) + " " + t.lexeme + " " + numberText(t.literal.text)
  {
    var literal := match t.literal
      case NoLiteral => ""
      case StringLit(s) => s
      case NumberLit(text) => numberText(text);
    KindName(t.kind) + " " + t.lexeme + " " + literal
  }

  /** `Equals` is reflexive, symmetric and transitive on tokens, and false for null and for other classes. */
  lemma EqualsIsEquivalence(t: Token, u: Token, v: Token)
    ensures Equals(t, TokenObject(t))
    ensures Equals(t, TokenObject(u)) ==> Equals(u, TokenObject(t))
    ensures Equals(t, TokenObject(u)) && Equals(u, TokenObject(v)) ==> Equals(t, TokenObject(v))
    ensures !Equals(t, Null) && !Equals(t, OtherObject)
  {
  }

  /** Tokens that differ only in literal and line are equal. */
  lemma LiteralAndLineIgnored(t: Token, literal: Literal, line: int)
    ensures Equals(t, TokenObject(t.(literal := literal, line := line)))
  {
  }

  /** Equal tokens have equal hash codes, whatever the host's hash functions. */
  lemma EqualTokensHashAlike(t: Token, u: Token, kindHash: TokenType -> Int32, stringHash: string -> Int32)
    requires Equals(t, TokenObject(u))
    ensures GetHashCode(t, kindHash, stringHash) == GetHashCode(u, kindHash, stringHash)
  {
  }

  /**
   * ScannerTests.cs expects both tokens of a four-line string on line 1, while the scanner puts
   * them on line 4. The assertion still holds, because `Equals` ignores the line.
   */
  lemma MultilineStringTestPasses()
    ensures var inner := "string\n  on\n  multiple\n  lines";
      var src := "\"" + inner + "\"";
      var actual := LexSpec.Scan(LexSpec.LoxNet, src);
      var expected := [Token(String, src, StringLit(inner), 1), Token(Eof, "", NoLiteral, 1)];
      && |actual| == |expected|
      && (forall i :: 0 <= i < |actual| ==> Equals(expected[i], TokenObject(actual[i])))
      && actual != expected
  {
    LexSpec.NetStringsAreMultiline();
  }
}
