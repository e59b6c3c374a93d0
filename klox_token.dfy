/**
 * The value semantics of the Kotlin interpreter's token (Token.kt): `equals`, `hashCode` and
 * `toString`. A token's literal is Kotlin `null`, a String or a Double; the model keeps a number
 * literal as its lexeme text, and the host's `toDouble` of that text (`ops.fromText`) is the
 * Double the token holds.
 *
 * Token.kt takes `line` as a constructor parameter only, so neither `equals` nor `hashCode` can see
 * it; the token datatype still carries it, because the error reporter reports it.
 */
module KloxToken {
  import opened TokenTypes
  import opened Numbers

  /** Kotlin's `literal != other.literal` negated: `==` on `Any?`, which calls `equals`. */
  predicate LiteralEquals(a: Literal, b: Literal, ops: NumberOps) {
    match (a, b)
    case (NoLiteral, NoLiteral) => true
    case (StringLit(s), StringLit(t)) => s == t
    case (NumberLit(x), NumberLit(y)) => ops.fromText(x) == ops.fromText(y)
    case _ => false
  }

  /**
   * `equals`: the argument is a Token (null and other classes are not) with the same type,
   * lexeme and literal. The identity shortcut agrees with this, as a token equals itself.
   */
  function Equals(t: Token, other: Object, ops: NumberOps): (eq: bool)
    ensures eq <==> (other.TokenObject? && other.token.kind == t.kind && other.token.lexeme == t.lexeme
      && LiteralEquals(t.literal, other.token.literal, ops))
  {
    match other
    case Null => false
    case OtherObject => false
    case TokenObject(o) =>
      if t.kind != o.kind then false
      else if t.lexeme != o.lexeme then false
      else LiteralEquals(t.literal, o.literal, ops)
  }

  /**
   * The UTF-16 code units Java stores for a character: the character itself in the Basic
   * Multilingual Plane, and otherwise its high and low surrogates.
   */
  function CodeUnits(c: char): (units: seq<int>)
    ensures |units| == (if c as int < 0x1_0000 then 1 else 2)
    ensures c as int < 0x1_0000 ==> units == [c as int]
    ensures c as int >= 0x1_0000 ==> 0xD800 <= units[0] < 0xDC00 <= units[1] < 0xE000
    ensures c as int >= 0x1_0000 ==> (units[0] - 0xD800) * 0x400 + (units[1] - 0xDC00) + 0x1_0000 == c as int
  {
    if c as int < 0x1_0000 then [c as int]
    else
      var v := c as int - 0x1_0000;
      [0xD800 + v / 0x400, 0xDC00 + v % 0x400]
  }

  /** A string as a Java `String` holds it: the code units of its characters, in order. */
  function Utf16(s: string): (units: seq<int>)
    ensures |units| >= |s|
  {
    if s == [] then [] else Utf16(s[..|s| - 1]) + CodeUnits(s[|s| - 1])
  }

  /** `31 * h + unit` over the code units, in 32-bit arithmetic. */
  function UnitsHash(units: seq<int>): Int32 {
    if units == [] then 0 else Wrap32(31 * UnitsHash(units[..|units| - 1]) as int + units[|units| - 1])
  }

  /** Java's `String.hashCode`, which runs over the string's UTF-16 code units. */
  function StringHash(s: string): Int32 {
    UnitsHash(Utf16(s))
  }

  /** The same polynomial in unbounded integers: `sum of u[i] * 31^(n-1-i)`. */
  function HashPolynomial(units: seq<int>): int {
    if units == [] then 0 else 31 * HashPolynomial(units[..|units| - 1]) + units[|units| - 1]
  }

  /** Multiples of 2^32 stay multiples under `a + 31 * b`: the step shared by both 32-bit hashes. */
  lemma MultiplesCombine(a: int, b: int)
    requires a % 0x1_0000_0000 == 0 && b % 0x1_0000_0000 == 0
    ensures (a + 31 * b) % 0x1_0000_0000 == 0
  {
    var k := a / 0x1_0000_0000;
    var j := b / 0x1_0000_0000;
    assert a == k * 0x1_0000_0000 && b == j * 0x1_0000_0000;
    assert a + 31 * b == (k + 31 * j) * 0x1_0000_0000;
  }

  /** The 32-bit hash is the hash polynomial reduced to 32 bits: wrapping at every step loses nothing. */
  lemma {:induction false} UnitsHashIsPolynomial(units: seq<int>)
    ensures (UnitsHash(units) as int - HashPolynomial(units)) % 0x1_0000_0000 == 0
  {
    if units != [] {
      var init := units[..|units| - 1];
      UnitsHashIsPolynomial(init);
      var h := UnitsHash(init) as int;
      var p := HashPolynomial(init);
      var c := units[|units| - 1];
      var w := Wrap32(31 * h + c) as int;
      MultiplesCombine(w - (31 * h + c), h - p);
      assert w - (31 * p + c) == (w - (31 * h + c)) + 31 * (h - p);
    }
  }

  /** `StringHash` is the hash polynomial of the string's code units, reduced to 32 bits. */
  lemma StringHashIsPolynomial(s: string)
    ensures (StringHash(s) as int - HashPolynomial(Utf16(s))) % 0x1_0000_0000 == 0
  {
    UnitsHashIsPolynomial(Utf16(s));
  }

  /** A string of Basic Multilingual Plane characters is one code unit per character. */
  lemma {:induction false} Utf16OfPlaneZero(s: string)
    requires forall i :: 0 <= i < |s| ==> s[i] as int < 0x1_0000
    ensures Utf16(s) == seq(|s|, i requires 0 <= i < |s| => s[i] as int)
  {
    if s != [] {
      Utf16OfPlaneZero(s[..|s| - 1]);
    }
  }

  /** A character outside the Basic Multilingual Plane hashes as its two surrogates: U+1F600 is `31 * 0xD83D + 0xDE00`. */
  lemma SurrogatePairHash()
    ensures Utf16("\U{1F600}") == [0xD83D, 0xDE00]
    ensures StringHash("\U{1F600}") == 31 * 0xD83D + 0xDE00
  {
    assert "\U{1F600}"[..0] == [];
    assert Utf16("\U{1F600}") == [0xD83D, 0xDE00];
    var units: seq<int> := [0xD83D, 0xDE00];
    assert units[..1] == [0xD83D] && units[..1][..0] == [];
    assert Wrap32(0xD83D) == 0xD83D;
    assert UnitsHash(units[..1]) == 0xD83D;
    assert Wrap32(31 * 0xD83D + 0xDE00) == 31 * 0xD83D + 0xDE00;
  }

  /** `literal?.hashCode() ?: 0`. */
  function LiteralHash(l: Literal, ops: NumberOps): Int32 {
    match l
    case NoLiteral => 0
    case StringLit(s) => StringHash(s)
    case NumberLit(text) => DoubleHash(ops.fromText(text))
  }

  /**
   * `hashCode`: `31 * (31 * type + lexeme) + literal`, wrapping at each step. The enum's own hash
   * is the JVM's identity hash, so it is a parameter.
   */
  function HashCode(t: Token, kindHash: TokenType -> Int32, ops: NumberOps): (h: Int32)
    ensures (h as int - (961 * kindHash(t.kind) as int + 31 * StringHash(t.lexeme) as int + LiteralHash(t.literal, ops) as int)) % 0x1_0000_0000 == 0
  {
    var result := kindHash(t.kind);
    var result' := Wrap32(31 * result as int + StringHash(t.lexeme) as int);
    var h := Wrap32(31 * result' as int + LiteralHash(t.literal, ops) as int);
    var a := result' as int - (31 * result as int + StringHash(t.lexeme) as int);
    var b := h as int - (31 * result' as int + LiteralHash(t.literal, ops) as int);
    MultiplesCombine(b, a);
    assert h as int - (961 * kindHash(t.kind) as int + 31 * StringHash(t.lexeme) as int + LiteralHash(t.literal, ops) as int)
      == b + 31 * a;
    h
  }

  /** What a string template prints for the literal: `null`, the string, or `Double.toString`. */
  function LiteralText(l: Literal, ops: NumberOps): string {
    match l
    case NoLiteral => "null"
    case StringLit(s) => s
    case NumberLit(text) => ops.toText(ops.fromText(text))
  }

  /** `toString`: the type's name, the lexeme and the literal, separated by single spaces. */
  function ToString(t: Token, ops: NumberOps): (s: string)
    ensures |s| == |KindName(t.kind)| + |t.lexeme| + |LiteralText(t.literal, ops)| + 2
    ensures s[..|KindName(t.kind)| + 1] == KindName(t.kind) + " "
    ensures s[|KindName(t.kind)| + 1..][..|t.lexeme| + 1] == t.lexeme + " "
    ensures s[|KindName(t.kind)| + |t.lexeme| + 2..] == LiteralText(t.literal, ops)
  {
    KindName(t.kind) + " " + t.lexeme + " " + LiteralText(t.literal, ops)
  }

  /** `equals` is an equivalence relation on tokens. */
  lemma EqualsIsEquivalence(t: Token, u: Token, v: Token, ops: NumberOps)
    ensures Equals(t, TokenObject(t), ops)
    ensures Equals(t, TokenObject(u), ops) ==> Equals(u, TokenObject(t), ops)
    ensures Equals(t, TokenObject(u), ops) && Equals(u, TokenObject(v), ops) ==> Equals(t, TokenObject(v), ops)
  {
  }

  /** Tokens that differ only in their line are equal, and hash alike. */
  lemma LineIsIgnored(t: Token, line: int, kindHash: TokenType -> Int32, ops: NumberOps)
    ensures Equals(t, TokenObject(t.(line := line)), ops)
    ensures HashCode(t, kindHash, ops) == HashCode(t.(line := line), kindHash, ops)
  {
  }

  /** Equal tokens have equal hash codes, whatever the enum's hash. */
  lemma EqualTokensHashAlike(t: Token, u: Token, kindHash: TokenType -> Int32, ops: NumberOps)
    requires Equals(t, TokenObject(u), ops)
    ensures HashCode(t, kindHash, ops) == HashCode(u, kindHash, ops)
  {
    assert LiteralHash(t.literal, ops) == LiteralHash(u.literal, ops);
  }

  /** Two number literals written differently but parsing to the same double make equal tokens. */
  lemma NumberLiteralsCompareByValue(t: Token, other: string, ops: NumberOps)
    requires t.literal.NumberLit? && ops.fromText(t.literal.text) == ops.fromText(other)
    ensures Equals(t, TokenObject(t.(literal := NumberLit(other))), ops)
  {
  }
}
