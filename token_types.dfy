/**
 * The token vocabulary shared by the Kotlin and the C# front ends: token kinds, token literals
 * and the token record itself.
 *
 * TokenType is not among the modelled files; its members are the ones the scanners, the parser
 * and the interpreter use. LineComment exists only in the C# front end.
 */
module TokenTypes {

  datatype TokenType =
    // single-character tokens
    | LeftParen | RightParen | LeftBrace | RightBrace
    | Comma | Dot | Minus | Plus | Semicolon | Slash | Star
    // one- or two-character tokens
    | Bang | BangEqual | Equal | EqualEqual
    | Greater | GreaterEqual | Less | LessEqual
    // literals
    | Identifier | String | Number
    // keywords
    | And | Class | Else | False | For | Fun | If | Nil | Or
    | Print | Return | Super | This | True | Var | While
    // end of input, and the comment token of the C# scanner
    | Eof | LineComment

  /** The name the host prints for a token kind (the enum constant's name). */
  function KindName(k: TokenType): (name: string)
    ensures |name| > 0
  {
    match k
    case LeftParen => "LEFT_PAREN"
    case RightParen => "RIGHT_PAREN"
    case LeftBrace => "LEFT_BRACE"
    case RightBrace => "RIGHT_BRACE"
    case Comma => "COMMA"
    case Dot => "DOT"
    case Minus => "MINUS"
    case Plus => "PLUS"
    case Semicolon => "SEMICOLON"
    case Slash => "SLASH"
    case Star => "STAR"
    case Bang => "BANG"
    case BangEqual => "BANG_EQUAL"
    case Equal => "EQUAL"
    case EqualEqual => "EQUAL_EQUAL"
    case Greater => "GREATER"
    case GreaterEqual => "GREATER_EQUAL"
    case Less => "LESS"
    case LessEqual => "LESS_EQUAL"
    case Identifier => "IDENTIFIER"
    case String => "STRING"
    case Number => "NUMBER"
    case And => "AND"
    case Class => "CLASS"
    case Else => "ELSE"
    case False => "FALSE"
    case For => "FOR"
    case Fun => "FUN"
    case If => "IF"
    case Nil => "NIL"
    case Or => "OR"
    case Print => "PRINT"
    case Return => "RETURN"
    case Super => "SUPER"
    case This => "THIS"
    case True => "TRUE"
    case Var => "VAR"
    case While => "WHILE"
    case Eof => "EOF"
    case LineComment => "LINE_COMMENT"
  }

  /**
   * The literal a scanner attaches to a token: nothing (`null`), the contents of a string, or a
   * number. A number is kept as the digits it was scanned from; the host's `toDouble` of those
   * digits is the double the source stores.
   */
  datatype Literal = NoLiteral | StringLit(s: string) | NumberLit(text: string)

  /** A token. `line` is the line the scanner was on when it created the token. */
  datatype Token = Token(kind: TokenType, lexeme: string, literal: Literal, line: int)

  /** The end-of-input token every scan ends with. */
  function EofToken(line: int): (t: Token)
    ensures t.kind == Eof && t.lexeme == "" && t.literal == NoLiteral && t.line == line
  {
    Token(Eof, "", NoLiteral, line)
  }

  /** The argument of an `equals`/`Equals` call: null, a token, or an object of another class. */
  datatype Object = Null | TokenObject(token: Token) | OtherObject

  /** A 32-bit signed integer. */
  newtype Int32 = x: int | -0x8000_0000 <= x < 0x8000_0000

  /** Two's-complement wrap-around of an integer into 32 bits, as JVM and unchecked .NET arithmetic do. */
  function Wrap32(x: int): (r: Int32)
    ensures (r as int - x) % 0x1_0000_0000 == 0
  {
    var m := x % 0x1_0000_0000;
    if m < 0x8000_0000 then m as Int32 else (m - 0x1_0000_0000) as Int32
  }
}
