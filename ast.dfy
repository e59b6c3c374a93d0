/**
 * The syntax trees the parser builds and the interpreter, the resolver and the printer walk.
 *
 * The Kotlin `Expr` and `Stmt` classes are generated and are not part of this model; the
 * constructors below are the ones Parser.kt builds, with the fields it passes. A declaration that
 * failed to parse is a `null` statement in Kotlin, here `None`.
 */
module Ast {
  import opened Wrappers
  import opened TokenTypes

  /**
   * The value of a literal expression: the host object `Expr.Literal` holds. `false`, `true` and
   * `nil` come from keywords; numbers and strings come from a token's literal.
   */
  datatype LiteralValue = NilValue | BoolValue(b: bool) | NumberValue(text: string) | StringValue(s: string)

  /** `previous().literal` of a NUMBER or STRING token, as the value of a literal expression. */
  function FromTokenLiteral(l: Literal): (v: LiteralValue)
    ensures l.NoLiteral? <==> v.NilValue?
    ensures l.StringLit? ==> v == StringValue(l.s)
    ensures l.NumberLit? ==> v == NumberValue(l.text)
    ensures !v.BoolValue?
  {
    match l
    case NoLiteral => NilValue
    case StringLit(s) => StringValue(s)
    case NumberLit(text) => NumberValue(text)
  }

  datatype Expr =
    | Assign(name: Token, value: Expr)
    | Binary(left: Expr, operator: Token, right: Expr)
    | Call(callee: Expr, paren: Token, arguments: seq<Expr>)
    | Get(obj: Expr, name: Token)
    | Grouping(expression: Expr)
    | Literal(literal: LiteralValue)
    | Logical(left: Expr, operator: Token, right: Expr)
    | Set(obj: Expr, name: Token, value: Expr)
    | This(keyword: Token)
    | Unary(operator: Token, right: Expr)
    | Variable(name: Token)

  /** A function declaration: a `fun` statement, or a method of a class. */
  datatype FunctionDecl = FunctionDecl(name: Token, params: seq<Token>, body: seq<Option<Stmt>>)

  datatype Stmt =
    | Block(statements: seq<Option<Stmt>>)
    | Class(name: Token, methods: seq<FunctionDecl>)
    | Expression(expression: Expr)
    | Function(declaration: FunctionDecl)
    | If(condition: Expr, thenBranch: Stmt, elseBranch: Option<Stmt>)
    | Print(expression: Expr)
    | Return(keyword: Token, value: Option<Expr>)
    | Var(name: Token, initializer: Option<Expr>)
    | While(condition: Expr, body: Stmt)
}
