/**
 * The parser of the Kotlin interpreter (Parser.kt), as the class it is: a cursor `current` over a
 * token list, moved by `advance` and `match`, and an error reporter. A ParseError is the `Err` of
 * a Result; `declaration` catches it.
 *
 * Every method is proved to compute what the function of the same name in ParserSpec computes,
 * from the state it starts in: the same tree or the same ParseError, the same cursor, and the same
 * reports. Where a Kotlin function is long, the spec and the class split it at the same places.
 */
module Parsing {
  import opened Wrappers
  import opened TokenTypes
  import opened Errors
  import opened Ast
  import opened ParserSpec

  class Parser {
    const tokens: seq<Token>
    const errorReporter: ErrorReporter
    var current: nat

    /** The token list ends with EOF, as every scanner's output does: `peek` relies on it. */
    constructor (tokens: seq<Token>, errorReporter: ErrorReporter)
      requires EndsWithEof(tokens)
      ensures this.tokens == tokens && this.errorReporter == errorReporter && current == 0
      ensures Valid()
    {
      this.tokens := tokens;
      this.errorReporter := errorReporter;
      current := 0;
    }

    /** The cursor is on a token and has not passed an EOF token. */
    ghost predicate Valid()
      reads this
    {
      ValidCursor(tokens, current)
    }

    /** The cursor and what the error reporter has received. */
    ghost function State(): PState
      reads this, errorReporter
    {
      PState(current, errorReporter.reports, errorReporter.hadError)
    }

    /** `parse`: declarations until the end of input. */
    method Parse() returns (statements: seq<Option<Stmt>>)
      requires Valid()
      modifies this, errorReporter
      ensures Valid() && Done(statements, State()) == ParserSpec.Parse(tokens, old(State()))
    {
      statements := [];
      while !IsAtEnd()
        invariant Valid()
        invariant ParseLoop(tokens, State(), statements) == ParserSpec.Parse(tokens, old(State()))
        decreases |tokens| - current
      {
        var d := Declaration();
        statements := statements + [d];
      }
    }

    /** `declaration`: on a ParseError, synchronise and yield `null`. */
    method Declaration() returns (s: Option<Stmt>)
      requires Valid() && (current > 0 || !IsAtEnd())
      modifies this, errorReporter
      ensures Valid() && Parsed(Ok(s), State()) == ParserSpec.Declaration(tokens, old(State()))
      decreases |tokens| - current, 31
    {
      var body := DeclarationBody();
      if body.Ok? {
        return Some(body.value);
      }
      Synchronize();
      return None;
    }

    /** The `try` block of `declaration`. */
    method DeclarationBody() returns (r: Result<Stmt, ParseError>)
      requires Valid()
      modifies this, errorReporter
      ensures Valid() && Parsed(r, State()) == ParserSpec.DeclarationBody(tokens, old(State()))
      decreases |tokens| - current, 30
    {
      var m := Match([TokenType.Class]);
      if m {
        r := ClassDeclaration();
        return;
      }
      m := Match([Fun]);
      if m {
        var f :- FunctionDeclaration("function");
        return Ok(Stmt.Function(f));
      }
      m := Match([TokenType.Var]);
      if m {
        r := VarDeclaration();
        return;
      }
      r := Statement();
    }

    /** `classDeclaration`. */
    method ClassDeclaration() returns (r: Result<Stmt, ParseError>)
      requires Valid()
      modifies this, errorReporter
      ensures Valid() && Parsed(r, State()) == ParserSpec.ClassDeclaration(tokens, old(State()))
      decreases |tokens| - current, 36
    {
      var name :- Consume(Identifier, "Expect class name.");
      var lb :- Consume(LeftBrace, "Expect '{' before class body.");
      var methods :- Methods();
      var rb :- Consume(RightBrace, "Expect '}' after class body");
      return Ok(Stmt.Class(name, methods));
    }

    /** The method loop of `classDeclaration`: methods up to `}` or the end. */
    method Methods() returns (r: Result<seq<FunctionDecl>, ParseError>)
      requires Valid()
      modifies this, errorReporter
      ensures Valid() && Parsed(r, State()) == ParserSpec.Methods(tokens, old(State()), [])
      decreases |tokens| - current, 35
    {
      var methods: seq<FunctionDecl> := [];
      while !Check(RightBrace) && !IsAtEnd()
        invariant Valid() && old(current) <= current
        invariant ParserSpec.Methods(tokens, State(), methods) == ParserSpec.Methods(tokens, old(State()), [])
        decreases |tokens| - current
      {
        var m :- FunctionDeclaration("method");
        methods := methods + [m];
      }
      return Ok(methods);
    }

    /** `function(kind)`: the name and `(`. */
    method FunctionDeclaration(kind: string) returns (r: Result<FunctionDecl, ParseError>)
      requires Valid()
      modifies this, errorReporter
      ensures Valid() && Parsed(r, State()) == ParserSpec.FunctionDeclaration(tokens, old(State()), kind)
      decreases |tokens| - current, 34
    {
      var name :- Consume(Identifier, "Expect " + kind + " name.");
      var lp :- Consume(LeftParen, "Expect '(' after " + kind + " name.");
      r := FunctionParameters(kind, name);
    }

    /** `function(kind)`: the parameters and `)`. */
    method FunctionParameters(kind: string, name: Token) returns (r: Result<FunctionDecl, ParseError>)
      requires Valid()
      modifies this, errorReporter
      ensures Valid() && Parsed(r, State()) == ParserSpec.FunctionParameters(tokens, old(State()), kind, name)
      decreases |tokens| - current, 34
    {
      var parameters: seq<Token> := [];
      if !Check(RightParen) {
        parameters :- Parameters();
      }
      var rp :- Consume(RightParen, "Expect ')' after parameters.");
      r := FunctionBody(kind, name, parameters);
    }

    /** The `do ... while (match(COMMA))` loop of `function`, with its limit of 255. */
    method Parameters() returns (r: Result<seq<Token>, ParseError>)
      requires Valid()
      modifies this, errorReporter
      ensures Valid() && Parsed(r, State()) == ParserSpec.Parameters(tokens, old(State()), [])
    {
      var parameters: seq<Token> := [];
      var more := true;
      while more
        invariant Valid() && old(current) <= current
        invariant more ==> ParserSpec.Parameters(tokens, State(), parameters) == ParserSpec.Parameters(tokens, old(State()), [])
        invariant !more ==> ParserSpec.Parameters(tokens, old(State()), []) == Parsed(Ok(parameters), State())
        decreases |tokens| - current, more
      {
        if |parameters| >= 255 {
          var _ := Error(Peek(), "Can't have more than 255 parameters.");
        }
        var parameter :- Consume(Identifier, "Expect parameter name.");
        parameters := parameters + [parameter];
        more := Match([Comma]);
      }
      return Ok(parameters);
    }

    /** `function(kind)`: `{` and the body. */
    method FunctionBody(kind: string, name: Token, parameters: seq<Token>) returns (r: Result<FunctionDecl, ParseError>)
      requires Valid()
      modifies this, errorReporter
      ensures Valid() && Parsed(r, State()) == ParserSpec.FunctionBody(tokens, old(State()), kind, name, parameters)
      decreases |tokens| - current, 34
    {
      var lb :- Consume(LeftBrace, "Expect '{' before " + kind + " body.");
      var body :- Block();
      return Ok(FunctionDecl(name, parameters, body));
    }

    /** `varDeclaration`. */
    method VarDeclaration() returns (r: Result<Stmt, ParseError>)
      requires Valid()
      modifies this, errorReporter
      ensures Valid() && Parsed(r, State()) == ParserSpec.VarDeclaration(tokens, old(State()))
      decreases |tokens| - current, 28
    {
      var name :- Consume(Identifier, "Expect variable name.");
      var initializer: Option<Expr> := None;
      var m := Match([Equal]);
      if m {
        var e :- Expression();
        initializer := Some(e);
      }
      var semicolon :- Consume(Semicolon, "Expect ';' after variable declaration.");
      return Ok(Stmt.Var(name, initializer));
    }

    /** `statement`. */
    method Statement() returns (r: Result<Stmt, ParseError>)
      requires Valid()
      modifies this, errorReporter
      ensures Valid() && Parsed(r, State()) == ParserSpec.Statement(tokens, old(State()))
      decreases |tokens| - current, 29
    {
      var m := Match([For]);
      if m {
        r := ForStatement();
        return;
      }
      m := Match([TokenType.If]);
      if m {
        r := IfStatement();
        return;
      }
      m := Match([TokenType.Print]);
      if m {
        r := PrintStatement();
        return;
      }
      m := Match([TokenType.Return]);
      if m {
        r := ReturnStatement();
        return;
      }
      m := Match([TokenType.While]);
      if m {
        r := WhileStatement();
        return;
      }
      m := Match([LeftBrace]);
      if m {
        var statements :- Block();
        return Ok(Stmt.Block(statements));
      }
      r := ExpressionStatement();
    }

    /** `forStatement`: `(` and the initializer clause. */
    method ForStatement() returns (r: Result<Stmt, ParseError>)
      requires Valid()
      modifies this, errorReporter
      ensures Valid() && Parsed(r, State()) == ParserSpec.ForStatement(tokens, old(State()))
      decreases |tokens| - current, 28
    {
      var lp :- Consume(LeftParen, "Expect '(' after 'for'.");
      var initializer :- ForInitializer();
      r := ForCondition(initializer);
    }

    /** The initializer clause of `forStatement`. */
    method ForInitializer() returns (r: Result<Option<Stmt>, ParseError>)
      requires Valid()
      modifies this, errorReporter
      ensures Valid() && Parsed(r, State()) == ParserSpec.ForInitializer(tokens, old(State()))
      decreases |tokens| - current, 29
    {
      var m := Match([Semicolon]);
      if m {
        return Ok(None);
      }
      m := Match([TokenType.Var]);
      if m {
        var s :- VarDeclaration();
        return Ok(Some(s));
      }
      var s :- ExpressionStatement();
      return Ok(Some(s));
    }

    /** The condition clause of `forStatement`, then the increment clause. */
    method ForCondition(initializer: Option<Stmt>) returns (r: Result<Stmt, ParseError>)
      requires Valid()
      modifies this, errorReporter
      ensures Valid() && Parsed(r, State()) == ParserSpec.ForCondition(tokens, old(State()), initializer)
      decreases |tokens| - current, 28
    {
      var condition :- ConditionClause();
      var semicolon :- Consume(Semicolon, "Expect ';' after loop condition.");
      r := ForIncrement(initializer, condition);
    }

    /** The condition of `forStatement`; without one, the literal `true`. */
    method ConditionClause() returns (r: Result<Expr, ParseError>)
      requires Valid()
      modifies this, errorReporter
      ensures Valid() && Parsed(r, State()) == ParserSpec.ConditionClause(tokens, old(State()))
      decreases |tokens| - current, 27
    {
      if !Check(Semicolon) {
        r := Expression();
      } else {
        r := Ok(Expr.Literal(BoolValue(true)));
      }
    }

    /** The increment clause and the body of `forStatement`, rewritten into a `while`. */
    method ForIncrement(initializer: Option<Stmt>, condition: Expr) returns (r: Result<Stmt, ParseError>)
      requires Valid()
      modifies this, errorReporter
      ensures Valid() && Parsed(r, State()) == ParserSpec.ForIncrement(tokens, old(State()), initializer, condition)
      decreases |tokens| - current, 28
    {
      var increment :- IncrementClause();
      var rp :- Consume(RightParen, "Expect ')' after for clauses.");
      var body :- Statement();
      ghost var loopBody := body;
      if increment.Some? {
        body := Stmt.Block([Some(body), Some(Stmt.Expression(increment.value))]);
      }
      body := Stmt.While(condition, body);
      if initializer.Some? {
        body := Stmt.Block([initializer, Some(body)]);
      }
      assert body == ForLoop(initializer, condition, increment, loopBody);
      return Ok(body);
    }

    /** The increment of `forStatement`, if any. */
    method IncrementClause() returns (r: Result<Option<Expr>, ParseError>)
      requires Valid()
      modifies this, errorReporter
      ensures Valid() && Parsed(r, State()) == ParserSpec.IncrementClause(tokens, old(State()))
      decreases |tokens| - current, 27
    {
      if !Check(RightParen) {
        var e :- Expression();
        return Ok(Some(e));
      }
      return Ok(None);
    }

    /** `ifStatement`: the condition. */
    method IfStatement() returns (r: Result<Stmt, ParseError>)
      requires Valid()
      modifies this, errorReporter
      ensures Valid() && Parsed(r, State()) == ParserSpec.IfStatement(tokens, old(State()))
      decreases |tokens| - current, 28
    {
      var lp :- Consume(LeftParen, "Expect '(' after 'if'.");
      var condition :- Expression();
      var rp :- Consume(RightParen, "Expect ')' after 'if' condition.");
      r := IfBranches(condition);
    }

    /** `ifStatement`: the branches. */
    method IfBranches(condition: Expr) returns (r: Result<Stmt, ParseError>)
      requires Valid()
      modifies this, errorReporter
      ensures Valid() && Parsed(r, State()) == ParserSpec.IfBranches(tokens, old(State()), condition)
      decreases |tokens| - current, 30
    {
      var thenBranch :- Statement();
      var elseBranch: Option<Stmt> := None;
      var m := Match([Else]);
      if m {
        var e :- Statement();
        elseBranch := Some(e);
      }
      return Ok(Stmt.If(condition, thenBranch, elseBranch));
    }

    /** `printStatement`. */
    method PrintStatement() returns (r: Result<Stmt, ParseError>)
      requires Valid()
      modifies this, errorReporter
      ensures Valid() && Parsed(r, State()) == ParserSpec.PrintStatement(tokens, old(State()))
      decreases |tokens| - current, 28
    {
      var value :- Expression();
      var semicolon :- Consume(Semicolon, "Expect ';' after value.");
      return Ok(Stmt.Print(value));
    }

    /** `returnStatement`: the keyword is the token `statement` just matched. */
    method ReturnStatement() returns (r: Result<Stmt, ParseError>)
      requires Valid() && current > 0
      modifies this, errorReporter
      ensures Valid() && Parsed(r, State()) == ParserSpec.ReturnStatement(tokens, old(State()))
      decreases |tokens| - current, 28
    {
      var keyword := Previous();
      var value: Option<Expr> := None;
      if !Check(Semicolon) {
        var e :- Expression();
        value := Some(e);
      }
      var semicolon :- Consume(Semicolon, "Expect ';' after return value.");
      return Ok(Stmt.Return(keyword, value));
    }

    /** `whileStatement`. */
    method WhileStatement() returns (r: Result<Stmt, ParseError>)
      requires Valid()
      modifies this, errorReporter
      ensures Valid() && Parsed(r, State()) == ParserSpec.WhileStatement(tokens, old(State()))
      decreases |tokens| - current, 28
    {
      var lp :- Consume(LeftParen, "Expect '(' after 'while'.");
      var condition :- Expression();
      var rp :- Consume(RightParen, "Expect ')' after condition.");
      var body :- Statement();
      return Ok(Stmt.While(condition, body));
    }

    /** `block`: declarations until `}` or the end, then `}`. */
    method Block() returns (r: Result<seq<Option<Stmt>>, ParseError>)
      requires Valid()
      modifies this, errorReporter
      ensures Valid() && Parsed(r, State()) == ParserSpec.Block(tokens, old(State()))
      decreases |tokens| - current, 33
    {
      var statements: seq<Option<Stmt>> := [];
      while !Check(RightBrace) && !IsAtEnd()
        invariant Valid() && old(current) <= current
        invariant BlockLoop(tokens, State(), statements) == ParserSpec.Block(tokens, old(State()))
        decreases |tokens| - current
      {
        var d := Declaration();
        statements := statements + [d];
      }
      var brace :- Consume(RightBrace, "Expect '}' after block.");
      return Ok(statements);
    }

    /** `expressionStatement`. */
    method ExpressionStatement() returns (r: Result<Stmt, ParseError>)
      requires Valid()
      modifies this, errorReporter
      ensures Valid() && Parsed(r, State()) == ParserSpec.ExpressionStatement(tokens, old(State()))
      decreases |tokens| - current, 28
    {
      var e :- Expression();
      var semicolon :- Consume(Semicolon, "Expect ';' after expression.");
      return Ok(Stmt.Expression(e));
    }

    /** `expression`. */
    method Expression() returns (r: Result<Expr, ParseError>)
      requires Valid()
      modifies this, errorReporter
      ensures Valid() && Parsed(r, State()) == ParserSpec.Expression(tokens, old(State()))
      decreases |tokens| - current, 26
    {
      r := Assignment();
    }

    /** `assignment`: the target. */
    method Assignment() returns (r: Result<Expr, ParseError>)
      requires Valid()
      modifies this, errorReporter
      ensures Valid() && Parsed(r, State()) == ParserSpec.Assignment(tokens, old(State()))
      decreases |tokens| - current, 24
    {
      var target :- Or();
      var m := Match([Equal]);
      if m {
        r := AssignTo(target);
        return;
      }
      return Ok(target);
    }

    /** `assignment`: after `=`, the value and the rewriting of the target. */
    method AssignTo(target: Expr) returns (r: Result<Expr, ParseError>)
      requires Valid() && current > 0
      modifies this, errorReporter
      ensures Valid() && Parsed(r, State()) == ParserSpec.AssignTo(tokens, old(State()), target)
      decreases |tokens| - current, 25
    {
      var equals := Previous();
      var value :- Assignment();
      match target
      case Variable(name) =>
        return Ok(Assign(name, value));
      case Get(obj, name) =>
        return Ok(Expr.Set(obj, name, value));
      case _ =>
        var _ := Error(equals, "Invalid assignment target.");
        return Ok(target);
    }

    /** `or`. */
    method Or() returns (r: Result<Expr, ParseError>)
      requires Valid()
      modifies this, errorReporter
      ensures Valid() && Parsed(r, State()) == LeftAssoc(tokens, old(State()), OrLevel)
      decreases |tokens| - current, LevelRank(OrLevel) + 1
    {
      r := LeftAssocExpr(OrLevel);
    }

    /** `and`. */
    method And() returns (r: Result<Expr, ParseError>)
      requires Valid()
      modifies this, errorReporter
      ensures Valid() && Parsed(r, State()) == LeftAssoc(tokens, old(State()), AndLevel)
      decreases |tokens| - current, LevelRank(AndLevel) + 1
    {
      r := LeftAssocExpr(AndLevel);
    }

    /** `equality`. */
    method Equality() returns (r: Result<Expr, ParseError>)
      requires Valid()
      modifies this, errorReporter
      ensures Valid() && Parsed(r, State()) == LeftAssoc(tokens, old(State()), EqualityLevel)
      decreases |tokens| - current, LevelRank(EqualityLevel) + 1
    {
      r := LeftAssocExpr(EqualityLevel);
    }

    /** `comparison`. */
    method Comparison() returns (r: Result<Expr, ParseError>)
      requires Valid()
      modifies this, errorReporter
      ensures Valid() && Parsed(r, State()) == LeftAssoc(tokens, old(State()), ComparisonLevel)
      decreases |tokens| - current, LevelRank(ComparisonLevel) + 1
    {
      r := LeftAssocExpr(ComparisonLevel);
    }

    /** `term`. */
    method Term() returns (r: Result<Expr, ParseError>)
      requires Valid()
      modifies this, errorReporter
      ensures Valid() && Parsed(r, State()) == LeftAssoc(tokens, old(State()), TermLevel)
      decreases |tokens| - current, LevelRank(TermLevel) + 1
    {
      r := LeftAssocExpr(TermLevel);
    }

    /** `factor`. */
    method Factor() returns (r: Result<Expr, ParseError>)
      requires Valid()
      modifies this, errorReporter
      ensures Valid() && Parsed(r, State()) == LeftAssoc(tokens, old(State()), FactorLevel)
      decreases |tokens| - current, LevelRank(FactorLevel) + 1
    {
      r := LeftAssocExpr(FactorLevel);
    }

    /**
     * `leftAssocExpr(operand, ctor, operators)`; the level stands for the three arguments: an
     * operand, then the operator loop.
     */
    method LeftAssocExpr(l: Level) returns (r: Result<Expr, ParseError>)
      requires Valid()
      modifies this, errorReporter
      ensures Valid() && Parsed(r, State()) == LeftAssoc(tokens, old(State()), l)
      decreases |tokens| - current, LevelRank(l)
    {
      var left :- Operand(l);
      r := OperatorLoop(l, left);
    }

    /**
     * The `while (match(operators))` loop of `leftAssocExpr`. The loop keeps the state before its
     * last `match` in `before`.
     */
    method OperatorLoop(l: Level, left: Expr) returns (r: Result<Expr, ParseError>)
      requires Valid()
      modifies this, errorReporter
      ensures Valid() && Parsed(r, State()) == LeftAssocLoop(tokens, old(State()), l, left)
      decreases |tokens| - current, LevelRank(l)
    {
      var expr := left;
      ghost var before := State();
      var m := Match(Operators(l));
      while m
        invariant Valid() && ValidCursor(tokens, before.pos) && old(current) <= before.pos
        invariant m == Matches(tokens, before.pos, Operators(l))
        invariant State() == if m then ParserSpec.Advance(tokens, before) else before
        invariant LeftAssocLoop(tokens, before, l, expr) == LeftAssocLoop(tokens, old(State()), l, left)
        decreases |tokens| - current
      {
        expr :- FoldOperator(l, expr, before);
        before := State();
        m := Match(Operators(l));
      }
      return Ok(expr);
    }

    /** The body of the loop of `leftAssocExpr`: the operator just matched, its operand, and the new left side. */
    method FoldOperator(l: Level, left: Expr, ghost before: PState) returns (r: Result<Expr, ParseError>)
      requires Valid() && ValidCursor(tokens, before.pos) && Matches(tokens, before.pos, Operators(l))
      requires State() == ParserSpec.Advance(tokens, before)
      modifies this, errorReporter
      ensures Valid() && before.pos < current && (r.Ok? ==> before.pos + 1 < current)
      ensures r.Err? ==> Parsed(Err(r.error), State()) == LeftAssocLoop(tokens, before, l, left)
      ensures r.Ok? ==> LeftAssocLoop(tokens, State(), l, r.value) == LeftAssocLoop(tokens, before, l, left)
      decreases |tokens| - current, LevelRank(l)
    {
      var operator := Previous();
      var right :- Operand(l);
      return Ok(Build(l, left, operator, right));
    }

    /** The operand rule of a level: the function reference `leftAssocExpr` receives. */
    method Operand(l: Level) returns (r: Result<Expr, ParseError>)
      requires Valid()
      modifies this, errorReporter
      ensures Valid() && Parsed(r, State()) == ParserSpec.Operand(tokens, old(State()), l)
      decreases |tokens| - current, LevelRank(l) - 1
    {
      match l
      case OrLevel => r := And();
      case AndLevel => r := Equality();
      case EqualityLevel => r := Comparison();
      case ComparisonLevel => r := Term();
      case TermLevel => r := Factor();
      case FactorLevel => r := Unary();
    }

    /** `unary`. */
    method Unary() returns (r: Result<Expr, ParseError>)
      requires Valid()
      modifies this, errorReporter
      ensures Valid() && Parsed(r, State()) == ParserSpec.Unary(tokens, old(State()))
      decreases |tokens| - current, 5
    {
      var m := Match([Bang, Minus]);
      if m {
        var operator := Previous();
        var right :- Unary();
        return Ok(Expr.Unary(operator, right));
      }
      r := Call();
    }

    /** `call`: the `while (true)` loop ends at the first token that is neither `(` nor `.`. */
    method Call() returns (r: Result<Expr, ParseError>)
      requires Valid()
      modifies this, errorReporter
      ensures Valid() && Parsed(r, State()) == ParserSpec.Call(tokens, old(State()))
      decreases |tokens| - current, 4
    {
      var expr :- Primary();
      while true
        invariant Valid() && old(current) < current
        invariant CallLoop(tokens, State(), expr) == ParserSpec.Call(tokens, old(State()))
        decreases |tokens| - current
      {
        var m := Match([LeftParen]);
        if m {
          expr :- FinishCall(expr);
        } else {
          m := Match([Dot]);
          if m {
            var name :- Consume(Identifier, "Expect property name after '.'.");
            expr := Get(expr, name);
          } else {
            break;
          }
        }
      }
      return Ok(expr);
    }

    /** `finishCall`: the arguments and `)`. */
    method FinishCall(callee: Expr) returns (r: Result<Expr, ParseError>)
      requires Valid()
      modifies this, errorReporter
      ensures Valid() && Parsed(r, State()) == ParserSpec.FinishCall(tokens, old(State()), callee)
      decreases |tokens| - current, 28
    {
      var arguments: seq<Expr> := [];
      if !Check(RightParen) {
        arguments :- Arguments();
      }
      var paren :- Consume(RightParen, "Expect ')' after arguments.");
      return Ok(Expr.Call(callee, paren, arguments));
    }

    /** The `do ... while (match(COMMA))` loop of `finishCall`, with its limit of 255. */
    method Arguments() returns (r: Result<seq<Expr>, ParseError>)
      requires Valid()
      modifies this, errorReporter
      ensures Valid() && Parsed(r, State()) == ParserSpec.Arguments(tokens, old(State()), [])
      decreases |tokens| - current, 27
    {
      var arguments: seq<Expr> := [];
      var more := true;
      while more
        invariant Valid() && old(current) <= current
        invariant more ==> ParserSpec.Arguments(tokens, State(), arguments) == ParserSpec.Arguments(tokens, old(State()), [])
        invariant !more ==> ParserSpec.Arguments(tokens, old(State()), []) == Parsed(Ok(arguments), State())
        decreases |tokens| - current, more
      {
        if |arguments| >= 255 {
          var _ := Error(Peek(), "Can't have more than 255 arguments.");
        }
        var argument :- Expression();
        arguments := arguments + [argument];
        more := Match([Comma]);
      }
      return Ok(arguments);
    }

    /** `primary`. */
    method Primary() returns (r: Result<Expr, ParseError>)
      requires Valid()
      modifies this, errorReporter
      ensures Valid() && Parsed(r, State()) == ParserSpec.Primary(tokens, old(State()))
      decreases |tokens| - current, 2
    {
      var m := Match([False]);
      if m {
        return Ok(Expr.Literal(BoolValue(false)));
      }
      m := Match([True]);
      if m {
        return Ok(Expr.Literal(BoolValue(true)));
      }
      m := Match([Nil]);
      if m {
        return Ok(Expr.Literal(NilValue));
      }
      m := Match([Number, TokenType.String]);
      if m {
        return Ok(Expr.Literal(FromTokenLiteral(Previous().literal)));
      }
      m := Match([TokenType.This]);
      if m {
        return Ok(Expr.This(Previous()));
      }
      m := Match([Identifier]);
      if m {
        return Ok(Variable(Previous()));
      }
      m := Match([LeftParen]);
      if m {
        var e :- Expression();
        var paren :- Consume(RightParen, "Expect ')' after expression.");
        return Ok(Grouping(e));
      }
      var error := Error(Peek(), "Expect expression.");
      return Err(error);
    }

    /** `consume`: the next token if it has the kind, else a ParseError after reporting it. */
    method Consume(kind: TokenType, message: string) returns (r: Result<Token, ParseError>)
      requires Valid()
      modifies this, errorReporter
      ensures Valid() && Parsed(r, State()) == ParserSpec.Consume(tokens, old(State()), kind, message)
    {
      if Check(kind) {
        var t := Advance();
        return Ok(t);
      }
      var error := Error(Peek(), message);
      return Err(error);
    }

    /** `error`: reports at the token and returns the ParseError for the caller to throw or drop. */
    method Error(token: Token, message: string) returns (e: ParseError)
      modifies errorReporter
      ensures e == ParseError && State() == Report(old(State()), token, message)
    {
      errorReporter.ErrorAtToken(token, message);
      return ParseError;
    }

    /** `synchronize`: skip the current token, then stop after `;`, before a keyword, or at EOF. */
    method Synchronize()
      requires Valid() && (current > 0 || !IsAtEnd())
      modifies this
      ensures Valid() && State() == ParserSpec.Synchronize(tokens, old(State()))
    {
      var _ := Advance();
      while !IsAtEnd()
        invariant Valid() && current > 0
        invariant SyncLoop(tokens, State()) == ParserSpec.Synchronize(tokens, old(State()))
        decreases |tokens| - current
      {
        if Previous().kind == Semicolon {
          return;
        }
        if Peek().kind in SyncKinds {
          return;
        }
        var _ := Advance();
      }
    }

    /** `match(kinds...)`: tries the kinds in turn and consumes the token on the first that fits. */
    method Match(kinds: seq<TokenType>) returns (matched: bool)
      requires Valid()
      modifies this
      ensures Valid() && matched == Matches(tokens, old(current), kinds)
      ensures State() == if matched then ParserSpec.Advance(tokens, old(State())) else old(State())
    {
      for i := 0 to |kinds|
        invariant current == old(current)
        invariant forall j :: 0 <= j < i ==> !Check(kinds[j])
      {
        if Check(kinds[i]) {
          var _ := Advance();
          return true;
        }
      }
      return false;
    }

    /** `check`: false at the end. */
    predicate Check(kind: TokenType)
      reads this
      requires Valid()
      ensures Check(kind) == ParserSpec.Check(tokens, current, kind)
    {
      if IsAtEnd() then false else Peek().kind == kind
    }

    /** `advance`: at the end it stays, and gives the token before the cursor. */
    method Advance() returns (t: Token)
      requires Valid() && (current > 0 || !IsAtEnd())
      modifies this
      ensures Valid() && current > 0 && t == tokens[current - 1]
      ensures State() == ParserSpec.Advance(tokens, old(State()))
    {
      if !IsAtEnd() {
        current := current + 1;
      }
      return Previous();
    }

    /** `isAtEnd`. */
    predicate IsAtEnd()
      reads this
      requires Valid()
      ensures IsAtEnd() == AtEnd(tokens, current)
    {
      Peek().kind == Eof
    }

    /** `peek`. */
    function Peek(): Token
      reads this
      requires Valid()
    {
      tokens[current]
    }

    /** `previous`. */
    function Previous(): Token
      reads this
      requires 0 < current <= |tokens|
    {
      tokens[current - 1]
    }
  }

  /** A parser over a scanner's output: the statements and reports of ParserSpec.Parse from the start. */
  method ParseTokens(tokens: seq<Token>, errorReporter: ErrorReporter) returns (statements: seq<Option<Stmt>>)
    requires EndsWithEof(tokens)
    modifies errorReporter
    ensures var d := ParserSpec.Parse(tokens, PState(0, old(errorReporter.reports), old(errorReporter.hadError)));
      statements == d.value && errorReporter.reports == d.st.reports && errorReporter.hadError == d.st.hadError
  {
    var parser := new Parser(tokens, errorReporter);
    statements := parser.Parse();
  }
}
