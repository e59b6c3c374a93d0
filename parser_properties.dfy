/**
 * What the grammar of Parser.kt guarantees about the trees and the reports it produces, proved
 * about ParserSpec (and so, through the method contracts, about the Parser class).
 */
module ParserProperties {
  import opened Wrappers
  import opened TokenTypes
  import opened Errors
  import opened Ast
  import opened ParserSpec

  // ---------------------------------------------------------------------------------------------
  // Precedence and associativity of the binary operators

  /** How tightly a level binds: `or` loosest (0), `factor` tightest (5). */
  function Prec(l: Level): (n: nat)
    ensures n <= 5
  {
    match l
    case OrLevel => 0
    case AndLevel => 1
    case EqualityLevel => 2
    case ComparisonLevel => 3
    case TermLevel => 4
    case FactorLevel => 5
  }

  /** The precedence of the level an operator belongs to; 6 for a token of no level. */
  function OperatorPrec(kind: TokenType): (n: nat)
    ensures n <= 6
  {
    if kind in Operators(OrLevel) then 0
    else if kind in Operators(AndLevel) then 1
    else if kind in Operators(EqualityLevel) then 2
    else if kind in Operators(ComparisonLevel) then 3
    else if kind in Operators(TermLevel) then 4
    else if kind in Operators(FactorLevel) then 5
    else 6
  }

  /** The precedence of an expression's outermost operator; 6 when it is not a binary or logical one. */
  function TopPrec(e: Expr): (n: nat)
    ensures n <= 6
    ensures !(e.Binary? || e.Logical?) ==> n == 6
  {
    if e.Binary? || e.Logical? then OperatorPrec(e.operator.kind) else 6
  }

  /** The operator sets of the levels are disjoint, so an operator has exactly one level. */
  lemma OperatorPrecOfLevel(l: Level, kind: TokenType)
    requires kind in Operators(l)
    ensures OperatorPrec(kind) == Prec(l)
  {
  }

  /**
   * A well-formed expression of level `l`: its left spine is a chain of level-`l` operators, built
   * with the level's constructor, whose right operands all bind tighter than `l`; the chain ends
   * in an expression that binds tighter than `l`. So `a - b - c` can only be `(a - b) - c`, and
   * `a + b * c` only `a + (b * c)`.
   */
  ghost predicate LeftNested(l: Level, e: Expr)
    decreases e
  {
    if (e.Binary? || e.Logical?) && e.operator.kind in Operators(l) then
      && e == Build(l, e.left, e.operator, e.right)
      && TopPrec(e.right) > Prec(l)
      && LeftNested(l, e.left)
    else
      TopPrec(e) > Prec(l)
  }

  /** An expression that binds tighter than a level is a (trivial) expression of that level. */
  lemma TighterIsNested(l: Level, e: Expr)
    requires TopPrec(e) > Prec(l)
    ensures LeftNested(l, e)
  {
    if (e.Binary? || e.Logical?) && e.operator.kind in Operators(l) {
      OperatorPrecOfLevel(l, e.operator.kind);
    }
  }

  /** An expression of a level binds at least as tightly as the level. */
  lemma NestedBindsAtLeast(l: Level, e: Expr)
    requires LeftNested(l, e)
    ensures TopPrec(e) >= Prec(l)
  {
    if (e.Binary? || e.Logical?) && e.operator.kind in Operators(l) {
      OperatorPrecOfLevel(l, e.operator.kind);
    }
  }

  // ---------------------------------------------------------------------------------------------
  // Calls and property accesses

  /**
   * `e` is `acc` under zero or more calls and property accesses, each the callee or the object of
   * the next one out: `acc(...).name(...)`, nested from left to right.
   */
  predicate Wraps(acc: Expr, e: Expr)
    decreases e
  {
    e == acc || (e.Call? && Wraps(acc, e.callee)) || (e.Get? && Wraps(acc, e.obj))
  }

  /** Wrapping what already wraps `a` still wraps `a`. */
  lemma {:induction false} WrapsTransitive(a: Expr, b: Expr, c: Expr)
    requires Wraps(a, b) && Wraps(b, c)
    ensures Wraps(a, c)
    decreases c
  {
    if c != b {
      if c.Call? && Wraps(b, c.callee) {
        WrapsTransitive(a, b, c.callee);
      } else {
        WrapsTransitive(a, b, c.obj);
      }
    }
  }

  /**
   * The loop of `call` nests each `(...)` and `.name` around what it parsed so far: the result
   * wraps the expression it was given, which stays innermost.
   */
  lemma {:induction false} CallLoopWraps(ts: seq<Token>, st: PState, acc: Expr)
    requires ValidCursor(ts, st.pos)
    ensures var p := CallLoop(ts, st, acc); p.result.Ok? ==> Wraps(acc, p.result.value)
    decreases |ts| - st.pos
  {
    var p := CallLoop(ts, st, acc);
    if Matches(ts, st.pos, [LeftParen]) {
      var call := FinishCall(ts, Advance(ts, st), acc);
      if call.result.Ok? {
        FinishCallIsCall(ts, Advance(ts, st), acc);
        CallLoopWraps(ts, call.st, call.result.value);
        if p.result.Ok? {
          WrapsTransitive(acc, call.result.value, p.result.value);
        }
      }
    } else if Matches(ts, st.pos, [Dot]) {
      var name := Consume(ts, Advance(ts, st), Identifier, "Expect property name after '.'.");
      if name.result.Ok? {
        CallLoopWraps(ts, name.st, Get(acc, name.result.value));
        if p.result.Ok? {
          WrapsTransitive(acc, Get(acc, name.result.value), p.result.value);
        }
      }
    }
  }

  /** `call` nests its calls and property accesses from left to right around the primary it starts with. */
  lemma CallWrapsPrimary(ts: seq<Token>, st: PState)
    requires ValidCursor(ts, st.pos)
    ensures var p := ParserSpec.Call(ts, st); var callee := Primary(ts, st);
      p.result.Ok? ==> callee.result.Ok? && Wraps(callee.result.value, p.result.value)
  {
    var callee := Primary(ts, st);
    if callee.result.Ok? {
      CallLoopWraps(ts, callee.st, callee.result.value);
    }
  }

  /** `finishCall` yields a call of the callee it is given. */
  lemma FinishCallIsCall(ts: seq<Token>, st: PState, callee: Expr)
    requires ValidCursor(ts, st.pos)
    ensures var p := FinishCall(ts, st, callee);
      p.result.Ok? ==> p.result.value.Call? && p.result.value.callee == callee
  {
  }

  // ---------------------------------------------------------------------------------------------
  // Assignment

  /**
   * `assignment` after `=`: the value is a whole assignment expression. A variable target becomes
   * an assignment and a property access a property set, both ending where the value ends; any
   * other target is returned as it is and reported at the `=`, without throwing. An error in the
   * value is passed on.
   */
  lemma AssignToRewrites(ts: seq<Token>, st: PState, target: Expr)
    requires ValidCursor(ts, st.pos) && st.pos > 0
    ensures var p := AssignTo(ts, st, target); var v := ParserSpec.Assignment(ts, st);
      && (v.result.Err? ==> p.result.Err? && p.st == v.st)
      && (v.result.Ok? && target.Variable? ==> p.result == Ok(Assign(target.name, v.result.value)) && p.st == v.st)
      && (v.result.Ok? && target.Get? ==> p.result == Ok(Expr.Set(target.obj, target.name, v.result.value)) && p.st == v.st)
      && (v.result.Ok? && !target.Variable? && !target.Get? ==>
            && p.result == Ok(target) && p.st.pos == v.st.pos && p.st.hadError
            && p.st.reports == v.st.reports + [TokenError(ts[st.pos - 1], "Invalid assignment target.")])
  {
  }

  /** A token that ends an operand at every level: no binary or logical operator, and neither `(` nor `.`. */
  predicate EndsOperand(kind: TokenType) {
    OperatorPrec(kind) == 6 && kind != LeftParen && kind != Dot
  }

  /** An identifier alone, before a token that ends an operand, is a variable at every level. */
  lemma {:induction false} IdentifierAtLevel(ts: seq<Token>, st: PState, l: Level)
    requires ValidCursor(ts, st.pos) && st.pos + 1 < |ts|
    requires ts[st.pos].kind == Identifier && EndsOperand(ts[st.pos + 1].kind)
    ensures ValidCursor(ts, st.pos + 1)
    ensures var p := LeftAssoc(ts, st, l);
      p.result == Ok(Variable(ts[st.pos])) && p.st == st.(pos := st.pos + 1)
    decreases 5 - Prec(l)
  {
    var next := st.(pos := st.pos + 1);
    if l == FactorLevel {
      IdentifierIsUnary(ts, st);
    } else {
      IdentifierAtLevel(ts, st, Next(l));
    }
    assert !Matches(ts, next.pos, Operators(l));
  }

  /** An identifier alone, before a token that ends an operand, is a variable as a unary expression. */
  lemma IdentifierIsUnary(ts: seq<Token>, st: PState)
    requires ValidCursor(ts, st.pos) && st.pos + 1 < |ts|
    requires ts[st.pos].kind == Identifier && EndsOperand(ts[st.pos + 1].kind)
    ensures ValidCursor(ts, st.pos + 1)
    ensures var p := ParserSpec.Unary(ts, st);
      p.result == Ok(Variable(ts[st.pos])) && p.st == st.(pos := st.pos + 1)
  {
    IdentifierIsCall(ts, st);
  }

  /** An identifier alone, before a token that ends an operand, is a variable as a call expression. */
  lemma IdentifierIsCall(ts: seq<Token>, st: PState)
    requires ValidCursor(ts, st.pos) && st.pos + 1 < |ts|
    requires ts[st.pos].kind == Identifier && EndsOperand(ts[st.pos + 1].kind)
    ensures ValidCursor(ts, st.pos + 1)
    ensures var p := ParserSpec.Call(ts, st);
      p.result == Ok(Variable(ts[st.pos])) && p.st == st.(pos := st.pos + 1)
  {
    var callee := Primary(ts, st);
    assert callee.result == Ok(Variable(ts[st.pos])) && callee.st == st.(pos := st.pos + 1);
  }

  /**
   * `name = value` is an assignment of `name` whose value is itself parsed as an assignment, from
   * just after the `=`: assignment nests to the right.
   */
  lemma AssignmentOfVariable(ts: seq<Token>, st: PState)
    requires ValidCursor(ts, st.pos) && st.pos + 2 < |ts|
    requires ts[st.pos].kind == Identifier && ts[st.pos + 1].kind == Equal
    ensures ValidCursor(ts, st.pos + 2)
    ensures var p := ParserSpec.Assignment(ts, st); var v := ParserSpec.Assignment(ts, st.(pos := st.pos + 2));
      && (v.result.Ok? ==> p.result == Ok(Assign(ts[st.pos], v.result.value)))
      && p.result.Ok? == v.result.Ok? && p.st == v.st
  {
    IdentifierAtLevel(ts, st, OrLevel);
    var after := st.(pos := st.pos + 1);
    assert Advance(ts, after) == st.(pos := st.pos + 2);
    AssignToRewrites(ts, st.(pos := st.pos + 2), Variable(ts[st.pos]));
  }

  /** An identifier alone, before a token that ends an operand and is not `=`, is a variable as an assignment. */
  lemma VariableIsAssignment(ts: seq<Token>, st: PState)
    requires ValidCursor(ts, st.pos) && st.pos + 1 < |ts|
    requires ts[st.pos].kind == Identifier && EndsOperand(ts[st.pos + 1].kind) && ts[st.pos + 1].kind != Equal
    ensures ValidCursor(ts, st.pos + 1)
    ensures var p := ParserSpec.Assignment(ts, st);
      p.result == Ok(Variable(ts[st.pos])) && p.st == st.(pos := st.pos + 1)
  {
    IdentifierAtLevel(ts, st, OrLevel);
  }

  /** `a = b = c` is `a = (b = c)`. */
  lemma ChainedAssignmentNestsRight(ts: seq<Token>, st: PState)
    requires ValidCursor(ts, st.pos) && st.pos + 5 < |ts|
    requires ts[st.pos].kind == Identifier && ts[st.pos + 1].kind == Equal
    requires ts[st.pos + 2].kind == Identifier && ts[st.pos + 3].kind == Equal
    requires ts[st.pos + 4].kind == Identifier
    requires EndsOperand(ts[st.pos + 5].kind) && ts[st.pos + 5].kind != Equal
    ensures var p := ParserSpec.Assignment(ts, st);
      && p.result == Ok(Assign(ts[st.pos], Assign(ts[st.pos + 2], Variable(ts[st.pos + 4]))))
      && p.st == st.(pos := st.pos + 5)
  {
    AssignmentOfVariable(ts, st);
    var second := st.(pos := st.pos + 2);
    AssignmentOfVariable(ts, second);
    var third := second.(pos := second.pos + 2);
    VariableIsAssignment(ts, third);
  }

  /** `check(kind)` holds exactly when the kind is not EOF and the next token has it: never at the end. */
  lemma CheckFalseAtEnd(ts: seq<Token>, pos: nat, kind: TokenType)
    requires ValidCursor(ts, pos)
    ensures Check(ts, pos, kind) <==> kind != Eof && ts[pos].kind == kind
  {
  }

  /** A primary expression is a literal, `this`, a variable or a grouping. */
  lemma PrimaryIsAtom(ts: seq<Token>, st: PState)
    requires ValidCursor(ts, st.pos)
    ensures var p := Primary(ts, st);
      p.result.Ok? ==> p.result.value.Literal? || p.result.value.This? || p.result.value.Variable? || p.result.value.Grouping?
  {
    if Matches(ts, st.pos, [LeftParen]) {
      var inner := ParserSpec.Expression(ts, Advance(ts, st));
      if inner.result.Ok? {
        var paren := Consume(ts, inner.st, RightParen, "Expect ')' after expression.");
      }
    }
  }

  /** A unary expression has no binary or logical operator at the top: it binds tightest. */
  lemma UnaryBindsTightest(ts: seq<Token>, st: PState)
    requires ValidCursor(ts, st.pos)
    ensures var p := ParserSpec.Unary(ts, st); p.result.Ok? ==> TopPrec(p.result.value) == 6
  {
    if !Matches(ts, st.pos, [Bang, Minus]) {
      var callee := Primary(ts, st);
      if callee.result.Ok? {
        PrimaryIsAtom(ts, st);
        CallLoopWraps(ts, callee.st, callee.result.value);
      }
    }
  }

  /** The operand of a level binds tighter than the level. */
  lemma {:induction false} OperandBindsTighter(ts: seq<Token>, st: PState, l: Level)
    requires ValidCursor(ts, st.pos)
    ensures var p := Operand(ts, st, l); p.result.Ok? ==> TopPrec(p.result.value) > Prec(l)
    decreases 6 - Prec(l), 0
  {
    if l == FactorLevel {
      UnaryBindsTightest(ts, st);
    } else {
      var p := LeftAssoc(ts, st, Next(l));
      if p.result.Ok? {
        LeftAssocNested(ts, st, Next(l));
        NestedBindsAtLeast(Next(l), p.result.value);
      }
    }
  }

  /**
   * Precedence and left associativity: every expression `leftAssocExpr` builds at a level is a
   * well-formed expression of that level.
   */
  lemma {:induction false} LeftAssocNested(ts: seq<Token>, st: PState, l: Level)
    requires ValidCursor(ts, st.pos)
    ensures var p := LeftAssoc(ts, st, l); p.result.Ok? ==> LeftNested(l, p.result.value)
    decreases 6 - Prec(l), 2
  {
    var first := Operand(ts, st, l);
    if first.result.Ok? {
      OperandBindsTighter(ts, st, l);
      TighterIsNested(l, first.result.value);
      OperatorLoopNested(ts, first.st, l, first.result.value);
    }
  }

  /** One turn of the operator loop: with an operator next, the loop goes on after its operand. */
  lemma LeftAssocLoopStep(ts: seq<Token>, st: PState, l: Level, acc: Expr)
    requires ValidCursor(ts, st.pos) && Matches(ts, st.pos, Operators(l))
    ensures var right := Operand(ts, Advance(ts, st), l);
      right.result.Ok? ==> LeftAssocLoop(ts, st, l, acc) == LeftAssocLoop(ts, right.st, l, Build(l, acc, ts[st.pos], right.result.value))
  {
  }

  /** The operator loop keeps a well-formed expression of its level well formed. */
  lemma {:induction false} OperatorLoopNested(ts: seq<Token>, st: PState, l: Level, acc: Expr)
    requires ValidCursor(ts, st.pos) && LeftNested(l, acc)
    ensures var p := LeftAssocLoop(ts, st, l, acc); p.result.Ok? ==> LeftNested(l, p.result.value)
    decreases 6 - Prec(l), 1, |ts| - st.pos
  {
    if Matches(ts, st.pos, Operators(l)) {
      var op := ts[st.pos];
      var right := Operand(ts, Advance(ts, st), l);
      if right.result.Ok? {
        OperandBindsTighter(ts, Advance(ts, st), l);
        var built := Build(l, acc, op, right.result.value);
        assert LeftNested(l, built);
        OperatorLoopNested(ts, right.st, l, built);
        LeftAssocLoopStep(ts, st, l, acc);
      }
    }
  }

  // ---------------------------------------------------------------------------------------------
  // Error recovery

  /** The number of declarations that were dropped after a ParseError. */
  function Dropped(ds: seq<Option<Stmt>>): (n: nat)
    ensures n <= |ds|
    ensures n == 0 <==> forall i :: 0 <= i < |ds| ==> ds[i].Some?
  {
    if ds == [] then 0 else Dropped(ds[..|ds| - 1]) + (if ds[|ds| - 1].None? then 1 else 0)
  }

  /**
   * The loop of `parse` reports at least once for every declaration it drops, and every
   * declaration it keeps or drops consumed at least one token.
   */
  lemma {:induction false} ParseLoopAccounts(ts: seq<Token>, st: PState, acc: seq<Option<Stmt>>)
    requires ValidCursor(ts, st.pos)
    ensures var d := ParseLoop(ts, st, acc);
      && acc <= d.value
      && Dropped(d.value) - Dropped(acc) <= |d.st.reports| - |st.reports|
      && |d.value| - |acc| <= d.st.pos - st.pos
    decreases |ts| - st.pos
  {
    if !AtEnd(ts, st.pos) {
      var d := Declaration(ts, st);
      var next := acc + [d.result.value];
      assert next[..|next| - 1] == acc;
      ParseLoopAccounts(ts, d.st, next);
    }
  }

  /**
   * `parse` returns one entry per declaration and a report for each one it dropped; without a new
   * report, no declaration was dropped.
   */
  lemma ParseAccounts(ts: seq<Token>, st: PState)
    requires ValidCursor(ts, st.pos)
    ensures var d := Parse(ts, st);
      && Dropped(d.value) <= |d.st.reports| - |st.reports|
      && |d.value| <= d.st.pos - st.pos
      && (d.st.reports == st.reports ==> forall i :: 0 <= i < |d.value| ==> d.value[i].Some?)
  {
    ParseLoopAccounts(ts, st, []);
  }

  /** Where `synchronize` may stop: at the end, after a `;`, or before a declaration or statement keyword. */
  predicate SyncPoint(ts: seq<Token>, pos: nat)
    requires ValidCursor(ts, pos) && pos > 0
  {
    AtEnd(ts, pos) || ts[pos - 1].kind == Semicolon || ts[pos].kind in SyncKinds
  }

  /** The loop of `synchronize` stops at the first SyncPoint from where it starts. */
  lemma {:induction false} SyncLoopStopsFirst(ts: seq<Token>, st: PState)
    requires ValidCursor(ts, st.pos) && st.pos > 0
    ensures var s := SyncLoop(ts, st);
      && SyncPoint(ts, s.pos)
      && forall p :: st.pos <= p < s.pos ==> ValidCursor(ts, p) && !SyncPoint(ts, p)
    decreases |ts| - st.pos
  {
    if !SyncPoint(ts, st.pos) {
      SyncLoopStopsFirst(ts, Advance(ts, st));
    }
  }

  /**
   * `synchronize` after a ParseError at a token before the end: it skips that token and stops at
   * the first SyncPoint after it, with the reports unchanged.
   */
  lemma SynchronizeStopsFirst(ts: seq<Token>, st: PState)
    requires ValidCursor(ts, st.pos) && !AtEnd(ts, st.pos)
    ensures var s := Synchronize(ts, st);
      && st.pos < s.pos && SyncPoint(ts, s.pos) && s.reports == st.reports
      && forall p :: st.pos < p < s.pos ==> ValidCursor(ts, p) && !SyncPoint(ts, p)
  {
    SyncLoopStopsFirst(ts, Advance(ts, st));
  }

  // ---------------------------------------------------------------------------------------------
  // The `for` statement

  /** The shapes a desugared `for` loop takes: a `while`, or a block of an initializer and a `while`. */
  ghost predicate DesugaredFor(s: Stmt) {
    || s.While?
    || (s.Block? && |s.statements| == 2 && s.statements[0].Some? && s.statements[1].Some?
        && s.statements[1].value.While?)
  }

  /** `forStatement` never yields anything but a desugared loop: Lox has no `for` node. */
  lemma ForStatementDesugars(ts: seq<Token>, st: PState)
    requires ValidCursor(ts, st.pos)
    ensures var p := ForStatement(ts, st); p.result.Ok? ==> DesugaredFor(p.result.value)
  {
    var lp := Consume(ts, st, LeftParen, "Expect '(' after 'for'.");
    if lp.result.Ok? {
      var init := ForInitializer(ts, lp.st);
      if init.result.Ok? {
        ForConditionDesugars(ts, init.st, init.result.value);
      }
    }
  }

  /** The condition clause leads to a desugared loop that keeps the initializer in front. */
  lemma ForConditionDesugars(ts: seq<Token>, st: PState, initializer: Option<Stmt>)
    requires ValidCursor(ts, st.pos)
    ensures var p := ForCondition(ts, st, initializer);
      p.result.Ok? ==> DesugaredFor(p.result.value) && (initializer.None? <==> p.result.value.While?)
  {
    var condition := ConditionClause(ts, st);
    if condition.result.Ok? {
      var semicolon := Consume(ts, condition.st, Semicolon, "Expect ';' after loop condition.");
      if semicolon.result.Ok? {
        ForIncrementDesugars(ts, semicolon.st, initializer, condition.result.value);
      }
    }
  }

  /** The increment clause and the body make a desugared loop around whatever condition came before. */
  lemma ForIncrementDesugars(ts: seq<Token>, st: PState, initializer: Option<Stmt>, condition: Expr)
    requires ValidCursor(ts, st.pos)
    ensures var p := ForIncrement(ts, st, initializer, condition);
      p.result.Ok? ==> DesugaredFor(p.result.value) && (initializer.None? <==> p.result.value.While?)
  {
  }

  /**
   * `for (;;) body` is `while (true) body`: with every clause empty, the loop is the body under the
   * literal `true`, and nothing is reported beyond what the body reports.
   */
  lemma ForWithoutClauses(ts: seq<Token>, st: PState)
    requires ValidCursor(ts, st.pos) && st.pos + 3 < |ts|
    requires ts[st.pos].kind == LeftParen && ts[st.pos + 1].kind == Semicolon
    requires ts[st.pos + 2].kind == Semicolon && ts[st.pos + 3].kind == RightParen
    ensures ValidCursor(ts, st.pos + 4)
    ensures var p := ForStatement(ts, st);
      var body := Statement(ts, st.(pos := st.pos + 4));
      && p.st == body.st && (p.result.Ok? <==> body.result.Ok?)
      && (p.result.Ok? ==> p.result.value == Stmt.While(Expr.Literal(BoolValue(true)), body.result.value))
  {
    EmptyInitializer(ts, st);
    var afterInit := st.(pos := st.pos + 2);
    EmptyCondition(ts, afterInit);
    assert afterInit.(pos := afterInit.pos + 1) == st.(pos := st.pos + 3);
    EmptyIncrement(ts, st.(pos := st.pos + 3), Expr.Literal(BoolValue(true)));
  }

  /** A `for` initializer clause that is just `;` adds nothing: the condition clause follows it. */
  lemma EmptyInitializer(ts: seq<Token>, st: PState)
    requires ValidCursor(ts, st.pos) && st.pos + 2 < |ts|
    requires ts[st.pos].kind == LeftParen && ts[st.pos + 1].kind == Semicolon
    ensures ValidCursor(ts, st.pos + 2)
    ensures ForStatement(ts, st) == ForCondition(ts, st.(pos := st.pos + 2), None)
  {
    assert ts[|ts| - 1].kind == Eof;
    var lp := Consume(ts, st, LeftParen, "Expect '(' after 'for'.");
    assert lp.st == st.(pos := st.pos + 1);
    var init := ForInitializer(ts, lp.st);
    assert init.result == Ok(None) && init.st == st.(pos := st.pos + 2);
  }

  /** A `for` condition clause that is just `;` is the literal `true`. */
  lemma EmptyCondition(ts: seq<Token>, st: PState)
    requires ValidCursor(ts, st.pos) && st.pos + 1 < |ts| && ts[st.pos].kind == Semicolon
    ensures ForCondition(ts, st, None) == ForIncrement(ts, st.(pos := st.pos + 1), None, Expr.Literal(BoolValue(true)))
  {
    var semicolon := Consume(ts, st, Semicolon, "Expect ';' after loop condition.");
    assert semicolon.st == st.(pos := st.pos + 1);
  }

  /** A `for` increment clause that is just `)` adds nothing: the loop is a `while` around the body. */
  lemma EmptyIncrement(ts: seq<Token>, st: PState, condition: Expr)
    requires ValidCursor(ts, st.pos) && st.pos + 1 < |ts| && ts[st.pos].kind == RightParen
    ensures ValidCursor(ts, st.pos + 1)
    ensures var p := ForIncrement(ts, st, None, condition);
      var body := Statement(ts, st.(pos := st.pos + 1));
      && p.st == body.st && (p.result.Ok? <==> body.result.Ok?)
      && (p.result.Ok? ==> p.result.value == Stmt.While(condition, body.result.value))
  {
    assert ts[|ts| - 1].kind == Eof;
    var rp := Consume(ts, st, RightParen, "Expect ')' after for clauses.");
    assert rp.st == st.(pos := st.pos + 1);
  }

  // ---------------------------------------------------------------------------------------------
  // The limits of 255 parameters and arguments

  /**
   * The limit of 255 parameters only reports: where the parameter list ends, whether it parses,
   * and which parameters it has do not depend on how many came before or on what was reported.
   */
  lemma {:induction false} ParametersIgnoreLimit(ts: seq<Token>, st1: PState, acc1: seq<Token>, st2: PState, acc2: seq<Token>)
    requires ValidCursor(ts, st1.pos) && st1.pos == st2.pos
    ensures var p1 := Parameters(ts, st1, acc1); var p2 := Parameters(ts, st2, acc2);
      && p1.result.Ok? == p2.result.Ok? && p1.st.pos == p2.st.pos
      && (p1.result.Ok? ==> p1.result.value[|acc1|..] == p2.result.value[|acc2|..])
    decreases |ts| - st1.pos
  {
    var x1 := ParametersStep(ts, st1, acc1);
    var x2 := ParametersStep(ts, st2, acc2);
    if x1.result.Ok? && Matches(ts, x1.st.pos, [Comma]) {
      var t := x1.result.value;
      assert x2.result.Ok? && x2.result.value == t && x2.st.pos == x1.st.pos;
      var next1 := Advance(ts, x1.st);
      var next2 := Advance(ts, x2.st);
      ParametersIgnoreLimit(ts, next1, acc1 + [t], next2, acc2 + [t]);
      var r1 := Parameters(ts, next1, acc1 + [t]);
      var r2 := Parameters(ts, next2, acc2 + [t]);
      assert Parameters(ts, st1, acc1) == r1 && Parameters(ts, st2, acc2) == r2;
      if r1.result.Ok? {
        SuffixAfterOne(r1.result.value, acc1, t);
        SuffixAfterOne(r2.result.value, acc2, t);
      }
    }
  }

  /**
   * One turn of the parameter loop: the parameter it consumes (after the report of the limit, when
   * `acc` is full), and what the rest of the loop then is.
   */
  lemma ParametersStep(ts: seq<Token>, st: PState, acc: seq<Token>) returns (x: Parsed<Token>)
    requires ValidCursor(ts, st.pos)
    ensures x.result.Ok? <==> Check(ts, st.pos, Identifier)
    ensures x.result.Ok? ==> x.result.value == ts[st.pos] && x.st.pos == st.pos + 1
    ensures x.result.Err? ==> Parameters(ts, st, acc).result.Err? && Parameters(ts, st, acc).st.pos == st.pos
    ensures x.result.Ok? && Matches(ts, x.st.pos, [Comma]) ==>
      Parameters(ts, st, acc) == Parameters(ts, Advance(ts, x.st), acc + [x.result.value])
    ensures x.result.Ok? && !Matches(ts, x.st.pos, [Comma]) ==>
      Parameters(ts, st, acc) == Parsed(Ok(acc + [x.result.value]), x.st)
  {
    var checked := if |acc| >= 255 then Report(st, ts[st.pos], "Can't have more than 255 parameters.") else st;
    x := Consume(ts, checked, Identifier, "Expect parameter name.");
  }

  /** Splitting off one more element after a prefix. */
  lemma SuffixAfterOne<T>(s: seq<T>, acc: seq<T>, t: T)
    requires acc + [t] < s
    ensures s[|acc|..] == [t] + s[|acc| + 1..]
  {
    assert s[|acc|] == (acc + [t])[|acc|];
  }

  /** A parameter list longer than 255 is reported with the message of the limit, and still parses. */
  lemma {:induction false} ParametersOverLimitReported(ts: seq<Token>, st: PState, acc: seq<Token>)
    requires ValidCursor(ts, st.pos) && |acc| <= 255
    ensures var p := Parameters(ts, st, acc);
      p.result.Ok? && |p.result.value| > 255 ==>
        exists k :: |st.reports| <= k < |p.st.reports| && p.st.reports[k].message == "Can't have more than 255 parameters."
    decreases |ts| - st.pos
  {
    var p := Parameters(ts, st, acc);
    var checked := if |acc| >= 255 then Report(st, ts[st.pos], "Can't have more than 255 parameters.") else st;
    var x := Consume(ts, checked, Identifier, "Expect parameter name.");
    if x.result.Ok? {
      if |acc| == 255 {
        assert checked.reports[|st.reports|].message == "Can't have more than 255 parameters.";
        assert checked.reports <= p.st.reports;
        assert p.st.reports[|st.reports|] == checked.reports[|st.reports|];
      } else if Matches(ts, x.st.pos, [Comma]) {
        ParametersOverLimitReported(ts, Advance(ts, x.st), acc + [x.result.value]);
      }
    }
  }

  /** An argument list longer than 255 is reported with the message of the limit, and still parses. */
  lemma {:induction false} ArgumentsOverLimitReported(ts: seq<Token>, st: PState, acc: seq<Expr>)
    requires ValidCursor(ts, st.pos) && |acc| <= 255
    ensures var p := Arguments(ts, st, acc);
      p.result.Ok? && |p.result.value| > 255 ==>
        exists k :: |st.reports| <= k < |p.st.reports| && p.st.reports[k].message == "Can't have more than 255 arguments."
    decreases |ts| - st.pos
  {
    var p := Arguments(ts, st, acc);
    var checked := if |acc| >= 255 then Report(st, ts[st.pos], "Can't have more than 255 arguments.") else st;
    var x := ParserSpec.Expression(ts, checked);
    if x.result.Ok? {
      if |acc| == 255 {
        assert checked.reports[|st.reports|].message == "Can't have more than 255 arguments.";
        assert checked.reports <= p.st.reports;
        assert p.st.reports[|st.reports|] == checked.reports[|st.reports|];
      } else if Matches(ts, x.st.pos, [Comma]) {
        ArgumentsOverLimitReported(ts, Advance(ts, x.st), acc + [x.result.value]);
      }
    }
  }
}
