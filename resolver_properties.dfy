/**
 * What the resolver promises, proved about the functions of ResolverSpec: where `resolveLocal`
 * records a name, what a `var` statement does to the innermost scope, that nothing is recorded or
 * reported at the top level, and that the only error it reports is a read of a variable in its
 * own initializer.
 */
module ResolverProperties {
  import opened Wrappers
  import opened TokenTypes
  import opened Errors
  import opened Ast
  import opened ResolverSpec

  /**
   * `resolveLocal` appends resolutions of the expression only: one at distance `d` exactly when
   * the scope `d` levels out from the innermost holds the name, innermost first, and none when no
   * scope holds it.
   */
  lemma ResolveLocalRecords(st: RState, e: Expr, name: Token)
    ensures var added := ResolveLocal(st, e, name).resolutions[|st.resolutions|..];
      forall k :: 0 <= k < |added| ==> added[k].expr == e
    ensures var added := ResolveLocal(st, e, name).resolutions[|st.resolutions|..];
      forall d :: Resolution(e, d) in added <==> 0 <= d < |st.scopes| && name.lexeme in st.scopes[|st.scopes| - 1 - d]
    ensures var added := ResolveLocal(st, e, name).resolutions[|st.resolutions|..];
      forall k, m :: 0 <= k < m < |added| ==> added[k].depth < added[m].depth
    ensures var added := ResolveLocal(st, e, name).resolutions[|st.resolutions|..];
      added == [] <==> forall j :: 0 <= j < |st.scopes| ==> name.lexeme !in st.scopes[j]
  {
    var ds := Distances(st.scopes, name.lexeme);
    DistancesExact(st.scopes, name.lexeme);
    RecordsOf(e, ds);
    var added := ResolveLocal(st, e, name).resolutions[|st.resolutions|..];
    assert added == Records(e, ds);
  }

  /** The resolutions of an expression at some distances hold those distances, and nothing else. */
  lemma RecordsOf(e: Expr, ds: seq<int>)
    ensures forall d :: Resolution(e, d) in Records(e, ds) <==> d in ds
    ensures forall k :: 0 <= k < |ds| ==> Records(e, ds)[k].depth == ds[k]
  {
    var rs := Records(e, ds);
    forall d ensures Resolution(e, d) in rs <==> d in ds {
      if Resolution(e, d) in rs {
        var k :| 0 <= k < |rs| && rs[k] == Resolution(e, d);
        assert ds[k] == d;
      }
      if d in ds {
        var k :| 0 <= k < |ds| && ds[k] == d;
        assert rs[k] == Resolution(e, d);
      }
    }
  }

  /** If the innermost scope holds the name, the first resolution `resolveLocal` records is at distance 0. */
  lemma InnermostFirst(st: RState, e: Expr, name: Token)
    requires |st.scopes| > 0 && name.lexeme in st.scopes[|st.scopes| - 1]
    ensures var r := ResolveLocal(st, e, name);
      |r.resolutions| > |st.resolutions| && r.resolutions[|st.resolutions|] == Resolution(e, 0)
  {
    var ds := Distances(st.scopes, name.lexeme);
    DistancesExact(st.scopes, name.lexeme);
    assert 0 in ds;
    assert ds[0] == 0 by {
      var k :| 0 <= k < |ds| && ds[k] == 0;
      if k > 0 {
        assert ds[0] < ds[k];
        assert ds[0] in ds;
      }
    }
  }

  /** `resolve(expr)` records resolutions only of the expression and of expressions inside it. */
  lemma {:induction false} ResolvesWithin(st: RState, e: Expr)
    requires ResolvableExpr(e)
    ensures var r := ResolveExpr(st, e);
      forall k :: |st.resolutions| <= k < |r.resolutions| ==> r.resolutions[k].expr == e || r.resolutions[k].expr < e
    decreases e
  {
    match e
    case Variable(name) =>
    case Assign(name, value) =>
      ResolvesWithin(st, value);
      assert var v := ResolveExpr(st, value);
        forall k :: |st.resolutions| <= k < |v.resolutions| ==> v.resolutions[k].expr == value || v.resolutions[k].expr < value;
      var v := ResolveExpr(st, value);
      var r := ResolveExpr(st, e);
      forall k | |st.resolutions| <= k < |r.resolutions|
        ensures r.resolutions[k].expr == e || r.resolutions[k].expr < e
      {
        var added := Records(e, Distances(st.scopes, name.lexeme));
        assert r.resolutions == v.resolutions + added;
        if k < |v.resolutions| {
          assert r.resolutions[k] == v.resolutions[k];
          assert value < e;
        } else {
          assert r.resolutions[k] == added[k - |v.resolutions|];
        }
      }
  }

  /**
   * `visitAssignExpr` resolves the value before the target: the resolutions it adds are the
   * value's, then one of the assignment itself per scope holding the name, and its reports are the
   * value's. None of the value's resolutions is of the assignment, so the two parts do not mix.
   */
  lemma AssignResolvesValueFirst(st: RState, name: Token, value: Expr)
    requires ResolvableExpr(value)
    ensures var r := ResolveExpr(st, Assign(name, value)); var v := ResolveExpr(st, value);
      && r.resolutions == v.resolutions + Records(Assign(name, value), Distances(st.scopes, name.lexeme))
      && r.reports == v.reports && r.hadError == v.hadError && r.scopes == st.scopes
    ensures var r := ResolveExpr(st, Assign(name, value)); var v := ResolveExpr(st, value);
      forall k :: |st.resolutions| <= k < |r.resolutions| ==>
        (r.resolutions[k].expr == Assign(name, value) <==> k >= |v.resolutions|)
  {
    ResolvesWithin(st, value);
  }

  /** At the top level an expression is neither checked nor recorded: the state does not change. */
  lemma {:induction false} TopLevelExprUnchanged(st: RState, e: Expr)
    requires st.scopes == [] && ResolvableExpr(e)
    ensures ResolveExpr(st, e) == st
    decreases e
  {
    match e
    case Variable(name) =>
      assert Distances(st.scopes, name.lexeme) == [];
    case Assign(name, value) =>
      TopLevelExprUnchanged(st, value);
      assert Distances(st.scopes, name.lexeme) == [];
  }

  /** A top-level `var` statement is a global: the resolver leaves no trace of it. */
  lemma TopLevelVarUnchanged(st: RState, name: Token, initializer: Option<Expr>)
    requires st.scopes == [] && (initializer.Some? ==> ResolvableExpr(initializer.value))
    ensures ResolveStmt(st, Stmt.Var(name, initializer)) == st
  {
    if initializer.Some? {
      TopLevelExprUnchanged(st, initializer.value);
    }
  }

  /**
   * In a scope, a `var` statement resolves its initializer while its name is "not ready" in the
   * innermost scope, and afterwards leaves it "ready" there, with every other binding as it was.
   */
  lemma VarDeclaresThenDefines(st: RState, name: Token, initializer: Option<Expr>)
    requires |st.scopes| > 0 && (initializer.Some? ==> ResolvableExpr(initializer.value))
    ensures InOwnInitializer(Declare(st, name).scopes, name.lexeme)
    ensures var r := ResolveStmt(st, Stmt.Var(name, initializer));
      && |r.scopes| == |st.scopes|
      && r.scopes[..|r.scopes| - 1] == st.scopes[..|st.scopes| - 1]
      && r.scopes[|r.scopes| - 1] == st.scopes[|st.scopes| - 1][name.lexeme := true]
      && !InOwnInitializer(r.scopes, name.lexeme)
  {
    var declared := Declare(st, name);
    var resolved := ResolveInitializer(declared, initializer);
    assert resolved.scopes == declared.scopes;
  }

  /**
   * `var a = a;` inside a scope reports the read of `a` in its own initializer, once, and still
   * resolves it, to the innermost scope.
   */
  lemma SelfInitializerReported(st: RState, name: Token, reference: Token)
    requires |st.scopes| > 0 && reference.lexeme == name.lexeme
    ensures var r := ResolveStmt(st, Stmt.Var(name, Some(Variable(reference))));
      && r.hadError
      && r.reports == st.reports + [TokenError(reference, SelfReadMessage)]
      && |r.resolutions| > |st.resolutions|
      && r.resolutions[|st.resolutions|] == Resolution(Variable(reference), 0)
  {
    var declared := Declare(st, name);
    assert declared.scopes == SetTop(st.scopes, name.lexeme, false);
    assert InOwnInitializer(declared.scopes, reference.lexeme);
    var checked := CheckOwnInitializer(declared, reference);
    assert checked.reports == st.reports + [TokenError(reference, SelfReadMessage)] && checked.hadError;
    var local := ResolveLocal(checked, Variable(reference), reference);
    InnermostFirst(checked, Variable(reference), reference);
    assert ResolveExpr(declared, Variable(reference)) == local;
    assert ResolveInitializer(declared, Some(Variable(reference))) == local;
    var r := Define(local, name);
    assert r.reports == local.reports && r.resolutions == local.resolutions && r.hadError == local.hadError;
  }

  /** Every report is the error about a read in an initializer, at a token location. */
  ghost predicate SelfReadReports(reports: seq<Diagnostic>) {
    forall k :: 0 <= k < |reports| ==> reports[k].message == SelfReadMessage && reports[k].where != ""
  }

  lemma {:induction false} ExprReportsSelfReadsOnly(st: RState, e: Expr)
    requires ResolvableExpr(e)
    ensures var r := ResolveExpr(st, e); SelfReadReports(r.reports[|st.reports|..])
    decreases e
  {
    match e
    case Variable(name) =>
      assert |Where(name)| > 0;
    case Assign(name, value) =>
      ExprReportsSelfReadsOnly(st, value);
  }

  /** The resolver reports nothing but reads of variables in their own initializers. */
  lemma {:induction false} StmtReportsSelfReadsOnly(st: RState, s: Stmt)
    requires ResolvableStmt(s)
    ensures var r := ResolveStmt(st, s); SelfReadReports(r.reports[|st.reports|..])
    decreases s, 1
  {
    match s
    case Block(statements) =>
      StatementsReportSelfReadsOnly(BeginScope(st), s, statements);
    case Var(name, initializer) =>
      if initializer.Some? {
        ExprReportsSelfReadsOnly(Declare(st, name), initializer.value);
      }
  }

  lemma {:induction false} StatementsReportSelfReadsOnly(st: RState, parent: Stmt, statements: seq<Option<Stmt>>)
    requires forall i :: 0 <= i < |statements| && statements[i].Some? ==>
      statements[i].value < parent && ResolvableStmt(statements[i].value)
    ensures var r := ResolveStatements(st, parent, statements); SelfReadReports(r.reports[|st.reports|..])
    decreases parent, 0, |statements|
  {
    if statements != [] {
      var next := if statements[0].Some? then ResolveStmt(st, statements[0].value) else st;
      if statements[0].Some? {
        StmtReportsSelfReadsOnly(st, statements[0].value);
      }
      StatementsReportSelfReadsOnly(next, parent, statements[1..]);
      var r := ResolveStatements(next, parent, statements[1..]);
      SelfReadReportsCompose(st.reports, next.reports, r.reports);
    }
  }

  /** Reports added in two steps, each only self-reads, are self-reads together. */
  lemma SelfReadReportsCompose(a: seq<Diagnostic>, b: seq<Diagnostic>, c: seq<Diagnostic>)
    requires a <= b <= c && SelfReadReports(b[|a|..]) && SelfReadReports(c[|b|..])
    ensures SelfReadReports(c[|a|..])
  {
    forall k | 0 <= k < |c| - |a|
      ensures c[|a|..][k].message == SelfReadMessage && c[|a|..][k].where != ""
    {
      if |a| + k < |b| {
        assert c[|a|..][k] == b[|a|..][k];
      } else {
        assert c[|a|..][k] == c[|b|..][|a| + k - |b|];
      }
    }
  }

  /** `null` statements, left by parse errors, are skipped: resolving them changes nothing. */
  lemma {:induction false} NullStatementsSkipped(st: RState, parent: Stmt, statements: seq<Option<Stmt>>)
    requires forall i :: 0 <= i < |statements| ==> statements[i].None?
    ensures ResolveStatements(st, parent, statements) == st
    decreases |statements|
  {
    if statements != [] {
      NullStatementsSkipped(st, parent, statements[1..]);
    }
  }
}
