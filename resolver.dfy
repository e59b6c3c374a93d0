/**
 * The resolver of the Kotlin interpreter (Resolver.kt), as the class it is: a stack of scopes it
 * pushes, pops and updates in place, the error reporter it reports through, and the calls it makes
 * to `interpreter.resolve`, kept as the list `resolutions`.
 *
 * Every method is proved to change the state exactly as the function of the same name in
 * ResolverSpec describes.
 */
module Resolving {
  import opened Wrappers
  import opened TokenTypes
  import opened Errors
  import opened Ast
  import opened ResolverSpec

  class Resolver {
    /** The scopes, innermost last; each maps a name to whether its declaration is complete. */
    var scopes: seq<map<string, bool>>
    /** Every `interpreter.resolve(expr, depth)` call made so far, in order. */
    var resolutions: seq<Resolution>
    const errorReporter: ErrorReporter

    constructor (errorReporter: ErrorReporter)
      ensures scopes == [] && resolutions == [] && this.errorReporter == errorReporter
    {
      scopes := [];
      resolutions := [];
      this.errorReporter := errorReporter;
    }

    /** The scopes, the resolutions and what the error reporter has received. */
    ghost function State(): RState
      reads this, errorReporter
    {
      RState(scopes, resolutions, errorReporter.reports, errorReporter.hadError)
    }

    /** `visitBlockStmt`: the block's statements in a scope of their own. */
    method VisitBlockStmt(stmt: Stmt)
      requires stmt.Block? && ResolvableStmt(stmt)
      modifies this, errorReporter
      ensures State() == ResolverSpec.ResolveStmt(old(State()), stmt)
      decreases stmt, 1
    {
      BeginScope();
      ResolveStatements(stmt, stmt.statements);
      EndScope();
    }

    /** `visitVarStmt`: declare, resolve the initializer, define. */
    method VisitVarStmt(stmt: Stmt)
      requires stmt.Var? && ResolvableStmt(stmt)
      modifies this, errorReporter
      ensures State() == ResolverSpec.ResolveStmt(old(State()), stmt)
    {
      Declare(stmt.name);
      if stmt.initializer.Some? {
        ResolveExpr(stmt.initializer.value);
      }
      Define(stmt.name);
    }

    /** `visitVariableExpr`: report a read of a variable in its own initializer, then resolve it. */
    method VisitVariableExpr(expr: Expr)
      requires expr.Variable?
      modifies this, errorReporter
      ensures State() == ResolverSpec.ResolveExpr(old(State()), expr)
    {
      if |scopes| > 0 && expr.name.lexeme in scopes[|scopes| - 1] && scopes[|scopes| - 1][expr.name.lexeme] == false {
        errorReporter.ErrorAtToken(expr.name, SelfReadMessage);
      }
      ResolveLocal(expr, expr.name);
    }

    /** `visitAssignExpr`: the value first, then the assigned variable. */
    method VisitAssignExpr(expr: Expr)
      requires expr.Assign? && ResolvableExpr(expr)
      modifies this, errorReporter
      ensures State() == ResolverSpec.ResolveExpr(old(State()), expr)
      decreases expr, 0
    {
      ResolveExpr(expr.value);
      ResolveLocal(expr, expr.name);
    }

    /** `beginScope`: push an empty scope. */
    method BeginScope()
      modifies this
      ensures State() == ResolverSpec.BeginScope(old(State()))
    {
      scopes := scopes + [map[]];
    }

    /** `endScope`: pop the innermost scope; the stack must not be empty. */
    method EndScope()
      requires |scopes| > 0
      modifies this
      ensures State() == ResolverSpec.EndScope(old(State()))
    {
      scopes := scopes[..|scopes| - 1];
    }

    /** `resolve(statements)`: every statement that is not `null`, in order. */
    method ResolveStatements(ghost parent: Stmt, statements: seq<Option<Stmt>>)
      requires forall i :: 0 <= i < |statements| && statements[i].Some? ==>
        statements[i].value < parent && ResolvableStmt(statements[i].value)
      modifies this, errorReporter
      ensures State() == ResolverSpec.ResolveStatements(old(State()), parent, statements)
      decreases parent, 0
    {
      for i := 0 to |statements|
        invariant ResolverSpec.ResolveStatements(State(), parent, statements[i..])
          == ResolverSpec.ResolveStatements(old(State()), parent, statements)
      {
        assert statements[i..][0] == statements[i] && statements[i..][1..] == statements[i + 1..];
        if statements[i].Some? {
          ResolveStmt(statements[i].value);
        }
      }
    }

    /** `resolve(stmt)`: dispatch to the statement's visitor. */
    method ResolveStmt(stmt: Stmt)
      requires ResolvableStmt(stmt)
      modifies this, errorReporter
      ensures State() == ResolverSpec.ResolveStmt(old(State()), stmt)
      decreases stmt, 2
    {
      match stmt
      case Block(_) => VisitBlockStmt(stmt);
      case Var(_, _) => VisitVarStmt(stmt);
    }

    /** `resolve(expr)`: dispatch to the expression's visitor. */
    method ResolveExpr(expr: Expr)
      requires ResolvableExpr(expr)
      modifies this, errorReporter
      ensures State() == ResolverSpec.ResolveExpr(old(State()), expr)
      decreases expr, 1
    {
      match expr
      case Variable(_) => VisitVariableExpr(expr);
      case Assign(_, _) => VisitAssignExpr(expr);
    }

    /** `declare`: the name is "not ready" in the innermost scope, if there is one. */
    method Declare(name: Token)
      modifies this
      ensures State() == ResolverSpec.Declare(old(State()), name)
    {
      if |scopes| == 0 {
        return;
      }
      scopes := scopes[..|scopes| - 1] + [scopes[|scopes| - 1][name.lexeme := false]];
    }

    /** `define`: the name is "ready" in the innermost scope, if there is one. */
    method Define(name: Token)
      modifies this
      ensures State() == ResolverSpec.Define(old(State()), name)
    {
      if |scopes| == 0 {
        return;
      }
      scopes := scopes[..|scopes| - 1] + [scopes[|scopes| - 1][name.lexeme := true]];
    }

    /** `resolveLocal`: from the innermost scope outwards, one resolution for each scope holding the name. */
    method ResolveLocal(expr: Expr, name: Token)
      modifies this
      ensures State() == ResolverSpec.ResolveLocal(old(State()), expr, name)
    {
      var i := |scopes|;
      while i > 0
        invariant 0 <= i <= |scopes| && scopes == old(scopes)
        invariant resolutions == old(resolutions) + Records(expr, DistancesFrom(scopes, name.lexeme, i))
      {
        i := i - 1;
        ghost var found := DistancesFrom(scopes, name.lexeme, i + 1);
        if name.lexeme in scopes[i] {
          var d := |scopes| - 1 - i;
          assert (found + [d])[..|found|] == found;
          resolutions := resolutions + [Resolution(expr, d)];
        }
      }
      assert State() == old(State()).(resolutions := old(resolutions) + Records(expr, Distances(scopes, name.lexeme)));
    }
  }
}
