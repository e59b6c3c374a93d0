/**
 * The Lisp-style printer of the Kotlin interpreter (AstPrinter.kt). Its visitors are pure and
 * recursive: here the function Print. `paranthesize` builds its text in a StringBuilder loop: here
 * the method Paranthesize, proved to compute the function Parenthesized that Print uses.
 *
 * The Kotlin visitors for assignments and variables are `TODO()`s, which throw; the model
 * returns `Err(NotImplemented)` for them. The printer has no visitors for the other expressions.
 */
module AstPrinter {
  import opened Wrappers
  import opened TokenTypes
  import opened Ast
  import opened Numbers

  /** The NotImplementedError `TODO()` throws. */
  datatype PrintError = NotImplemented

  /** The expressions the printer has visitors for. An assignment fails before its value is visited. */
  predicate Printable(e: Expr) {
    match e
    case Assign(_, _) => true
    case Variable(_) => true
    case Binary(left, _, right) => Printable(left) && Printable(right)
    case Grouping(inner) => Printable(inner)
    case Literal(_) => true
    case Unary(_, right) => Printable(right)
    case _ => false
  }

  /** `visitLiteralExpr`: `nil` for null, else the value's `toString` (for a double, the host's `Double.toString`). */
  function LiteralText(v: LiteralValue, ops: NumberOps): (s: string)
    ensures v.NilValue? ==> s == "nil"
    ensures v.BoolValue? ==> s == (if v.b then "true" else "false")
    ensures v.StringValue? ==> s == v.s
    ensures v.NumberValue? ==> s == ops.toText(ops.fromText(v.text))
  {
    match v
    case NilValue => "nil"
    case BoolValue(b) => if b then "true" else "false"
    case NumberValue(text) => ops.toText(ops.fromText(text))
    case StringValue(s) => s
  }

  /** `print`: the visitor of the expression's kind. */
  function Print(e: Expr, ops: NumberOps): Result<string, PrintError>
    requires Printable(e)
    decreases e, 1
  {
    match e
    case Assign(_, _) => Err(NotImplemented)
    case Variable(_) => Err(NotImplemented)
    case Binary(left, operator, right) => Parenthesized(operator.lexeme, [left, right], e, ops)
    case Grouping(inner) => Parenthesized("group", [inner], e, ops)
    case Literal(v) => Ok(LiteralText(v, ops))
    case Unary(operator, right) => Parenthesized(operator.lexeme, [right], e, ops)
  }

  /** The children's texts, each after one space; the first failure ends it. `parent` is the node they belong to. */
  function Children(exprs: seq<Expr>, parent: Expr, ops: NumberOps): Result<string, PrintError>
    requires forall i :: 0 <= i < |exprs| ==> exprs[i] < parent && Printable(exprs[i])
    decreases parent, 0, |exprs|
  {
    if exprs == [] then Ok("")
    else
      var first :- Print(exprs[0], ops);
      var rest :- Children(exprs[1..], parent, ops);
      Ok(" " + first + rest)
  }

  /** What `paranthesize(name, exprs)` returns: an open parenthesis, the name, the children, a close parenthesis. */
  function Parenthesized(name: string, exprs: seq<Expr>, parent: Expr, ops: NumberOps): (r: Result<string, PrintError>)
    requires forall i :: 0 <= i < |exprs| ==> exprs[i] < parent && Printable(exprs[i])
    ensures r.Ok? ==> (|r.value| >= |name| + 2 && r.value[0] == '(' && r.value[1..|name| + 1] == name
      && r.value[|r.value| - 1] == ')')
    decreases parent, 0, |exprs| + 1
  {
    var children :- Children(exprs, parent, ops);
    assert ("(" + name + children + ")")[1..|name| + 1] == name;
    Ok("(" + name + children + ")")
  }

  /** The rest of `paranthesize` once `builder` holds the text so far and `exprs` are still to come. */
  ghost function Finish(builder: string, exprs: seq<Expr>, parent: Expr, ops: NumberOps): Result<string, PrintError>
    requires forall i :: 0 <= i < |exprs| ==> exprs[i] < parent && Printable(exprs[i])
  {
    var children :- Children(exprs, parent, ops);
    Ok(builder + children + ")")
  }

  /** One step of the loop: the next child's text, after a space, moves into the builder. */
  lemma FinishStep(builder: string, exprs: seq<Expr>, parent: Expr, ops: NumberOps)
    requires forall i :: 0 <= i < |exprs| ==> exprs[i] < parent && Printable(exprs[i])
    requires exprs != []
    ensures Print(exprs[0], ops).Err? ==> Finish(builder, exprs, parent, ops) == Err(Print(exprs[0], ops).error)
    ensures Print(exprs[0], ops).Ok? ==>
      Finish(builder, exprs, parent, ops) == Finish(builder + " " + Print(exprs[0], ops).value, exprs[1..], parent, ops)
  {
    var t := Print(exprs[0], ops);
    var rest := Children(exprs[1..], parent, ops);
    if t.Ok? && rest.Ok? {
      assert builder + (" " + t.value + rest.value) + ")" == builder + " " + t.value + rest.value + ")";
    }
  }

  /** `paranthesize`: append `(` and the name, then a space and each child's text, then `)`. */
  method Paranthesize(name: string, exprs: seq<Expr>, ghost parent: Expr, ops: NumberOps) returns (r: Result<string, PrintError>)
    requires forall i :: 0 <= i < |exprs| ==> exprs[i] < parent && Printable(exprs[i])
    ensures r == Parenthesized(name, exprs, parent, ops)
  {
    var builder := "(" + name;
    assert exprs[0..] == exprs;
    for i := 0 to |exprs|
      invariant Finish(builder, exprs[i..], parent, ops) == Parenthesized(name, exprs, parent, ops)
    {
      FinishStep(builder, exprs[i..], parent, ops);
      assert exprs[i..][0] == exprs[i] && exprs[i..][1..] == exprs[i + 1..];
      builder := builder + " ";
      var text := Print(exprs[i], ops);
      if text.Err? {
        return Err(text.error);
      }
      builder := builder + text.value;
    }
    assert Finish(builder, [], parent, ops) == Ok(builder + "" + ")");
    assert builder + "" == builder;
    return Ok(builder + ")");
  }

  /** The layout of a binary node: `(op left right)`, one space before each operand. */
  lemma BinaryLayout(e: Expr, ops: NumberOps)
    requires e.Binary? && Printable(e) && Print(e, ops).Ok?
    ensures Print(e.left, ops).Ok? && Print(e.right, ops).Ok?
    ensures Print(e, ops).value == "(" + e.operator.lexeme + " " + Print(e.left, ops).value + " " + Print(e.right, ops).value + ")"
  {
    var exprs := [e.left, e.right];
    FirstChild(exprs, e, ops);
    assert exprs[1..] == [e.right];
    OneChild(e.right, e, ops);
    var l := Print(e.left, ops).value;
    var r := Print(e.right, ops).value;
    var c := Children(exprs, e, ops).value;
    assert c == " " + l + " " + r;
    assert "(" + e.operator.lexeme + c + ")" == "(" + e.operator.lexeme + " " + l + " " + r + ")";
  }

  /** The layout of a grouping: `(group inner)`. */
  lemma GroupingLayout(e: Expr, ops: NumberOps)
    requires e.Grouping? && Printable(e) && Print(e, ops).Ok?
    ensures Print(e.expression, ops).Ok?
    ensures Print(e, ops).value == "(group " + Print(e.expression, ops).value + ")"
  {
    OneChild(e.expression, e, ops);
    var c := Children([e.expression], e, ops).value;
    assert "(" + "group" + c + ")" == "(group " + Print(e.expression, ops).value + ")";
  }

  /** The layout of a unary node: `(op right)`. */
  lemma UnaryLayout(e: Expr, ops: NumberOps)
    requires e.Unary? && Printable(e) && Print(e, ops).Ok?
    ensures Print(e.right, ops).Ok?
    ensures Print(e, ops).value == "(" + e.operator.lexeme + " " + Print(e.right, ops).value + ")"
  {
    OneChild(e.right, e, ops);
    var c := Children([e.right], e, ops).value;
    assert "(" + e.operator.lexeme + c + ")" == "(" + e.operator.lexeme + " " + Print(e.right, ops).value + ")";
  }

  /** The children's text is the first child's text, after a space, then the others'. */
  lemma FirstChild(exprs: seq<Expr>, parent: Expr, ops: NumberOps)
    requires forall i :: 0 <= i < |exprs| ==> exprs[i] < parent && Printable(exprs[i])
    requires exprs != []
    ensures Children(exprs, parent, ops).Ok? <==> Print(exprs[0], ops).Ok? && Children(exprs[1..], parent, ops).Ok?
    ensures Children(exprs, parent, ops).Ok? ==>
      Children(exprs, parent, ops).value == " " + Print(exprs[0], ops).value + Children(exprs[1..], parent, ops).value
  {
  }

  /** A single child's text is a space and the child's text. */
  lemma OneChild(x: Expr, parent: Expr, ops: NumberOps)
    requires x < parent && Printable(x)
    ensures Children([x], parent, ops).Ok? <==> Print(x, ops).Ok?
    ensures Print(x, ops).Ok? ==> Children([x], parent, ops).value == " " + Print(x, ops).value
  {
    assert [x][1..] == [];
    assert Children([], parent, ops) == Ok("");
  }

  /** Whether the tree reaches an assignment or a variable, whose visitors are `TODO()`. */
  predicate ReachesTodo(e: Expr) {
    match e
    case Assign(_, _) => true
    case Variable(_) => true
    case Binary(left, _, right) => ReachesTodo(left) || ReachesTodo(right)
    case Grouping(inner) => ReachesTodo(inner)
    case Unary(_, right) => ReachesTodo(right)
    case _ => false
  }

  /** Printing fails exactly when the tree reaches an unimplemented visitor. */
  lemma {:induction false} PrintFailsOnTodo(e: Expr, ops: NumberOps)
    requires Printable(e)
    ensures Print(e, ops).Err? <==> ReachesTodo(e)
    decreases e, 1
  {
    match e
    case Assign(_, _) =>
    case Variable(_) =>
    case Literal(_) =>
    case Binary(left, operator, right) =>
      ChildrenFailOnTodo([left, right], e, ops);
      assert [left, right][0] == left && [left, right][1] == right;
    case Grouping(inner) =>
      ChildrenFailOnTodo([inner], e, ops);
    case Unary(operator, right) =>
      ChildrenFailOnTodo([right], e, ops);
  }

  lemma {:induction false} ChildrenFailOnTodo(exprs: seq<Expr>, parent: Expr, ops: NumberOps)
    requires forall i :: 0 <= i < |exprs| ==> exprs[i] < parent && Printable(exprs[i])
    ensures Children(exprs, parent, ops).Err? <==> exists i :: 0 <= i < |exprs| && ReachesTodo(exprs[i])
    decreases parent, 0, |exprs|
  {
    if exprs != [] {
      PrintFailsOnTodo(exprs[0], ops);
      ChildrenFailOnTodo(exprs[1..], parent, ops);
      if exists i :: 0 <= i < |exprs| && ReachesTodo(exprs[i]) {
        var i :| 0 <= i < |exprs| && ReachesTodo(exprs[i]);
        if i > 0 {
          assert exprs[1..][i - 1] == exprs[i];
        }
      }
      if exists i :: 0 <= i < |exprs[1..]| && ReachesTodo(exprs[1..][i]) {
        var i :| 0 <= i < |exprs[1..]| && ReachesTodo(exprs[1..][i]);
        assert exprs[i + 1] == exprs[1..][i];
      }
    }
  }

  /** The excess of open over close parentheses in a text. */
  function Net(s: string): int {
    if s == [] then 0
    else Net(s[..|s| - 1]) + (if s[|s| - 1] == '(' then 1 else if s[|s| - 1] == ')' then -1 else 0)
  }

  /** A text whose parentheses match: as many close as open, and no prefix with more close than open. */
  ghost predicate Balanced(s: string) {
    Net(s) == 0 && forall k :: 0 <= k <= |s| ==> Net(s[..k]) >= 0
  }

  predicate ParenFree(s: string) {
    '(' !in s && ')' !in s
  }

  lemma {:induction false} NetConcat(a: string, b: string)
    ensures Net(a + b) == Net(a) + Net(b)
    decreases |b|
  {
    if b != [] {
      assert (a + b)[..|a + b| - 1] == a + b[..|b| - 1];
      NetConcat(a, b[..|b| - 1]);
    } else {
      assert a + b == a;
    }
  }

  lemma {:induction false} ParenFreeNetZero(s: string)
    requires ParenFree(s)
    ensures Net(s) == 0
    decreases |s|
  {
    if s != [] {
      assert s[|s| - 1] in s;
      var init := s[..|s| - 1];
      assert forall c :: c in init ==> c in s;
      ParenFreeNetZero(init);
    }
  }

  lemma ParenFreeIsBalanced(s: string)
    requires ParenFree(s)
    ensures Balanced(s)
  {
    ParenFreeNetZero(s);
    forall k | 0 <= k <= |s| ensures Net(s[..k]) >= 0 {
      assert forall c :: c in s[..k] ==> c in s;
      ParenFreeNetZero(s[..k]);
    }
  }

  lemma BalancedConcat(a: string, b: string)
    requires Balanced(a) && Balanced(b)
    ensures Balanced(a + b)
  {
    NetConcat(a, b);
    forall k | 0 <= k <= |a + b| ensures Net((a + b)[..k]) >= 0 {
      if k <= |a| {
        assert (a + b)[..k] == a[..k];
      } else {
        assert (a + b)[..k] == a + b[..k - |a|];
        NetConcat(a, b[..k - |a|]);
      }
    }
  }

  /** Wrapping a balanced text in a pair of parentheses keeps it balanced. */
  lemma BalancedWrap(x: string)
    requires Balanced(x)
    ensures Balanced("(" + x + ")")
  {
    var w := "(" + x + ")";
    NetConcat("(" + x, ")");
    NetConcat("(", x);
    forall k | 0 <= k <= |w| ensures Net(w[..k]) >= 0 {
      if 1 <= k <= |x| + 1 {
        assert w[..k] == "(" + x[..k - 1];
        NetConcat("(", x[..k - 1]);
      } else if k == |w| {
        assert w[..k] == w;
      }
    }
  }

  /** Every operator lexeme and literal text of the tree is free of parentheses. */
  predicate ParenFreeLeaves(e: Expr, ops: NumberOps) {
    match e
    case Binary(left, operator, right) =>
      ParenFree(operator.lexeme) && ParenFreeLeaves(left, ops) && ParenFreeLeaves(right, ops)
    case Grouping(inner) => ParenFreeLeaves(inner, ops)
    case Literal(v) => ParenFree(LiteralText(v, ops))
    case Unary(operator, right) => ParenFree(operator.lexeme) && ParenFreeLeaves(right, ops)
    case _ => true
  }

  /** The printed parentheses match, as long as no operator or literal text has a parenthesis of its own. */
  lemma {:induction false} PrintBalanced(e: Expr, ops: NumberOps)
    requires Printable(e) && ParenFreeLeaves(e, ops) && Print(e, ops).Ok?
    ensures Balanced(Print(e, ops).value)
    decreases e, 1
  {
    match e
    case Literal(v) =>
      ParenFreeIsBalanced(LiteralText(v, ops));
    case Binary(left, operator, right) =>
      ChildrenBalanced([left, right], e, ops);
      WrapBalanced(operator.lexeme, Children([left, right], e, ops).value);
    case Grouping(inner) =>
      ChildrenBalanced([inner], e, ops);
      WrapBalanced("group", Children([inner], e, ops).value);
    case Unary(operator, right) =>
      ChildrenBalanced([right], e, ops);
      WrapBalanced(operator.lexeme, Children([right], e, ops).value);
  }

  lemma WrapBalanced(name: string, children: string)
    requires ParenFree(name) && Balanced(children)
    ensures Balanced("(" + name + children + ")")
  {
    ParenFreeIsBalanced(name);
    BalancedConcat(name, children);
    BalancedWrap(name + children);
    assert "(" + name + children + ")" == "(" + (name + children) + ")";
  }

  lemma {:induction false} ChildrenBalanced(exprs: seq<Expr>, parent: Expr, ops: NumberOps)
    requires forall i :: 0 <= i < |exprs| ==> exprs[i] < parent && Printable(exprs[i]) && ParenFreeLeaves(exprs[i], ops)
    requires Children(exprs, parent, ops).Ok?
    ensures Balanced(Children(exprs, parent, ops).value)
    decreases parent, 0, |exprs|
  {
    if exprs == [] {
      ParenFreeIsBalanced("");
    } else {
      var first := Print(exprs[0], ops).value;
      var rest := Children(exprs[1..], parent, ops).value;
      PrintBalanced(exprs[0], ops);
      ChildrenBalanced(exprs[1..], parent, ops);
      ParenFreeIsBalanced(" ");
      BalancedConcat(" ", first);
      BalancedConcat(" " + first, rest);
    }
  }

  /** Without that condition the claim fails: a string literal `(` prints as an unmatched parenthesis. */
  lemma StringLiteralCanUnbalance(ops: NumberOps)
    ensures Print(Literal(StringValue("(")), ops) == Ok("(")
    ensures !Balanced("(")
  {
    assert "("[..0] == [];
    assert Net("(") == 1;
  }
}
