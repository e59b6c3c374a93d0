/**
 * The run-time objects of the Kotlin interpreter: values, environments (Environment.kt),
 * functions (LoxFunction.kt), classes (LoxClass.kt) and instances (LoxInstance.kt). They refer to
 * one another, so they share a module.
 *
 * A function's body is run by `interpreter.executeBlock`, which is not part of this model: the
 * way the body ends (normally, by a `return` with a value, or by a RuntimeError) is a parameter
 * of `call`. Kotlin's `Environment(enclosing)` constructor and `getAt` are not in Environment.kt
 * either: the model gives an environment an `enclosing` link, and `getAt(0, name)` reads the
 * environment's own bindings, `nil` for a missing name.
 */
module Runtime {
  import opened Wrappers
  import opened TokenTypes
  import opened Ast
  import opened Numbers

  /** A Lox value: Kotlin `null`, a Boolean, a Double, a String, or one of the run-time objects. */
  datatype Value =
    | NilVal
    | BoolVal(b: bool)
    | NumVal(n: Double)
    | StrVal(s: string)
    | FunctionVal(f: LoxFunction)
    | ClassVal(c: LoxClass)
    | InstanceVal(i: LoxInstance)

  /** A RuntimeError: the token it is reported at and its message. */
  datatype RuntimeError = RuntimeError(token: Token, message: string)

  /**
   * How a function body ended: it ran to its end, a `return` threw a value, or a RuntimeError
   * escaped it.
   */
  datatype Completion = Normal | Returned(value: Value) | Threw(error: RuntimeError)

  /**
   * What escapes `call`: a RuntimeError from the body, or the JVM's IndexOutOfBoundsException
   * when `arguments[index]` is read past the end of too short an argument list.
   */
  datatype CallFailure = Thrown(error: RuntimeError) | IndexOutOfBounds(index: nat)

  /** How many parameters `call` binds before it either finishes the loop or reads past the arguments. */
  function BoundCount(params: seq<Token>, arguments: seq<Value>): (n: nat)
    ensures n <= |params| && n <= |arguments|
    ensures n == |params| || n == |arguments|
  {
    if |params| <= |arguments| then |params| else |arguments|
  }

  /** What `get` finds for a name in a set of bindings. */
  function Lookup(values: map<string, Value>, name: Token): (r: Result<Value, RuntimeError>)
    ensures name.lexeme in values <==> r.Ok?
    ensures r.Ok? ==> r.value == values[name.lexeme]
    ensures r.Err? ==> r.error == RuntimeError(name, "Undefined variable '" + name.lexeme + "'.")
  {
    if name.lexeme in values then Ok(values[name.lexeme])
    else Err(RuntimeError(name, "Undefined variable '" + name.lexeme + "'."))
  }

  /** After `define(name, v)`, looking the name up finds `v`, and every other name finds what it found before. */
  lemma LookupAfterDefine(values: map<string, Value>, name: string, v: Value, token: Token)
    ensures token.lexeme == name ==> Lookup(values[name := v], token) == Ok(v)
    ensures token.lexeme != name ==> Lookup(values[name := v], token) == Lookup(values, token)
  {
  }

  class Environment {
    /** The bindings of this environment. */
    var values: map<string, Value>
    /** The environment this one was created inside, if any. */
    const enclosing: Option<Environment>

    constructor ()
      ensures values == map[] && enclosing == None
    {
      values := map[];
      enclosing := None;
    }

    /** `Environment(enclosing)`: an empty environment inside another. */
    constructor Inside(enclosing: Environment)
      ensures values == map[] && this.enclosing == Some(enclosing)
    {
      values := map[];
      this.enclosing := Some(enclosing);
    }

    /** `define`: bind the name, overwriting any earlier binding of it; other bindings stay. */
    method Define(name: string, value: Value)
      modifies this
      ensures values == old(values)[name := value]
    {
      values := values[name := value];
    }

    /** `get`: the name's value, or an "Undefined variable" error; nothing changes. */
    method Get(name: Token) returns (r: Result<Value, RuntimeError>)
      ensures r == Lookup(values, name)
    {
      if name.lexeme in values {
        return Ok(values[name.lexeme]);
      }
      return Err(RuntimeError(name, "Undefined variable '" + name.lexeme + "'."));
    }
  }

  /** `getAt(0, name)`: the environment's own binding of the name, `nil` if it has none. */
  function OwnBinding(environment: Environment, name: string): Value
    reads environment
  {
    if name in environment.values then environment.values[name] else NilVal
  }

  /**
   * The bindings `call` makes: `define(params[i].lexeme, arguments[i])` for each parameter in
   * order, so a later parameter of the same name wins.
   */
  function Bindings(params: seq<Token>, arguments: seq<Value>): map<string, Value>
    requires |params| <= |arguments|
  {
    if params == [] then map[]
    else Bindings(params[..|params| - 1], arguments)[params[|params| - 1].lexeme := arguments[|params| - 1]]
  }

  /** Whether some parameter has the name. */
  ghost predicate Declares(params: seq<Token>, name: string) {
    exists i :: 0 <= i < |params| && params[i].lexeme == name
  }

  /** Whether parameter `i` is the last one with its name. */
  ghost predicate LastOfName(params: seq<Token>, i: int)
    requires 0 <= i < |params|
  {
    forall j :: i < j < |params| ==> params[j].lexeme != params[i].lexeme
  }

  /** The parameters' names are bound, and nothing else is. */
  lemma {:induction false} BindingsBindExactlyParameters(params: seq<Token>, arguments: seq<Value>)
    requires |params| <= |arguments|
    ensures forall name :: name in Bindings(params, arguments) <==> Declares(params, name)
  {
    if params != [] {
      var init := params[..|params| - 1];
      BindingsBindExactlyParameters(init, arguments);
      forall name
        ensures name in Bindings(params, arguments) <==> Declares(params, name)
      {
        if Declares(init, name) {
          var i :| 0 <= i < |init| && init[i].lexeme == name;
          assert params[i] == init[i];
        }
        if Declares(params, name) && name != params[|params| - 1].lexeme {
          var i :| 0 <= i < |params| && params[i].lexeme == name;
          assert init[i] == params[i];
        }
      }
    }
  }

  /**
   * Each name is bound to the argument of its last parameter, so with distinct names parameter
   * `i` is bound to argument `i`.
   */
  lemma {:induction false} BindingsBindLastArgument(params: seq<Token>, arguments: seq<Value>, i: int)
    requires |params| <= |arguments| && 0 <= i < |params| && LastOfName(params, i)
    ensures params[i].lexeme in Bindings(params, arguments) && Bindings(params, arguments)[params[i].lexeme] == arguments[i]
  {
    var init := params[..|params| - 1];
    if i < |init| {
      assert params[|params| - 1].lexeme != params[i].lexeme;
      assert LastOfName(init, i) by {
        forall j | i < j < |init| ensures init[j].lexeme != init[i].lexeme {
          assert init[j] == params[j];
        }
      }
      BindingsBindLastArgument(init, arguments, i);
      assert init[i] == params[i];
    }
  }

  class LoxFunction {
    const declaration: FunctionDecl
    const closure: Environment
    const isInitializer: bool

    constructor (declaration: FunctionDecl, closure: Environment, isInitializer: bool)
      ensures this.declaration == declaration && this.closure == closure && this.isInitializer == isInitializer
    {
      this.declaration := declaration;
      this.closure := closure;
      this.isInitializer := isInitializer;
    }

    /** `arity`: the number of declared parameters. */
    function Arity(): (n: nat)
      ensures n == |declaration.params|
    {
      |declaration.params|
    }

    /**
     * `call`: a fresh environment inside the closure (not the caller's environment) binds each
     * parameter to its argument, and the body runs in it, ending as `outcome` says. With fewer
     * arguments than parameters, `arguments[i]` throws once the arguments run out, after the
     * parameters before it are bound, and the body never runs. Only a `return` is caught: an
     * error the body throws leaves `call` unchanged. Otherwise an initializer yields the
     * closure's `this` however the body ended, and any other function yields the returned value,
     * or `nil` when the body ran to its end.
     */
    method Call(arguments: seq<Value>, outcome: Completion)
      returns (result: Result<Value, CallFailure>, environment: Environment)
      ensures fresh(environment) && environment.enclosing == Some(closure)
      ensures environment.values == Bindings(declaration.params[..BoundCount(declaration.params, arguments)], arguments)
      ensures result.Err? <==> |arguments| < Arity() || outcome.Threw?
      ensures |arguments| < Arity() ==> result == Err(IndexOutOfBounds(|arguments|))
      ensures Arity() <= |arguments| && outcome.Threw? ==> result == Err(Thrown(outcome.error))
      ensures Arity() <= |arguments| && isInitializer && !outcome.Threw? ==> result == Ok(OwnBinding(closure, "this"))
      ensures Arity() <= |arguments| && !isInitializer && outcome.Returned? ==> result == Ok(outcome.value)
      ensures Arity() <= |arguments| && !isInitializer && outcome.Normal? ==> result == Ok(NilVal)
    {
      environment := new Environment.Inside(closure);
      var i := 0;
      while i < |declaration.params|
        invariant i <= |declaration.params| && i <= |arguments|
        invariant fresh(environment) && environment.enclosing == Some(closure)
        invariant environment.values == Bindings(declaration.params[..i], arguments)
      {
        if i == |arguments| {
          return Err(IndexOutOfBounds(i)), environment;
        }
        assert declaration.params[..i + 1][..i] == declaration.params[..i];
        environment.Define(declaration.params[i].lexeme, arguments[i]);
        i := i + 1;
      }
      assert declaration.params[..|declaration.params|] == declaration.params;
      match outcome
      case Threw(error) =>
        return Err(Thrown(error)), environment;
      case Returned(value) =>
        if isInitializer {
          return Ok(OwnBinding(closure, "this")), environment;
        }
        return Ok(value), environment;
      case Normal =>
        if isInitializer {
          return Ok(OwnBinding(closure, "this")), environment;
        }
        return Ok(NilVal), environment;
    }

    /**
     * `bind`: the same declaration and initializer flag (so the same arity), over a new closure
     * inside the old one that binds `this` to the instance and nothing else.
     */
    method Bind(instance: LoxInstance) returns (f: LoxFunction)
      ensures fresh(f) && fresh(f.closure)
      ensures f.declaration == declaration && f.isInitializer == isInitializer && f.Arity() == Arity()
      ensures f.closure.enclosing == Some(closure) && f.closure.values == map["this" := InstanceVal(instance)]
    {
      var environment := new Environment.Inside(closure);
      environment.Define("this", InstanceVal(instance));
      f := new LoxFunction(declaration, environment, isInitializer);
    }

    /** `toString`: `<fn name>`. */
    function ToString(): (s: string)
      ensures s == "<fn " + declaration.name.lexeme + ">"
    {
      "<fn " + declaration.name.lexeme + ">"
    }
  }

  /** Functions print alike exactly when their declared names agree. */
  lemma FunctionsPrintByName(f: LoxFunction, g: LoxFunction)
    ensures f.ToString() == g.ToString() <==> f.declaration.name.lexeme == g.declaration.name.lexeme
  {
    var a := f.declaration.name.lexeme;
    var b := g.declaration.name.lexeme;
    if f.ToString() == g.ToString() {
      assert a == f.ToString()[4..|f.ToString()| - 1];
      assert b == g.ToString()[4..|g.ToString()| - 1];
    }
  }

  class LoxClass {
    const name: string
    const superclass: Option<LoxClass>
    const methods: map<string, LoxFunction>

    constructor (name: string, superclass: Option<LoxClass>, methods: map<string, LoxFunction>)
      ensures this.name == name && this.superclass == superclass && this.methods == methods
    {
      this.name := name;
      this.superclass := superclass;
      this.methods := methods;
    }

    /** `findMethod`: the class's own method of that name; the superclass is never searched. */
    function FindMethod(name: string): (m: Option<LoxFunction>)
      ensures m.Some? <==> name in methods
      ensures m.Some? ==> m.value == methods[name]
    {
      if name in methods then Some(methods[name]) else None
    }

    /** `arity`: the arity of `init`, or 0 when the class has none. */
    function Arity(): (n: nat)
      ensures "init" in methods ==> n == |methods["init"].declaration.params|
      ensures "init" !in methods ==> n == 0
    {
      match FindMethod("init")
      case None => 0
      case Some(initializer) => initializer.Arity()
    }

    /**
     * `call`: a fresh instance of this class, whether or not it has an `init`. When it has one, it
     * is bound to the new instance and called with the same arguments (`initializerEnvironment`
     * is the environment that call binds them in), and its result is dropped. An error the
     * initializer throws, or the IndexOutOfBoundsException of an `init` given too few arguments,
     * is passed on instead of the instance; the arguments are never checked against the arity.
     */
    method Call(arguments: seq<Value>, initializerOutcome: Completion)
      returns (result: Result<LoxInstance, CallFailure>, ghost instance: LoxInstance,
               ghost initializerEnvironment: Option<Environment>)
      ensures fresh(instance) && instance.klass == this
      ensures result.Err? <==> "init" in methods && (|arguments| < Arity() || initializerOutcome.Threw?)
      ensures |arguments| < Arity() ==> result == Err(IndexOutOfBounds(|arguments|))
      ensures Arity() <= |arguments| && result.Err? ==> result == Err(Thrown(initializerOutcome.error))
      ensures result.Ok? ==> result.value == instance
      ensures initializerEnvironment.Some? <==> "init" in methods
      ensures initializerEnvironment.Some? ==>
        var environment := initializerEnvironment.value;
        && fresh(environment)
        && environment.values == Bindings(methods["init"].declaration.params[..BoundCount(methods["init"].declaration.params, arguments)], arguments)
        && environment.enclosing.Some?
        && environment.enclosing.value.values == map["this" := InstanceVal(instance)]
        && environment.enclosing.value.enclosing == Some(methods["init"].closure)
    {
      var created := new LoxInstance(this);
      instance := created;
      result := Ok(created);
      initializerEnvironment := None;
      var initializer := FindMethod("init");
      if initializer.Some? {
        var bound := initializer.value.Bind(created);
        var outcome, environment := bound.Call(arguments, initializerOutcome);
        initializerEnvironment := Some(environment);
        if outcome.Err? {
          result := Err(outcome.error);
        }
      }
    }

    /** `toString`: the class's name. */
    function ToString(): (s: string)
      ensures s == name
    {
      name
    }
  }

  class LoxInstance {
    const klass: LoxClass

    constructor (klass: LoxClass)
      ensures this.klass == klass
    {
      this.klass := klass;
    }

    /** `toString`: `<class name> instance`. */
    function ToString(): (s: string)
      ensures s == klass.name + " instance"
    {
      klass.name + " instance"
    }
  }

  /** Instances print alike exactly when their classes' names agree. */
  lemma InstancesPrintByClassName(a: LoxInstance, b: LoxInstance)
    ensures a.ToString() == b.ToString() <==> a.klass.name == b.klass.name
  {
    if a.ToString() == b.ToString() {
      assert a.klass.name == a.ToString()[..|a.ToString()| - 9];
      assert b.klass.name == b.ToString()[..|b.ToString()| - 9];
    }
  }
}
