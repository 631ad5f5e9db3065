/**
 * The interpreter's runtime objects: values, the environment chain, and the
 * function, class and instance objects a program creates. Values may hold
 * functions (which capture an environment) and instances (whose fields are
 * updated in place), so all of them live in one module.
 */
module Runtime {
  import opened Tokens
  import opened Outcomes
  import opened Syntax
  import opened Frames

  /** What a variable, a field or an expression can hold; `Nil` is the host's null. */
  datatype Value =
    | Nil
    | Bool(b: bool)
    | Num(n: Number)
    | Str(s: string)
    | FunctionValue(callee: LoxFunction)
    | ClassValue(klass: LoxClass)
    | InstanceValue(instance: LoxInstance)

  function UndefinedVariable(name: Token): RuntimeError {
    RuntimeError(name, "Undefined variable '" + name.lexeme + "'.")
  }

  function UndefinedProperty(name: Token): RuntimeError {
    RuntimeError(name, "Undefined property '" + name.lexeme + "'.")
  }

  /**
   * One environment: its own table of bindings and the environment it is
   * nested in. `Ancestors` records the chain above it, which never changes
   * because `enclosing` is fixed at construction.
   */
  class Env {
    const enclosing: Env?
    var values: map<string, Value>
    /** The environments reached by following `enclosing` links, nearest first. */
    ghost const Ancestors: seq<Env>

    ghost function Repr(): set<Env> {
      {this} + set e | e in Ancestors
    }

    /** The chain is finite, acyclic, and `Ancestors` follows the links. */
    ghost predicate Linked()
      decreases |Ancestors|
    {
      && (enclosing == null ==> Ancestors == [])
      && (enclosing != null ==>
            && Ancestors == [enclosing] + enclosing.Ancestors
            && this !in Ancestors
            && enclosing.Linked())
    }

    /** A global environment when `enclosing` is null, else one nested in `enclosing`. */
    constructor (enclosing: Env?)
      requires enclosing != null ==> enclosing.Linked()
      ensures Linked()
      ensures this.enclosing == enclosing && values == map[]
    {
      this.enclosing := enclosing;
      values := map[];
      Ancestors := if enclosing == null then [] else [enclosing] + enclosing.Ancestors;
    }

    /** The `k`-th ancestor is linked, its chain is the rest of this one, and it does not recur there. */
    lemma {:induction false} AncestorLinked(k: nat)
      requires Linked() && k < |Ancestors|
      ensures Ancestors[k].Linked() && Ancestors[k].Ancestors == Ancestors[k + 1..]
      ensures Ancestors[k].enclosing == if k + 1 < |Ancestors| then Ancestors[k + 1] else null
      decreases |Ancestors|
    {
      if k > 0 {
        enclosing.AncestorLinked(k - 1);
        assert Ancestors[k] == enclosing.Ancestors[k - 1];
        assert Ancestors[k + 1..] == enclosing.Ancestors[k..];
      }
    }

    /** The tables of the chain, this environment's first. */
    function Frames(): (r: seq<map<string, Value>>)
      reads Repr()
      requires Linked()
      ensures |r| == |Ancestors| + 1 && r[0] == values
      ensures forall j :: 1 <= j < |r| ==> r[j] == Ancestors[j - 1].values
      decreases |Ancestors|
    {
      [values] + if enclosing == null then [] else enclosing.Frames()
    }

    /** Binds `name` in this environment's own table, inserting or overwriting. */
    method Define(name: string, value: Value)
      requires Linked()
      modifies this`values
      ensures values == old(values)[name := value]
      ensures Frames() == Bind(old(Frames()), name, value)
    {
      ghost var before := Frames();
      values := values[name := value];
      forall j | 1 <= j < |before|
        ensures Frames()[j] == before[j]
      {
        assert Ancestors[j - 1] != this;
        assert Ancestors[j - 1].values == old(Ancestors[j - 1].values);
      }
      assert Frames()[0] == Bind(before, name, value)[0];
    }

    /** The value of the nearest binding of `name` up the chain, or an undefined-variable error. */
    function Get(name: Token): (r: Result<Value>)
      reads Repr()
      requires Linked()
      ensures Lookup(Frames(), name.lexeme).Some? ==> r == Ok(Lookup(Frames(), name.lexeme).value)
      ensures Lookup(Frames(), name.lexeme).None? ==> r == Err(Lox(UndefinedVariable(name)))
      decreases |Ancestors|
    {
      if name.lexeme in values then Ok(values[name.lexeme])
      else if enclosing != null then enclosing.Get(name)
      else Err(Lox(UndefinedVariable(name)))
    }

    /** Overwrites the nearest binding of `name`; an undefined-variable error when there is none. */
    method Assign(name: Token, value: Value) returns (error: Option<RuntimeError>)
      requires Linked()
      modifies Repr()
      ensures Reassign(old(Frames()), name.lexeme, value).Some? ==>
        error == None && Frames() == Reassign(old(Frames()), name.lexeme, value).value
      ensures Reassign(old(Frames()), name.lexeme, value).None? ==>
        error == Some(UndefinedVariable(name)) && Frames() == old(Frames())
      decreases |Ancestors|
    {
      var rest := if enclosing == null then [] else enclosing.Frames();
      assert Frames() == [values] + rest;
      if name.lexeme in values {
        ReassignInner(values, rest, name.lexeme, value);
        assert enclosing != null ==> this !in enclosing.Repr();
        values := values[name.lexeme := value];
        assert enclosing != null ==> enclosing.Frames() == rest;
        return None;
      }
      ReassignOuter(values, rest, name.lexeme, value);
      if enclosing != null {
        error := enclosing.Assign(name, value);
        return;
      }
      return Some(UndefinedVariable(name));
    }

    /**
     * Follows `distance` enclosing links. Stepping past the last environment
     * yields null; stepping further reads a field of null.
     */
    method Ancestor(distance: int) returns (r: Result<Env?>)
      requires Linked()
      ensures distance <= 0 ==> r == Ok(this)
      ensures 0 < distance <= |Ancestors| ==> r == Ok(Ancestors[distance - 1])
      ensures distance == |Ancestors| + 1 ==> r == Ok(null)
      ensures distance > |Ancestors| + 1 ==> r == Err(Host(NullReference))
    {
      var environment: Env? := this;
      var i := 0;
      while i < distance
        invariant 0 <= i <= |Ancestors| + 1
        invariant i <= |Ancestors| ==> environment == if i == 0 then this else Ancestors[i - 1]
        invariant i == |Ancestors| + 1 ==> environment == null
        invariant distance > 0 ==> i <= distance
        invariant distance <= 0 ==> i == 0
      {
        if environment == null {
          return Err(Host(NullReference));
        }
        if i > 0 {
          AncestorLinked(i - 1);
        }
        environment := environment.enclosing;
        i := i + 1;
      }
      r := Ok(environment);
    }

    /** Reads `name` from the table `distance` links up, and from no other. */
    method GetAt(distance: int, name: string) returns (r: Result<Value>)
      requires Linked()
      ensures var d := if distance < 0 then 0 else distance;
        && (d <= |Ancestors| ==>
              r == if name in Frames()[d] then Ok(Frames()[d][name]) else Err(Host(KeyNotFound)))
        && (d > |Ancestors| ==> r == Err(Host(NullReference)))
    {
      var found := Ancestor(distance);
      if found.Err? {
        return Err(found.fault);
      }
      var environment := found.value;
      if environment == null {
        return Err(Host(NullReference));
      }
      if name !in environment.values {
        return Err(Host(KeyNotFound));
      }
      r := Ok(environment.values[name]);
    }

    /** Writes `name` into the table `distance` links up, inserting or overwriting, and into no other. */
    method AssignAt(distance: int, name: Token, value: Value) returns (thrown: Option<HostException>)
      requires Linked()
      modifies Repr()
      ensures var d := if distance < 0 then 0 else distance;
        && (d <= |Ancestors| ==>
              thrown == None && Frames() == old(Frames())[d := old(Frames())[d][name.lexeme := value]])
        && (d > |Ancestors| ==> thrown == Some(NullReference) && Frames() == old(Frames()))
    {
      var found := Ancestor(distance);
      if found.Err? {
        return Some(found.fault.exception);
      }
      var environment := found.value;
      if environment == null {
        return Some(NullReference);
      }
      var d := if distance < 0 then 0 else distance;
      assert d <= |Ancestors| && environment == if d == 0 then this else Ancestors[d - 1];
      StoreAt(d, environment, name.lexeme, value);
      thrown := None;
    }

    /** The `m`-th ancestor occurs nowhere else on the chain. */
    lemma Apart(m: nat)
      requires Linked() && m < |Ancestors|
      ensures forall k :: 0 <= k < |Ancestors| && k != m ==> Ancestors[k] != Ancestors[m]
    {
      forall k | 0 <= k < |Ancestors| && k != m
        ensures Ancestors[k] != Ancestors[m]
      {
        if k < m {
          AncestorLinked(k);
          assert Ancestors[m] in Ancestors[k + 1..];
        } else {
          AncestorLinked(m);
          assert Ancestors[k] in Ancestors[m + 1..];
        }
      }
    }

    /** Writes `name` into the table of the environment `d` links up. */
    method StoreAt(d: nat, target: Env, name: string, value: Value)
      requires Linked() && d <= |Ancestors|
      requires target == if d == 0 then this else Ancestors[d - 1]
      modifies target`values
      ensures Frames() == old(Frames())[d := old(Frames())[d][name := value]]
    {
      if d > 0 {
        Apart(d - 1);
      }
      ghost var before := Frames();
      target.values := target.values[name := value];
      forall j | 1 <= j < |before| && j != d
        ensures Frames()[j] == before[j]
      {
        assert Ancestors[j - 1] != target;
        assert Ancestors[j - 1].values == old(Ancestors[j - 1].values);
      }
      assert Frames()[d] == before[d][name := value];
    }
  }

  /** What executing a function body did: ran to its end, returned a value, or raised. */
  datatype Completion =
    | Normal
    | Returned(value: Value)
    | Raised(fault: Fault)

  /** The table a call's fresh environment holds once the first `n` parameters are bound, in order. */
  function Bindings(params: seq<Token>, arguments: seq<Value>, n: nat): map<string, Value>
    requires n <= |params| && n <= |arguments|
  {
    if n == 0 then map[]
    else Bindings(params, arguments, n - 1)[params[n - 1].lexeme := arguments[n - 1]]
  }

  /** A user function: its declaration and the environment it was declared in. */
  class LoxFunction {
    const declaration: FunDecl
    const closure: Env

    constructor (declaration: FunDecl, closure: Env)
      ensures this.declaration == declaration && this.closure == closure
    {
      this.declaration := declaration;
      this.closure := closure;
    }

    function Arity(): nat {
      |declaration.params|
    }

    function ToString(): (r: string)
      ensures |r| == |declaration.name.lexeme| + 6
      ensures r[..4] == "<fn " && r[4..|r| - 2] == declaration.name.lexeme && r[|r| - 2..] == " >"
    {
      "<fn " + declaration.name.lexeme + " >"
    }

    /**
     * Binds each parameter to its argument in a fresh environment nested in the
     * closure, then runs the body there; `executed` is what running the body
     * did. A `return` gives its value and running off the end gives null.
     * Fewer arguments than parameters throw before the body runs, once the
     * environment is made and the parameters that have an argument are bound.
     */
    method Call(arguments: seq<Value>, executed: Completion) returns (r: Result<Value>, env: Env?)
      requires closure.Linked()
      ensures env != null && fresh(env) && env.Linked() && env.enclosing == closure
      ensures env.values == Bindings(declaration.params, arguments, if |arguments| < Arity() then |arguments| else Arity())
      ensures |arguments| < Arity() ==> r == Err(Host(ArgumentOutOfRange))
      ensures |arguments| >= Arity() ==>
        r == match executed
                case Normal => Ok(Nil)
                case Returned(v) => Ok(v)
                case Raised(f) => Err(f)
    {
      env := new Env(closure);
      for i := 0 to |declaration.params|
        invariant env.values == Bindings(declaration.params, arguments, if i <= |arguments| then i else |arguments|)
        invariant i <= |arguments|
      {
        if i >= |arguments| {
          return Err(Host(ArgumentOutOfRange)), env;
        }
        env.Define(declaration.params[i].lexeme, arguments[i]);
      }
      match executed
      case Normal => r := Ok(Nil);
      case Returned(v) => r := Ok(v);
      case Raised(f) => r := Err(f);
    }
  }

  /**
   * Each parameter is bound to the argument at its position; a name listed
   * twice is bound to the argument of its last occurrence.
   */
  lemma {:induction false} BindingsHoldArguments(params: seq<Token>, arguments: seq<Value>, n: nat, i: nat)
    requires n <= |params| && n <= |arguments| && i < n
    requires forall j :: i < j < n ==> params[j].lexeme != params[i].lexeme
    ensures params[i].lexeme in Bindings(params, arguments, n)
    ensures Bindings(params, arguments, n)[params[i].lexeme] == arguments[i]
  {
    if i < n - 1 {
      BindingsHoldArguments(params, arguments, n - 1, i);
    }
  }

  /** The fresh environment binds the parameter names and nothing else. */
  lemma {:induction false} BindingsBindParams(params: seq<Token>, arguments: seq<Value>, n: nat)
    requires n <= |params| && n <= |arguments|
    ensures Bindings(params, arguments, n).Keys == set j | 0 <= j < n :: params[j].lexeme
  {
    if n > 0 {
      BindingsBindParams(params, arguments, n - 1);
    }
  }

  /** A class: its name and its methods by name. */
  class LoxClass {
    const name: string
    const methods: map<string, LoxFunction>

    constructor (name: string, methods: map<string, LoxFunction>)
      ensures this.name == name && this.methods == methods
    {
      this.name := name;
      this.methods := methods;
    }

    function Arity(): nat {
      0
    }

    /** Calling a class ignores the arguments and makes a new, field-less instance of it. */
    method Call(arguments: seq<Value>) returns (r: Value)
      ensures r.InstanceValue? && fresh(r.instance)
      ensures r.instance.klass == this && r.instance.fields == map[]
    {
      var instance := new LoxInstance(this);
      r := InstanceValue(instance);
    }

    function ToString(): string {
      name
    }

    function FindMethod(name: string): (r: Option<LoxFunction>)
      ensures r.Some? <==> name in methods
      ensures r.Some? ==> r.value == methods[name]
    {
      if name in methods then Some(methods[name]) else None
    }
  }

  /** An instance: its class and its own fields, which `Set` updates in place. */
  class LoxInstance {
    const klass: LoxClass
    var fields: map<string, Value>

    constructor (klass: LoxClass)
      ensures this.klass == klass && fields == map[]
    {
      this.klass := klass;
      fields := map[];
    }

    /** A field shadows a method of the same name; with neither, an undefined-property error. */
    function Get(name: Token): (r: Result<Value>)
      reads this
      ensures name.lexeme in fields ==> r == Ok(fields[name.lexeme])
      ensures name.lexeme !in fields && name.lexeme in klass.methods ==> r == Ok(FunctionValue(klass.methods[name.lexeme]))
      ensures name.lexeme !in fields && name.lexeme !in klass.methods ==> r == Err(Lox(UndefinedProperty(name)))
    {
      if name.lexeme in fields then Ok(fields[name.lexeme])
      else
        match klass.FindMethod(name.lexeme)
        case Some(found) => Ok(FunctionValue(found))
        case None => Err(Lox(UndefinedProperty(name)))
    }

    /** Inserts or overwrites one field; a later `Get` of it sees the value and every other read is unchanged. */
    method Set(name: Token, value: Value)
      modifies this`fields
      ensures fields == old(fields)[name.lexeme := value]
      ensures Get(name) == Ok(value)
      ensures forall other: Token :: other.lexeme != name.lexeme ==> Get(other) == old(Get(other))
    {
      // Overwriting an existing field and adding a new one are the same map update.
      fields := fields[name.lexeme := value];
    }

    /** The class name followed by " instance". */
    function ToString(): (r: string)
      ensures |r| == |klass.name| + 9
      ensures r[..|klass.name|] == klass.name && r[|klass.name|..] == " instance"
    {
      klass.name + " instance"
    }
  }
}
