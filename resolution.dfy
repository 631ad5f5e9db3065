/**
 * The resolver pass as functions over its state: the stack of scopes (each a
 * map from a name to whether its declaration is complete), the kind of
 * function being resolved, the diagnostics reported, and the side table of
 * scope distances it hands to the interpreter.
 *
 * The stack is a sequence whose index 0 is the top, so index `i` is the
 * scope that `ElementAt(i)` of the host stack returns.
 */
module Resolution {
  import opened Tokens
  import opened Outcomes
  import opened Syntax

  datatype FunctionType = NONE | FUNCTION | METHOD

  type Scope = map<string, bool>

  datatype ResolverState = ResolverState(
    scopes: seq<Scope>,
    currentFunction: FunctionType,
    diagnostics: seq<Diagnostic>,
    /** The distances recorded for resolved nodes, keyed by node id. */
    locals: map<nat, nat>)

  /** A resolution step either completes, or throws a host exception with the state it had reached. */
  datatype Outcome =
    | Completed(state: ResolverState)
    | Threw(exception: HostException, state: ResolverState)

  const DuplicateVariable := "Variable with this name already exists in the scope."
  const OwnInitializer := "Can't read local variable in its own initializer."
  const TopLevelReturn := "Can't return from top-level code."

  function Report(st: ResolverState, name: Token, message: string): ResolverState {
    st.(diagnostics := st.diagnostics + [AtToken(name, message)])
  }

  function BeginScope(st: ResolverState): ResolverState {
    st.(scopes := [map[]] + st.scopes)
  }

  /** Pops the top scope; popping an empty stack throws. */
  function EndScope(st: ResolverState): Outcome {
    if |st.scopes| == 0 then Threw(EmptyStack, st)
    else Completed(st.(scopes := st.scopes[1..]))
  }

  /**
   * Marks `name` declared but not yet defined in the top scope. A name already
   * in the top scope is reported, and then the dictionary insertion throws.
   */
  function Declare(st: ResolverState, name: Token): (r: Outcome)
    ensures |st.scopes| == 0 ==> r == Completed(st)
    ensures |st.scopes| > 0 && name.lexeme in st.scopes[0] ==>
      r == Threw(DuplicateKey, st.(diagnostics := st.diagnostics + [AtToken(name, DuplicateVariable)]))
    ensures |st.scopes| > 0 && name.lexeme !in st.scopes[0] ==>
      && r.Completed?
      && |r.state.scopes| == |st.scopes| && r.state.scopes[1..] == st.scopes[1..]
      && r.state.scopes[0] == st.scopes[0][name.lexeme := false]
      && r.state.(scopes := st.scopes) == st
  {
    if |st.scopes| == 0 then Completed(st)
    else if name.lexeme in st.scopes[0] then Threw(DuplicateKey, Report(st, name, DuplicateVariable))
    else Completed(st.(scopes := st.scopes[0 := st.scopes[0][name.lexeme := false]]))
  }

  /** Marks `name` defined in the top scope, inserting it if absent. */
  function Define(st: ResolverState, name: Token): (r: ResolverState)
    ensures |st.scopes| == 0 ==> r == st
    ensures |st.scopes| > 0 ==>
      && |r.scopes| == |st.scopes| && r.scopes[1..] == st.scopes[1..]
      && r.scopes[0] == st.scopes[0][name.lexeme := true]
      && r.(scopes := st.scopes) == st
  {
    if |st.scopes| == 0 then st
    else st.(scopes := st.scopes[0 := st.scopes[0][name.lexeme := true]])
  }

  /**
   * The first index, counting down from `n - 1`, of a scope holding `name`:
   * the order in which `resolveLocal` tries the scopes.
   */
  function HolderBelow(scopes: seq<Scope>, name: string, n: nat): (r: Option<nat>)
    requires n <= |scopes|
    ensures r.Some? ==> r.value < n && name in scopes[r.value]
    ensures r.Some? ==> forall j :: r.value < j < n ==> name !in scopes[j]
    ensures r.None? ==> forall j :: 0 <= j < n ==> name !in scopes[j]
  {
    if n == 0 then None
    else if name in scopes[n - 1] then Some(n - 1)
    else HolderBelow(scopes, name, n - 1)
  }

  /** Records, for node `id`, `Count - 1 - i` for the scope index `i` that `resolveLocal`'s loop hits first. */
  function ResolveLocal(st: ResolverState, id: nat, name: Token): (r: ResolverState)
    ensures r.(locals := st.locals) == st
    ensures (forall i :: 0 <= i < |st.scopes| ==> name.lexeme !in st.scopes[i]) ==> r == st
    ensures (exists i :: 0 <= i < |st.scopes| && name.lexeme in st.scopes[i]) ==>
      && id in r.locals && r.locals[id] < |st.scopes|
      && r.locals == st.locals[id := r.locals[id]]
  {
    match HolderBelow(st.scopes, name.lexeme, |st.scopes|)
    case None => st
    case Some(i) => st.(locals := st.locals[id := |st.scopes| - 1 - i])
  }

  function ResolveExpr(st: ResolverState, e: Expr): Outcome
    decreases e
  {
    match e
    case Assign(id, name, value) =>
      (match ResolveExpr(st, value)
       case Completed(s1) => Completed(ResolveLocal(s1, id, name))
       case thrown => thrown)
    case Binary(left, _, right) =>
      (match ResolveExpr(st, left)
       case Completed(s1) => ResolveExpr(s1, right)
       case thrown => thrown)
    case Call(callee, _, arguments) =>
      (match ResolveExpr(st, callee)
       case Completed(s1) => ResolveExprs(s1, arguments)
       case thrown => thrown)
    case Get(target, _) => ResolveExpr(st, target)
    case Grouping(inner) => ResolveExpr(st, inner)
    case Literal(_) => Completed(st)
    case Logical(left, _, right) =>
      (match ResolveExpr(st, left)
       case Completed(s1) => ResolveExpr(s1, right)
       case thrown => thrown)
    case Set(target, _, value) =>
      (match ResolveExpr(st, value)
       case Completed(s1) => ResolveExpr(s1, target)
       case thrown => thrown)
    case Unary(_, right) => ResolveExpr(st, right)
    case Variable(id, name) => ResolveVariable(st, id, name)
  }

  function ResolveExprs(st: ResolverState, es: seq<Expr>): Outcome
    decreases es
  {
    if |es| == 0 then Completed(st)
    else
      match ResolveExpr(st, es[0])
      case Completed(s1) => ResolveExprs(s1, es[1..])
      case thrown => thrown
  }

  /**
   * A variable read: with a scope open, the top scope's indexer throws when the
   * name is absent there, and a name declared but not defined is reported.
   */
  function ResolveVariable(st: ResolverState, id: nat, name: Token): Outcome {
    if |st.scopes| > 0 && name.lexeme !in st.scopes[0] then Threw(KeyNotFound, st)
    else
      var checked := if |st.scopes| > 0 && !st.scopes[0][name.lexeme] then Report(st, name, OwnInitializer) else st;
      Completed(ResolveLocal(checked, id, name))
  }

  function ResolveStmt(st: ResolverState, s: Stmt): Outcome
    decreases s
  {
    match s
    case Block(statements) =>
      (match ResolveStmts(BeginScope(st), statements)
       case Completed(s1) => EndScope(s1)
       case thrown => thrown)
    case Class(name, methods) =>
      (match Declare(st, name)
       case Completed(s1) => ResolveMethods(Define(s1, name), methods)
       case thrown => thrown)
    case Expression(e) => ResolveExpr(st, e)
    case Function(declaration) =>
      (match Declare(st, declaration.name)
       case Completed(s1) => ResolveFunction(Define(s1, declaration.name), declaration, FUNCTION)
       case thrown => thrown)
    case If(condition, thenBranch, elseBranch) =>
      (match ResolveExpr(st, condition)
       case Completed(s1) =>
         (match ResolveStmt(s1, thenBranch)
          case Completed(s2) => if elseBranch.Some? then ResolveStmt(s2, elseBranch.value) else Completed(s2)
          case thrown => thrown)
       case thrown => thrown)
    case Return(keyword, value) =>
      var checked := if st.currentFunction == NONE then Report(st, keyword, TopLevelReturn) else st;
      if value.Some? then ResolveExpr(checked, value.value) else Completed(checked)
    case Print(e) => ResolveExpr(st, e)
    case Var(name, initializer) =>
      (match Declare(st, name)
       case Completed(s1) =>
         if initializer.Some? then
           (match ResolveExpr(s1, initializer.value)
            case Completed(s2) => Completed(Define(s2, name))
            case thrown => thrown)
         else Completed(Define(s1, name))
       case thrown => thrown)
    case While(condition, body) =>
      match ResolveExpr(st, condition)
      case Completed(s1) => ResolveStmt(s1, body)
      case thrown => thrown
  }

  function ResolveStmts(st: ResolverState, ss: seq<Stmt>): Outcome
    decreases ss
  {
    if |ss| == 0 then Completed(st)
    else
      match ResolveStmt(st, ss[0])
      case Completed(s1) => ResolveStmts(s1, ss[1..])
      case thrown => thrown
  }

  /** A class's methods, each resolved as a function of kind METHOD. */
  function ResolveMethods(st: ResolverState, methods: seq<FunDecl>): Outcome
    decreases methods
  {
    if |methods| == 0 then Completed(st)
    else
      match ResolveFunction(st, methods[0], METHOD)
      case Completed(s1) => ResolveMethods(s1, methods[1..])
      case thrown => thrown
  }

  /**
   * A function body in a fresh scope holding its parameters, with
   * `currentFunction` set to `kind` for the body and restored after it.
   */
  function ResolveFunction(st: ResolverState, f: FunDecl, kind: FunctionType): Outcome
    decreases f
  {
    match DeclareParams(BeginScope(st.(currentFunction := kind)), f.params)
    case Completed(s1) =>
      (match ResolveStmts(s1, f.body)
       case Completed(s2) => EndScope(s2.(currentFunction := st.currentFunction))
       case thrown => thrown)
    case thrown => thrown
  }

  /** Each parameter declared, then defined. */
  function DeclareParams(st: ResolverState, params: seq<Token>): Outcome
    decreases params
  {
    if |params| == 0 then Completed(st)
    else
      match Declare(st, params[0])
      case Completed(s1) => DeclareParams(Define(s1, params[0]), params[1..])
      case thrown => thrown
  }

  /** A step that completes leaves as many scopes open as it found, and the same function kind. */
  predicate Restored(before: ResolverState, r: Outcome) {
    r.Completed? ==> |r.state.scopes| == |before.scopes| && r.state.currentFunction == before.currentFunction
  }

  /**
   * Resolving an expression changes neither the scopes nor the function kind,
   * whatever its outcome, and only adds to the diagnostics.
   */
  lemma {:induction false} ExprKeepsScopes(st: ResolverState, e: Expr)
    ensures ResolveExpr(st, e).state.scopes == st.scopes
    ensures ResolveExpr(st, e).state.currentFunction == st.currentFunction
    ensures st.diagnostics <= ResolveExpr(st, e).state.diagnostics
    decreases e
  {
    match e
    case Assign(_, _, value) =>
      ExprKeepsScopes(st, value);
    case Binary(left, _, right) =>
      ExprKeepsScopes(st, left);
      ExprKeepsScopes(ResolveExpr(st, left).state, right);
    case Call(callee, _, arguments) =>
      ExprKeepsScopes(st, callee);
      ExprsKeepScopes(ResolveExpr(st, callee).state, arguments);
    case Get(target, _) =>
      ExprKeepsScopes(st, target);
    case Grouping(inner) =>
      ExprKeepsScopes(st, inner);
    case Literal(_) =>
    case Logical(left, _, right) =>
      ExprKeepsScopes(st, left);
      ExprKeepsScopes(ResolveExpr(st, left).state, right);
    case Set(target, _, value) =>
      ExprKeepsScopes(st, value);
      ExprKeepsScopes(ResolveExpr(st, value).state, target);
    case Unary(_, right) =>
      ExprKeepsScopes(st, right);
    case Variable(_, _) =>
  }

  lemma {:induction false} ExprsKeepScopes(st: ResolverState, es: seq<Expr>)
    ensures ResolveExprs(st, es).state.scopes == st.scopes
    ensures ResolveExprs(st, es).state.currentFunction == st.currentFunction
    ensures st.diagnostics <= ResolveExprs(st, es).state.diagnostics
    decreases es
  {
    if |es| > 0 {
      ExprKeepsScopes(st, es[0]);
      ExprsKeepScopes(ResolveExpr(st, es[0]).state, es[1..]);
    }
  }

  /**
   * Scope pushes and pops balance: a statement that resolves without throwing
   * leaves the stack as deep as it found it and the function kind unchanged.
   */
  lemma {:induction false} StmtRestores(st: ResolverState, s: Stmt)
    ensures Restored(st, ResolveStmt(st, s))
    decreases s
  {
    match s
    case Block(statements) =>
      StmtsRestore(BeginScope(st), statements);
    case Class(name, methods) =>
      if Declare(st, name).Completed? {
        MethodsRestore(Define(Declare(st, name).state, name), methods);
      }
    case Expression(e) =>
      ExprKeepsScopes(st, e);
    case Function(declaration) =>
      if Declare(st, declaration.name).Completed? {
        FunctionRestores(Define(Declare(st, declaration.name).state, declaration.name), declaration, FUNCTION);
      }
    case If(condition, thenBranch, elseBranch) =>
      ExprKeepsScopes(st, condition);
      var s1 := ResolveExpr(st, condition).state;
      StmtRestores(s1, thenBranch);
      if elseBranch.Some? {
        StmtRestores(ResolveStmt(s1, thenBranch).state, elseBranch.value);
      }
    case Return(keyword, value) =>
      if value.Some? {
        ExprKeepsScopes(if st.currentFunction == NONE then Report(st, keyword, TopLevelReturn) else st, value.value);
      }
    case Print(e) =>
      ExprKeepsScopes(st, e);
    case Var(name, initializer) =>
      if initializer.Some? && Declare(st, name).Completed? {
        ExprKeepsScopes(Declare(st, name).state, initializer.value);
      }
    case While(condition, body) =>
      ExprKeepsScopes(st, condition);
      StmtRestores(ResolveExpr(st, condition).state, body);
  }

  lemma {:induction false} StmtsRestore(st: ResolverState, ss: seq<Stmt>)
    ensures Restored(st, ResolveStmts(st, ss))
    decreases ss
  {
    if |ss| > 0 {
      StmtRestores(st, ss[0]);
      match ResolveStmt(st, ss[0])
      case Completed(s1) =>
        StmtsRestore(s1, ss[1..]);
      case Threw(_, _) =>
    }
  }

  lemma {:induction false} MethodsRestore(st: ResolverState, methods: seq<FunDecl>)
    ensures Restored(st, ResolveMethods(st, methods))
    decreases methods
  {
    if |methods| > 0 {
      FunctionRestores(st, methods[0], METHOD);
      match ResolveFunction(st, methods[0], METHOD)
      case Completed(s1) =>
        MethodsRestore(s1, methods[1..]);
      case Threw(_, _) =>
    }
  }

  /** A function's scope is popped and the enclosing function kind restored once its body is resolved. */
  lemma {:induction false} FunctionRestores(st: ResolverState, f: FunDecl, kind: FunctionType)
    ensures Restored(st, ResolveFunction(st, f, kind))
    decreases f
  {
    var entered := BeginScope(st.(currentFunction := kind));
    ParamsDefined(entered, f.params);
    match DeclareParams(entered, f.params)
    case Completed(s1) =>
      StmtsRestore(s1, f.body);
    case Threw(_, _) =>
  }

  /**
   * Declaring the parameters keeps the depth and the function kind, and leaves
   * each parameter declared and defined in the top scope.
   */
  lemma {:induction false} ParamsDefined(st: ResolverState, params: seq<Token>)
    requires |st.scopes| > 0
    ensures var r := DeclareParams(st, params);
      r.Completed? ==>
        && |r.state.scopes| == |st.scopes| && r.state.currentFunction == st.currentFunction
        && r.state.scopes[1..] == st.scopes[1..]
        && forall p :: p in params ==> p.lexeme in r.state.scopes[0] && r.state.scopes[0][p.lexeme]
    decreases params
  {
    if |params| > 0 {
      match Declare(st, params[0])
      case Completed(s1) =>
        var s2 := Define(s1, params[0]);
        ParamsDefined(s2, params[1..]);
        var r := DeclareParams(s2, params[1..]);
        if r.Completed? {
          forall p | p in params
            ensures p.lexeme in r.state.scopes[0] && r.state.scopes[0][p.lexeme]
          {
            if p != params[0] {
              assert p in params[1..];
            } else {
              DefinedStaysDefined(s2, params[1..], p.lexeme);
            }
          }
        }
      case Threw(_, _) =>
    }
  }

  /** Later parameters never turn an earlier defined name back to undefined. */
  lemma {:induction false} DefinedStaysDefined(st: ResolverState, params: seq<Token>, name: string)
    requires |st.scopes| > 0 && name in st.scopes[0] && st.scopes[0][name]
    ensures var r := DeclareParams(st, params);
      r.Completed? ==> |r.state.scopes| > 0 && name in r.state.scopes[0] && r.state.scopes[0][name]
    decreases params
  {
    if |params| > 0 {
      match Declare(st, params[0])
      case Completed(s1) =>
        DefinedStaysDefined(Define(s1, params[0]), params[1..], name);
      case Threw(_, _) =>
    }
  }

  /**
   * The body of a function is resolved with `currentFunction` set to its kind,
   * in one more scope than its declaration, whose top holds every parameter
   * declared and defined.
   */
  lemma FunctionBodyScope(st: ResolverState, f: FunDecl, kind: FunctionType)
    ensures var r := DeclareParams(BeginScope(st.(currentFunction := kind)), f.params);
      r.Completed? ==>
        && r.state.currentFunction == kind
        && |r.state.scopes| == |st.scopes| + 1 && r.state.scopes[1..] == st.scopes
        && forall p :: p in f.params ==> p.lexeme in r.state.scopes[0] && r.state.scopes[0][p.lexeme]
  {
    ParamsDefined(BeginScope(st.(currentFunction := kind)), f.params);
  }

  /**
   * While a local `var`'s initializer is resolved its name is declared but not
   * defined, so a read of it there is reported; once defined, a read is not.
   */
  lemma InitializerSeesDeclared(st: ResolverState, name: Token, id: nat, read: Token)
    requires |st.scopes| > 0 && name.lexeme !in st.scopes[0]
    requires read.lexeme == name.lexeme
    ensures Declare(st, name).Completed?
    ensures var during := Declare(st, name).state;
      ResolveVariable(during, id, read) == Completed(ResolveLocal(Report(during, read, OwnInitializer), id, read))
    ensures var after := Define(Declare(st, name).state, name);
      ResolveVariable(after, id, read) == Completed(ResolveLocal(after, id, read))
  {
  }

  /**
   * `return` is reported exactly when no function is being resolved: the
   * report comes first and stays, whatever resolving the returned value adds;
   * inside a function the statement only resolves its value.
   */
  lemma ReturnReported(st: ResolverState, keyword: Token, value: Option<Expr>)
    ensures var r := ResolveStmt(st, Return(keyword, value));
      && (st.currentFunction == NONE ==>
            && |r.state.diagnostics| > |st.diagnostics|
            && r.state.diagnostics[..|st.diagnostics| + 1] == st.diagnostics + [AtToken(keyword, TopLevelReturn)])
      && (st.currentFunction != NONE ==>
            r == if value.Some? then ResolveExpr(st, value.value) else Completed(st))
      && (value.None? ==> r.Completed?)
  {
    if st.currentFunction == NONE {
      var checked := Report(st, keyword, TopLevelReturn);
      if value.Some? {
        ExprKeepsScopes(checked, value.value);
      }
    }
  }

  /**
   * The distance recorded for a name is counted from the bottom of the stack to
   * the outermost scope holding it: `Count - 1 - i` for the largest such index `i`.
   */
  lemma OutermostHolderCounts(st: ResolverState, id: nat, name: Token, i: nat)
    requires i < |st.scopes| && name.lexeme in st.scopes[i]
    requires forall j :: i < j < |st.scopes| ==> name.lexeme !in st.scopes[j]
    ensures ResolveLocal(st, id, name).locals == st.locals[id := |st.scopes| - 1 - i]
  {
    var found := HolderBelow(st.scopes, name.lexeme, |st.scopes|);
    assert found.Some?;
    assert found.value == i;
  }

  /** With one scope open, a name found there is recorded at distance 0. */
  lemma OneScopeRecordsZero(st: ResolverState, id: nat, name: Token)
    requires |st.scopes| == 1 && name.lexeme in st.scopes[0]
    ensures ResolveLocal(st, id, name).locals == st.locals[id := 0]
  {
    OutermostHolderCounts(st, id, name, 0);
  }

  /**
   * A name held only by the innermost of several scopes is recorded at distance
   * `Count - 1`, not 0: the count starts from the outermost scope.
   */
  lemma InnermostOnlyRecordsDepth(st: ResolverState, id: nat, name: Token)
    requires |st.scopes| > 0 && name.lexeme in st.scopes[0]
    requires forall j :: 0 < j < |st.scopes| ==> name.lexeme !in st.scopes[j]
    ensures ResolveLocal(st, id, name).locals == st.locals[id := |st.scopes| - 1]
  {
    OutermostHolderCounts(st, id, name, 0);
  }
}
