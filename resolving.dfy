/**
 * The resolver object: a stack of scopes, the kind of function being resolved,
 * the diagnostics reported and the side table of distances, updated in place
 * by one visitor method per syntax node. Each method is proved against the
 * resolution function of its node: it ends in the state that function
 * computes, and throws exactly when it throws.
 */
module Resolving {
  import opened Tokens
  import opened Outcomes
  import opened Syntax
  import opened Resolution

  /** The outcome a method's final state and exception describe. */
  function Finished(thrown: Option<HostException>, st: ResolverState): (r: Outcome)
    ensures r.state == st && (r.Threw? <==> thrown.Some?)
  {
    if thrown.Some? then Threw(thrown.value, st) else Completed(st)
  }

  class Resolver {
    /** The scope stack; index 0 is the top. */
    var scopes: seq<Scope>
    var currentFunction: FunctionType
    var diagnostics: seq<Diagnostic>
    /** The distances handed to the interpreter, keyed by node id. */
    var locals: map<nat, nat>

    function State(): ResolverState
      reads this
    {
      ResolverState(scopes, currentFunction, diagnostics, locals)
    }

    constructor ()
      ensures State() == ResolverState([], NONE, [], map[])
    {
      scopes := [];
      currentFunction := NONE;
      diagnostics := [];
      locals := map[];
    }

    /** Resolves the statements in order, stopping at the first exception. */
    method ResolveAll(statements: seq<Stmt>) returns (thrown: Option<HostException>)
      modifies this
      ensures Finished(thrown, State()) == ResolveStmts(old(State()), statements)
      decreases statements
    {
      for i := 0 to |statements|
        invariant ResolveStmts(old(State()), statements) == ResolveStmts(State(), statements[i..])
      {
        assert statements[i..][1..] == statements[i + 1..];
        thrown := ResolveStmt(statements[i]);
        if thrown.Some? {
          return;
        }
      }
      thrown := None;
    }

    method ResolveStmt(s: Stmt) returns (thrown: Option<HostException>)
      modifies this
      ensures Finished(thrown, State()) == Resolution.ResolveStmt(old(State()), s)
      decreases s, 1
    {
      match s
      case Block(_) =>
        thrown := VisitBlockStmt(s);
      case Class(_, _) =>
        thrown := VisitClassStmt(s);
      case Expression(e) =>
        thrown := ResolveExpr(e);
      case Function(declaration) =>
        thrown := VisitFunctionStmt(s);
      case If(_, _, _) =>
        thrown := VisitIfStmt(s);
      case Return(_, _) =>
        thrown := VisitReturnStmt(s);
      case Print(e) =>
        thrown := ResolveExpr(e);
      case Var(_, _) =>
        thrown := VisitVarStmt(s);
      case While(condition, body) =>
        thrown := ResolveExpr(condition);
        if thrown.None? {
          thrown := ResolveStmt(body);
        }
    }

    method VisitBlockStmt(s: Stmt) returns (thrown: Option<HostException>)
      requires s.Block?
      modifies this
      ensures Finished(thrown, State()) == Resolution.ResolveStmt(old(State()), s)
      decreases s, 0
    {
      BeginScope();
      thrown := ResolveAll(s.statements);
      if thrown.None? {
        thrown := EndScope();
      }
    }

    method VisitClassStmt(s: Stmt) returns (thrown: Option<HostException>)
      requires s.Class?
      modifies this
      ensures Finished(thrown, State()) == Resolution.ResolveStmt(old(State()), s)
      decreases s, 0
    {
      thrown := Declare(s.name);
      if thrown.Some? {
        return;
      }
      Define(s.name);
      ghost var start := State();
      for i := 0 to |s.methods|
        invariant ResolveMethods(start, s.methods) == ResolveMethods(State(), s.methods[i..])
      {
        assert s.methods[i..][1..] == s.methods[i + 1..];
        thrown := ResolveFunction(s.methods[i], METHOD);
        if thrown.Some? {
          return;
        }
      }
      thrown := None;
    }

    method VisitFunctionStmt(s: Stmt) returns (thrown: Option<HostException>)
      requires s.Function?
      modifies this
      ensures Finished(thrown, State()) == Resolution.ResolveStmt(old(State()), s)
      decreases s, 0
    {
      thrown := Declare(s.declaration.name);
      if thrown.Some? {
        return;
      }
      Define(s.declaration.name);
      thrown := ResolveFunction(s.declaration, FUNCTION);
    }

    method VisitIfStmt(s: Stmt) returns (thrown: Option<HostException>)
      requires s.If?
      modifies this
      ensures Finished(thrown, State()) == Resolution.ResolveStmt(old(State()), s)
      decreases s, 0
    {
      thrown := ResolveExpr(s.condition);
      if thrown.Some? {
        return;
      }
      thrown := ResolveStmt(s.thenBranch);
      if thrown.Some? {
        return;
      }
      if s.elseBranch.Some? {
        thrown := ResolveStmt(s.elseBranch.value);
      }
    }

    method VisitReturnStmt(s: Stmt) returns (thrown: Option<HostException>)
      requires s.Return?
      modifies this
      ensures Finished(thrown, State()) == Resolution.ResolveStmt(old(State()), s)
      decreases s, 0
    {
      if currentFunction == NONE {
        diagnostics := diagnostics + [AtToken(s.keyword, TopLevelReturn)];
      }
      thrown := None;
      if s.value.Some? {
        thrown := ResolveExpr(s.value.value);
      }
    }

    method VisitVarStmt(s: Stmt) returns (thrown: Option<HostException>)
      requires s.Var?
      modifies this
      ensures Finished(thrown, State()) == Resolution.ResolveStmt(old(State()), s)
      decreases s, 0
    {
      thrown := Declare(s.name);
      if thrown.Some? {
        return;
      }
      if s.initializer.Some? {
        thrown := ResolveExpr(s.initializer.value);
        if thrown.Some? {
          return;
        }
      }
      Define(s.name);
    }

    method ResolveExpr(e: Expr) returns (thrown: Option<HostException>)
      modifies this
      ensures Finished(thrown, State()) == Resolution.ResolveExpr(old(State()), e)
      decreases e, 1
    {
      match e
      case Assign(id, name, value) =>
        thrown := ResolveExpr(value);
        if thrown.None? {
          ResolveLocal(id, name);
        }
      case Binary(left, _, right) =>
        thrown := ResolveExpr(left);
        if thrown.None? {
          thrown := ResolveExpr(right);
        }
      case Call(_, _, _) =>
        thrown := VisitCallExpr(e);
      case Get(target, _) =>
        thrown := ResolveExpr(target);
      case Grouping(inner) =>
        thrown := ResolveExpr(inner);
      case Literal(_) =>
        thrown := None;
      case Logical(left, _, right) =>
        thrown := ResolveExpr(left);
        if thrown.None? {
          thrown := ResolveExpr(right);
        }
      case Set(target, _, value) =>
        thrown := ResolveExpr(value);
        if thrown.None? {
          thrown := ResolveExpr(target);
        }
      case Unary(_, right) =>
        thrown := ResolveExpr(right);
      case Variable(id, name) =>
        thrown := VisitVariableExpr(id, name);
    }

    /** The callee, then each argument in order. */
    method VisitCallExpr(e: Expr) returns (thrown: Option<HostException>)
      requires e.Call?
      modifies this
      ensures Finished(thrown, State()) == Resolution.ResolveExpr(old(State()), e)
      decreases e, 0
    {
      thrown := ResolveExpr(e.callee);
      if thrown.Some? {
        return;
      }
      ghost var start := State();
      for i := 0 to |e.arguments|
        invariant ResolveExprs(start, e.arguments) == ResolveExprs(State(), e.arguments[i..])
      {
        assert e.arguments[i..][1..] == e.arguments[i + 1..];
        thrown := ResolveExpr(e.arguments[i]);
        if thrown.Some? {
          return;
        }
      }
      thrown := None;
    }

    method VisitVariableExpr(id: nat, name: Token) returns (thrown: Option<HostException>)
      modifies this
      ensures Finished(thrown, State()) == ResolveVariable(old(State()), id, name)
    {
      if |scopes| > 0 {
        if name.lexeme !in scopes[0] {
          return Some(KeyNotFound);
        }
        if !scopes[0][name.lexeme] {
          diagnostics := diagnostics + [AtToken(name, OwnInitializer)];
        }
      }
      ResolveLocal(id, name);
      thrown := None;
    }

    /**
     * A function: its kind set for the body, a fresh scope holding each
     * parameter, the body, then the enclosing kind restored and the scope popped.
     */
    method ResolveFunction(f: FunDecl, kind: FunctionType) returns (thrown: Option<HostException>)
      modifies this
      ensures Finished(thrown, State()) == Resolution.ResolveFunction(old(State()), f, kind)
      decreases f
    {
      var enclosingFunction := currentFunction;
      currentFunction := kind;
      BeginScope();
      ghost var entered := State();
      for i := 0 to |f.params|
        invariant DeclareParams(entered, f.params) == DeclareParams(State(), f.params[i..])
      {
        assert f.params[i..][1..] == f.params[i + 1..];
        thrown := Declare(f.params[i]);
        if thrown.Some? {
          return;
        }
        Define(f.params[i]);
      }
      thrown := ResolveAll(f.body);
      if thrown.Some? {
        return;
      }
      currentFunction := enclosingFunction;
      thrown := EndScope();
    }

    method BeginScope()
      modifies this`scopes
      ensures State() == Resolution.BeginScope(old(State()))
    {
      scopes := [map[]] + scopes;
    }

    method EndScope() returns (thrown: Option<HostException>)
      modifies this`scopes
      ensures Finished(thrown, State()) == Resolution.EndScope(old(State()))
    {
      if |scopes| == 0 {
        return Some(EmptyStack);
      }
      scopes := scopes[1..];
      thrown := None;
    }

    method Declare(name: Token) returns (thrown: Option<HostException>)
      modifies this`scopes, this`diagnostics
      ensures Finished(thrown, State()) == Resolution.Declare(old(State()), name)
    {
      thrown := None;
      if |scopes| == 0 {
        return;
      }
      var scope := scopes[0];
      if name.lexeme in scope {
        diagnostics := diagnostics + [AtToken(name, DuplicateVariable)];
        return Some(DuplicateKey);
      }
      scopes := scopes[0 := scope[name.lexeme := false]];
    }

    method Define(name: Token)
      modifies this`scopes
      ensures State() == Resolution.Define(old(State()), name)
    {
      if |scopes| == 0 {
        return;
      }
      scopes := scopes[0 := scopes[0][name.lexeme := true]];
    }

    /**
     * Tries the scopes from index `Count - 1` down to 0 and records
     * `Count - 1 - i` for the first index `i` whose scope holds the name.
     */
    method ResolveLocal(id: nat, name: Token)
      modifies this`locals
      ensures State() == Resolution.ResolveLocal(old(State()), id, name)
    {
      var i := |scopes| - 1;
      while i >= 0
        invariant -1 <= i < |scopes|
        invariant HolderBelow(scopes, name.lexeme, i + 1) == HolderBelow(scopes, name.lexeme, |scopes|)
        invariant locals == old(locals)
        decreases i
      {
        if name.lexeme in scopes[i] {
          locals := locals[id := |scopes| - i - 1];
          return;
        }
        i := i - 1;
      }
    }
  }
}
