/**
 * The two closed families of syntax nodes. Nodes the resolver records a
 * scope distance for (`Variable` and `Assign`) carry an `id` that stands for
 * the node's object identity.
 */
module Syntax {
  import opened Tokens
  import opened Outcomes

  datatype Expr =
    | Assign(id: nat, name: Token, value: Expr)
    | Binary(left: Expr, operator: Token, right: Expr)
    | Call(callee: Expr, paren: Token, arguments: seq<Expr>)
    | Get(target: Expr, name: Token)
    | Grouping(expression: Expr)
    | Literal(literal: LiteralValue)
    | Logical(left: Expr, operator: Token, right: Expr)
    | Set(target: Expr, name: Token, value: Expr)
    | Unary(operator: Token, right: Expr)
    | Variable(id: nat, name: Token)

  datatype Stmt =
    | Block(statements: seq<Stmt>)
    | Class(name: Token, methods: seq<FunDecl>)
    | Expression(expression: Expr)
    | Function(declaration: FunDecl)
    | If(condition: Expr, thenBranch: Stmt, elseBranch: Option<Stmt>)
    | Return(keyword: Token, value: Option<Expr>)
    | Print(expression: Expr)
    | Var(name: Token, initializer: Option<Expr>)
    | While(condition: Expr, body: Stmt)

  /** A function declaration: also the shape of every method of a class. */
  datatype FunDecl = FunDecl(name: Token, params: seq<Token>, body: seq<Stmt>)

  /** The expressions the evaluator and the debug printer have a visitor for. */
  predicate Core(e: Expr) {
    match e
    case Binary(l, _, r) => Core(l) && Core(r)
    case Grouping(x) => Core(x)
    case Literal(_) => true
    case Unary(_, x) => Core(x)
    case _ => false
  }
}
