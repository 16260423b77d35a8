/** The Python syntax tree as the analyses see it. `ast.parse` is not modelled: its
    outcome is an input, a `ParseResult`. Node kinds the analyses do not inspect are
    kept only as far as the analyses can observe them. */
module Syntax {
  /** The payload of an `ast.Constant` that the model represents. */
  datatype Literal = LNone | LBool(b: bool) | LInt(i: int) | LStr(s: string)

  /** A binary operator; `OtherOp` stands for the ones without a symbol in the tracer
      (`@`, `<<`, `>>`, `|`, `^`, `&`). */
  datatype Operator = Add | Sub | Mult | Div | FloorDiv | Mod | Pow | OtherOp(name: string)

  /** The `func` of a call: a plain name, or any other expression, recorded by the
      class name of its node (such as "Attribute"). */
  datatype Callee = FName(id: string) | FOther(kind: string)

  /** An assignment or loop target: a plain name, or any other target node (such as
      "Tuple", "Subscript", "Attribute"). */
  datatype Target = TName(id: string) | TOther(kind: string)

  /** Expressions. `OtherExpr` is every node kind `evaluate` does not recognise
      (comparisons, unary and boolean operators, attributes, slices, tuples, ...). */
  datatype Expr =
    | Constant(lit: Literal)
    | Name(id: string)
    | BinOp(left: Expr, op: Operator, right: Expr)
    | List(elts: seq<Expr>)
    | Dict(keys: seq<Expr>, values: seq<Expr>)
    | Subscript(value: Expr, slice: Expr)
    | Call(func: Callee, args: seq<Expr>)
    | OtherExpr(kind: string)

  /** Statements. An `Assign` keeps its first target only, the one the tracer reads.
      `OtherStmt` is every other statement kind, with the statements nested in it
      (a `def` body, the blocks of a `try`, ...) in document order. */
  datatype Stmt =
    | Assign(target: Target, value: Expr)
    | ExprStmt(value: Expr)
    | If(test: Expr, body: seq<Stmt>, orelse: seq<Stmt>)
    | For(target: Target, iter: Expr, body: seq<Stmt>, orelse: seq<Stmt>)
    | While(test: Expr, body: seq<Stmt>, orelse: seq<Stmt>)
    | OtherStmt(kind: string, nested: seq<Stmt>)

  datatype Module = Module(body: seq<Stmt>)

  /** What `ast.parse` yields: a tree, or the message of the `SyntaxError` it raised. */
  datatype ParseResult = Parsed(tree: Module) | ParseFailure(message: string)

  predicate IsLoop(s: Stmt) {
    s.For? || s.While?
  }

  /** The statements directly below `s`, in the order `ast.iter_child_nodes` gives them. */
  function Children(s: Stmt): seq<Stmt> {
    match s
    case If(_, b, o) => b + o
    case For(_, _, b, o) => b + o
    case While(_, b, o) => b + o
    case OtherStmt(_, n) => n
    case _ => []
  }

  /** Number of statement nodes: the termination measure of the recursive walks. */
  function StmtSize(s: Stmt): (n: nat)
    ensures n >= 1
    decreases s
  {
    match s
    case If(_, b, o) => 1 + BlockSize(b) + BlockSize(o)
    case For(_, _, b, o) => 1 + BlockSize(b) + BlockSize(o)
    case While(_, b, o) => 1 + BlockSize(b) + BlockSize(o)
    case OtherStmt(_, n) => 1 + BlockSize(n)
    case _ => 1
  }

  function BlockSize(ss: seq<Stmt>): nat
    decreases ss
  {
    if ss == [] then 0 else StmtSize(ss[0]) + BlockSize(ss[1..])
  }

  lemma {:induction false} BlockSizeAppend(a: seq<Stmt>, b: seq<Stmt>)
    ensures BlockSize(a + b) == BlockSize(a) + BlockSize(b)
    decreases |a|
  {
    if a == [] {
      assert a + b == b;
    } else {
      assert (a + b)[0] == a[0] && (a + b)[1..] == a[1..] + b;
      BlockSizeAppend(a[1..], b);
    }
  }

  lemma {:induction false} ElementSize(ss: seq<Stmt>, k: nat)
    requires k < |ss|
    ensures StmtSize(ss[k]) <= BlockSize(ss)
    decreases k
  {
    if k > 0 {
      ElementSize(ss[1..], k - 1);
    }
  }

  lemma ChildrenSmaller(s: Stmt)
    ensures BlockSize(Children(s)) < StmtSize(s)
  {
    match s
    case If(_, b, o) => BlockSizeAppend(b, o);
    case For(_, _, b, o) => BlockSizeAppend(b, o);
    case While(_, b, o) => BlockSizeAppend(b, o);
    case _ =>
  }
}
