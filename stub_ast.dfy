/**
 * The part of Python's `ast` that the stub rewriters read and build:
 * expressions used as annotations and bases, and the statements of a
 * module, class or function body. Parsing and unparsing are not modelled;
 * trees are given as values.
 */
module StubAst {
  import opened Wrappers

  datatype Literal = NoneLiteral | StrLiteral(text: string) | OtherLiteral(repr: string)

  datatype Operator = BitOr | OtherOperator

  datatype Expr =
    | Name(id: string)
    | Attribute(value: Expr, attr: string)
    | Subscript(value: Expr, slice: Expr)
    | Tuple(elts: seq<Expr>)
    | BinOp(left: Expr, op: Operator, right: Expr)
    | Constant(literal: Literal)
    | Call(func: Expr, args: seq<Expr>)
    | OtherExpr(kind: string, children: seq<Expr>)

  /** One `ast.arg`: a parameter name and its optional annotation. */
  datatype Arg = Arg(name: string, annotation: Option<Expr>)

  /** `ast.arguments`, without positional-only parameters and defaults. */
  datatype Params = Params(args: seq<Arg>, vararg: Option<Arg>, kwonly: seq<Arg>, kwarg: Option<Arg>)

  datatype Stmt =
    | ClassDef(name: string, bases: seq<Expr>, typeParams: seq<string>, body: seq<Stmt>)
    | FunctionDef(name: string, isAsync: bool, params: Params, returnType: Option<Expr>,
                  body: seq<Stmt>, decorators: seq<Expr>)
    | Assign(targets: seq<Expr>, value: Expr)
    | AnnAssign(target: Expr, annotation: Expr, initial: Option<Expr>)
    | ExprStmt(expr: Expr)
    | Pass
    | OtherStmt(kind: string)

  type Module = seq<Stmt>

  /** A statement that is a string literal, as a docstring is written. */
  function DocExpr(text: string): Stmt {
    ExprStmt(Constant(StrLiteral(text)))
  }

  function NoParams(): Params {
    Params([], None, [], None)
  }

  /** `ast.get_docstring(node, clean=False)` on a function or class body. */
  function GetDocstring(body: seq<Stmt>): (r: Option<string>)
    ensures r.Some? ==> |body| > 0 && body[0] == DocExpr(r.value)
    ensures r.None? ==> forall t :: |body| == 0 || body[0] != DocExpr(t)
  {
    if |body| > 0 && body[0].ExprStmt? && body[0].expr.Constant? && body[0].expr.literal.StrLiteral? then
      Some(body[0].expr.literal.text)
    else None
  }

  /** What `ast.parse` guarantees: no class or function has an empty body. */
  predicate WellFormed(s: Stmt) {
    match s
    case ClassDef(_, _, _, body) => |body| > 0 && BodyWellFormed(body)
    case FunctionDef(_, _, _, _, body, _) => |body| > 0 && BodyWellFormed(body)
    case _ => true
  }

  predicate BodyWellFormed(ss: seq<Stmt>) {
    forall k :: 0 <= k < |ss| ==> WellFormed(ss[k])
  }

  // Measures used to show that the tree walks terminate.

  function ExprSize(e: Expr): nat {
    match e
    case Attribute(v, _) => 1 + ExprSize(v)
    case Subscript(v, s) => 1 + ExprSize(v) + ExprSize(s)
    case Tuple(es) => 1 + ExprsSize(es)
    case BinOp(l, _, r) => 1 + ExprSize(l) + ExprSize(r)
    case Call(f, xs) => 1 + ExprSize(f) + ExprsSize(xs)
    case OtherExpr(_, cs) => 1 + ExprsSize(cs)
    case _ => 1
  }

  function ExprsSize(es: seq<Expr>): nat {
    if es == [] then 0 else ExprSize(es[0]) + ExprsSize(es[1..])
  }

  lemma {:induction false} ExprsSizeAppend(a: seq<Expr>, b: seq<Expr>)
    ensures ExprsSize(a + b) == ExprsSize(a) + ExprsSize(b)
  {
    if a != [] {
      assert (a + b)[1..] == a[1..] + b;
      ExprsSizeAppend(a[1..], b);
    } else {
      assert a + b == b;
    }
  }

  function StmtSize(s: Stmt): nat {
    match s
    case ClassDef(_, _, _, body) => 1 + BodySize(body)
    case FunctionDef(_, _, _, _, body, _) => 1 + BodySize(body)
    case _ => 1
  }

  function BodySize(ss: seq<Stmt>): nat {
    if ss == [] then 0 else StmtSize(ss[0]) + BodySize(ss[1..])
  }

  /** Classes in a statement, counting nested ones. */
  function ClassCount(s: Stmt): nat {
    match s
    case ClassDef(_, _, _, body) => 1 + BodyClassCount(body)
    case FunctionDef(_, _, _, _, body, _) => BodyClassCount(body)
    case _ => 0
  }

  function BodyClassCount(ss: seq<Stmt>): nat {
    if ss == [] then 0 else ClassCount(ss[0]) + BodyClassCount(ss[1..])
  }

  lemma {:induction false} BodyMeasuresAppend(a: seq<Stmt>, b: seq<Stmt>)
    ensures BodySize(a + b) == BodySize(a) + BodySize(b)
    ensures BodyClassCount(a + b) == BodyClassCount(a) + BodyClassCount(b)
  {
    if a != [] {
      assert (a + b)[1..] == a[1..] + b;
      BodyMeasuresAppend(a[1..], b);
    } else {
      assert a + b == b;
    }
  }

  lemma {:induction false} BodyMeasuresBound(ss: seq<Stmt>, k: nat)
    requires k < |ss|
    ensures StmtSize(ss[k]) <= BodySize(ss)
    ensures ClassCount(ss[k]) <= BodyClassCount(ss)
  {
    if k > 0 {
      BodyMeasuresBound(ss[1..], k - 1);
    }
  }

  /** A body's measures, taken one statement at a time. */
  lemma BodyMeasuresSnoc(ss: seq<Stmt>, s: Stmt)
    ensures BodySize(ss + [s]) == BodySize(ss) + StmtSize(s)
    ensures BodyClassCount(ss + [s]) == BodyClassCount(ss) + ClassCount(s)
  {
    BodyMeasuresAppend(ss, [s]);
    assert [s][1..] == [];
  }
}
