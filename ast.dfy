/** The closed fragment of the ESTree syntax tree that the scope analyser consumes.
    Source text, positions and tokens are not modelled: a tree is taken as already parsed.
    Identifiers are compared by name; object keys and member names are never references. */
module Ast {

  datatype Option<+T> = None | Some(value: T)

  /** The `kind` of a VariableDeclaration. */
  datatype DeclKind = Var | Let | Const

  /** `=` versus a compound operator such as `+=`. */
  datatype AssignOp = Plain | Compound

  datatype Expr =
    | Ident(name: string)                          // an identifier in expression position
    | Literal                                      // numbers, strings, ... : no identifiers
    | ArrayExpr(elements: seq<Expr>)               // [e1, e2, ...]
    | ObjectExpr(properties: seq<Property>)        // {k1: e1, ...} with non-computed keys
    | Member(object: Expr, property: string)       // object.property (non-computed)
    | Call(callee: Expr, arguments: seq<Expr>)     // callee(args)
    | New(callee: Expr, arguments: seq<Expr>)      // new callee(args)
    | Assign(op: AssignOp, left: Target, right: Expr)
    | Function(fn: Func)                           // an anonymous function expression

  datatype Property = Property(key: string, value: Expr)

  /** What a function declaration and a function expression share: its parameters and the
      statements of its body block. */
  datatype Func = Func(params: seq<Pattern>, body: seq<Stmt>)

  /** The left-hand side of an assignment or of a for-in head without a declaration. */
  datatype Target =
    | PatternTarget(pattern: Pattern)
    | MemberTarget(object: Expr, property: string)

  /** Binding and assignment patterns. */
  datatype Pattern =
    | Id(name: string)                             // a leaf
    | ArrayPat(elements: seq<Pattern>)             // [p1, p2, ...]
    | ObjectPat(properties: seq<PatProperty>)      // {k1: p1, ...}; `{a}` is PatProperty("a", Id("a"))
    | WithDefault(left: Pattern, right: Expr)      // left = right (an AssignmentPattern)

  datatype PatProperty = PatProperty(key: string, value: Pattern)

  datatype Declarator = Declarator(id: Pattern, init: Option<Expr>)

  /** The head of a for-in statement: `for (let p in ...)` or `for (p in ...)`. */
  datatype ForInLeft =
    | ForDecl(kind: DeclKind, id: Pattern)
    | ForTarget(target: Target)

  datatype Stmt =
    | VarDecl(kind: DeclKind, declarations: seq<Declarator>)
    | FunctionDecl(name: string, fn: Func)
    | ClassDecl(name: string)                      // `class Name {}`
    | ExprStmt(expression: Expr)
    | ForIn(left: ForInLeft, right: Expr, loopBody: Stmt)
    | Empty

  datatype Program = Program(body: seq<Stmt>)

  /** A leaf identifier of a pattern together with the default values of the
      AssignmentPatterns that enclose it, outermost first. */
  datatype Leaf = Leaf(name: string, defaults: seq<Expr>)

  /** The leaves of a pattern in the order the pattern visitor reaches them;
      `outer` holds the defaults already enclosing `p`. */
  function Leaves(p: Pattern, outer: seq<Expr>): (r: seq<Leaf>)
    ensures forall l <- r :: |l.defaults| >= |outer| && l.defaults[..|outer|] == outer
  {
    match p
    case Id(x) => [Leaf(x, outer)]
    case ArrayPat(es) => LeavesOfSeq(es, outer)
    case ObjectPat(ps) => LeavesOfProps(ps, outer)
    case WithDefault(l, d) => Leaves(l, outer + [d])
  }

  function LeavesOfSeq(ps: seq<Pattern>, outer: seq<Expr>): (r: seq<Leaf>)
    ensures forall l <- r :: |l.defaults| >= |outer| && l.defaults[..|outer|] == outer
  {
    if ps == [] then [] else Leaves(ps[0], outer) + LeavesOfSeq(ps[1..], outer)
  }

  function LeavesOfProps(ps: seq<PatProperty>, outer: seq<Expr>): (r: seq<Leaf>)
    ensures forall l <- r :: |l.defaults| >= |outer| && l.defaults[..|outer|] == outer
  {
    if ps == [] then [] else Leaves(ps[0].value, outer) + LeavesOfProps(ps[1..], outer)
  }
}
