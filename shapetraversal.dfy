/** The whole traversal keeps the bookkeeping of module Shape. */
module ShapeTraversal {
  import opened Ast
  import opened Engine
  import opened Unfolding
  import opened Bookkeeping
  import opened Traversal

  ghost predicate Good(st: State) {
    Ready(st) && Shape(st)
  }

  lemma NewGlobalShape()
    ensures Good(NewGlobal())
  {
  }

  lemma {:induction false} WriteDefaultsShape(st: State, name: string, defaults: seq<Expr>, init: bool)
    requires Good(st)
    ensures Good(WriteDefaults(st, name, defaults, init))
    decreases |defaults|
  {
    if defaults != [] {
      ReferencingShape(st, name, Write, Some(defaults[0]), init);
      WriteDefaultsShape(Referencing(st, name, Write, Some(defaults[0]), init), name, defaults[1..], init);
    }
  }

  lemma {:induction false} DeclareLeavesShape(st: State, target: nat, kind: DeclKind, leaves: seq<Leaf>, init: Option<Expr>)
    requires Good(st) && target < |st.scopes|
    ensures Good(DeclareLeaves(st, target, kind, leaves, init))
    decreases |leaves|
  {
    if leaves != [] {
      var l := leaves[0];
      var defined := Define(st, target, l.name, Some(VariableDef(kind)));
      DefineShape(st, target, l.name, Some(VariableDef(kind)));
      var defaulted := WriteDefaults(defined, l.name, l.defaults, true);
      WriteDefaultsShape(defined, l.name, l.defaults, true);
      var written := if init.Some? then Referencing(defaulted, l.name, Write, init, true) else defaulted;
      if init.Some? {
        ReferencingShape(defaulted, l.name, Write, init, true);
      }
      DeclareLeavesShape(written, target, kind, leaves[1..], init);
    }
  }

  lemma {:induction false} BindParamsShape(st: State, leaves: seq<Leaf>)
    requires Good(st)
    ensures Good(BindParams(st, leaves))
    decreases |leaves|
  {
    if leaves != [] {
      var defined := Define(st, Current(st), leaves[0].name, Some(ParameterDef));
      DefineShape(st, Current(st), leaves[0].name, Some(ParameterDef));
      WriteDefaultsShape(defined, leaves[0].name, leaves[0].defaults, true);
      BindParamsShape(WriteDefaults(defined, leaves[0].name, leaves[0].defaults, true), leaves[1..]);
    }
  }

  lemma {:induction false} AssignLeavesShape(st: State, leaves: seq<Leaf>, right: Expr)
    requires Good(st)
    ensures Good(AssignLeaves(st, leaves, right))
    decreases |leaves|
  {
    if leaves != [] {
      var defaulted := WriteDefaults(st, leaves[0].name, leaves[0].defaults, false);
      WriteDefaultsShape(st, leaves[0].name, leaves[0].defaults, false);
      ReferencingShape(defaulted, leaves[0].name, Write, Some(right), false);
      AssignLeavesShape(Referencing(defaulted, leaves[0].name, Write, Some(right), false), leaves[1..], right);
    }
  }

  lemma {:induction false} WriteLeavesShape(st: State, leaves: seq<Leaf>, right: Expr)
    requires Good(st)
    ensures Good(WriteLeaves(st, leaves, right))
    decreases |leaves|
  {
    if leaves != [] {
      ReferencingShape(st, leaves[0].name, Write, Some(right), true);
      WriteLeavesShape(Referencing(st, leaves[0].name, Write, Some(right), true), leaves[1..], right);
    }
  }

  lemma {:induction false} VisitStmtsShape(st: State, ss: seq<Stmt>)
    requires Good(st)
    ensures Good(VisitStmts(st, ss))
    decreases ss
  {
    if ss != [] {
      VisitStmtShape(st, ss[0]);
      VisitStmtsShape(VisitStmt(st, ss[0]), ss[1..]);
    }
  }

  lemma {:induction false} VisitStmtShape(st: State, s: Stmt)
    requires Good(st)
    ensures Good(VisitStmt(st, s))
    decreases s, 2
  {
    match s
    case VarDecl(kind, ds) =>
      var target := if kind == Var then st.scopes[Current(st)].variableScope else Current(st);
      VisitDeclaratorsShape(st, target, kind, ds);
    case FunctionDecl(name, f) =>
      DefineShape(st, Current(st), name, Some(FunctionNameDef));
      VisitFunctionShape(Define(st, Current(st), name, Some(FunctionNameDef)), f);
    case ClassDecl(name) =>
      ClassDeclShape(st, name);
    case ExprStmt(e) =>
      VisitExprShape(st, e);
    case ForIn(left, right, body) =>
      if left.ForDecl? {
        ForDeclShape(st, s);
      } else {
        AssignToShape(st, Plain, left.target, right);
        VisitExprShape(AssignTo(st, Plain, left.target, right), right);
        VisitStmtShape(VisitExpr(AssignTo(st, Plain, left.target, right), right), body);
      }
    case Empty =>
  }

  lemma ClassEnterShape(st: State, name: string)
    requires Good(st)
    ensures var named := Define(st, Current(st), name, Some(ClassNameDef));
      var entered := NestScope(named, ClassScope);
      Good(Define(entered, Current(entered), name, Some(ClassNameDef)))
  {
    var named := Define(st, Current(st), name, Some(ClassNameDef));
    DefineShape(st, Current(st), name, Some(ClassNameDef));
    var entered := NestScope(named, ClassScope);
    NestShape(named, ClassScope);
    DefineShape(entered, Current(entered), name, Some(ClassNameDef));
  }

  lemma ClassDeclShape(st: State, name: string)
    requires Good(st)
    ensures Good(VisitStmt(st, ClassDecl(name)))
  {
    var named := Define(st, Current(st), name, Some(ClassNameDef));
    var entered := NestScope(named, ClassScope);
    var inner := Define(entered, Current(entered), name, Some(ClassNameDef));
    ClassDeclUnfold(st, name);
    ClassBodyUnfold(st, name);
    ClassEnterShape(st, name);
    CloseShape(inner);
  }

  lemma {:induction false} ForHeadShape(st: State, s: Stmt)
    requires Good(st) && s.ForIn? && s.left.ForDecl?
    ensures Good(ForHead(st, s.left.kind, s.left.id, s.right))
    decreases s, 0
  {
    var kind, id, right := s.left.kind, s.left.id, s.right;
    var entered := if kind != Var then NestScope(st, ForScope) else st;
    if kind != Var {
      NestShape(st, ForScope);
    }
    var target := if kind == Var then entered.scopes[Current(entered)].variableScope else Current(entered);
    DeclareLeavesShape(entered, target, kind, Leaves(id, []), None);
    var leavesDeclared := DeclareLeaves(entered, target, kind, Leaves(id, []), None);
    VisitDefaultsShape(leavesDeclared, id);
    WriteLeavesShape(VisitDefaults(leavesDeclared, id), Leaves(id, []), right);
  }

  /** A for-in statement whose head declares its variables. */
  lemma {:induction false} ForDeclShape(st: State, s: Stmt)
    requires Good(st) && s.ForIn? && s.left.ForDecl?
    ensures Good(VisitStmt(st, s))
    decreases s, 1
  {
    var head := ForHead(st, s.left.kind, s.left.id, s.right);
    ForHeadShape(st, s);
    VisitExprShape(head, s.right);
    VisitStmtShape(VisitExpr(head, s.right), s.loopBody);
    ForDeclUnfold(st, s);
    if s.left.kind != Var {
      CloseShape(VisitStmt(VisitExpr(head, s.right), s.loopBody));
    }
  }

  lemma {:induction false} VisitDeclaratorsShape(st: State, target: nat, kind: DeclKind, ds: seq<Declarator>)
    requires Good(st) && target < |st.scopes|
    ensures Good(VisitDeclarators(st, target, kind, ds))
    decreases ds
  {
    if ds != [] {
      VisitDeclaratorShape(st, target, kind, ds[0]);
      VisitDeclaratorsShape(VisitDeclarator(st, target, kind, ds[0]), target, kind, ds[1..]);
    }
  }

  lemma {:induction false} VisitDeclaratorShape(st: State, target: nat, kind: DeclKind, d: Declarator)
    requires Good(st) && target < |st.scopes|
    ensures Good(VisitDeclarator(st, target, kind, d))
    decreases d
  {
    DeclareLeavesShape(st, target, kind, Leaves(d.id, []), d.init);
    var leavesDeclared := DeclareLeaves(st, target, kind, Leaves(d.id, []), d.init);
    VisitDefaultsShape(leavesDeclared, d.id);
    match d.init {
      case Some(e) => VisitExprShape(VisitDefaults(leavesDeclared, d.id), e);
      case None =>
    }
  }

  lemma {:induction false} VisitFunctionShape(st: State, f: Func)
    requires Good(st)
    ensures Good(VisitFunction(st, f))
    decreases f
  {
    var entered := NestScope(st, FunctionScope);
    NestShape(st, FunctionScope);
    VisitParamsShape(entered, f.params);
    VisitStmtsShape(VisitParams(entered, f.params), f.body);
    CloseShape(VisitStmts(VisitParams(entered, f.params), f.body));
  }

  lemma {:induction false} VisitParamsShape(st: State, ps: seq<Pattern>)
    requires Good(st)
    ensures Good(VisitParams(st, ps))
    decreases ps
  {
    if ps != [] {
      BindParamsShape(st, Leaves(ps[0], []));
      VisitDefaultsShape(BindParams(st, Leaves(ps[0], [])), ps[0]);
      VisitParamsShape(VisitDefaults(BindParams(st, Leaves(ps[0], [])), ps[0]), ps[1..]);
    }
  }

  lemma {:induction false} VisitDefaultsShape(st: State, p: Pattern)
    requires Good(st)
    ensures Good(VisitDefaults(st, p))
    decreases p
  {
    match p
    case Id(_) =>
    case ArrayPat(es) => VisitDefaultsOfSeqShape(st, es);
    case ObjectPat(ps) => VisitDefaultsOfPropsShape(st, ps);
    case WithDefault(l, d) =>
      VisitDefaultsShape(st, l);
      VisitExprShape(VisitDefaults(st, l), d);
  }

  lemma {:induction false} VisitDefaultsOfSeqShape(st: State, ps: seq<Pattern>)
    requires Good(st)
    ensures Good(VisitDefaultsOfSeq(st, ps))
    decreases ps
  {
    if ps != [] {
      VisitDefaultsShape(st, ps[0]);
      VisitDefaultsOfSeqShape(VisitDefaults(st, ps[0]), ps[1..]);
    }
  }

  lemma {:induction false} VisitDefaultsOfPropsShape(st: State, ps: seq<PatProperty>)
    requires Good(st)
    ensures Good(VisitDefaultsOfProps(st, ps))
    decreases ps
  {
    if ps != [] {
      VisitDefaultsShape(st, ps[0].value);
      VisitDefaultsOfPropsShape(VisitDefaults(st, ps[0].value), ps[1..]);
    }
  }

  lemma {:induction false} AssignToShape(st: State, op: AssignOp, t: Target, right: Expr)
    requires Good(st)
    ensures Good(AssignTo(st, op, t, right))
    decreases t
  {
    match t
    case MemberTarget(o, _) => VisitExprShape(st, o);
    case PatternTarget(p) =>
      if op == Plain {
        AssignLeavesShape(st, Leaves(p, []), right);
        VisitDefaultsShape(AssignLeaves(st, Leaves(p, []), right), p);
      } else if p.Id? {
        ReferencingShape(st, p.name, ReadWrite, Some(right), false);
      }
  }

  lemma {:induction false} VisitExprsShape(st: State, es: seq<Expr>)
    requires Good(st)
    ensures Good(VisitExprs(st, es))
    decreases es
  {
    if es != [] {
      VisitExprShape(st, es[0]);
      VisitExprsShape(VisitExpr(st, es[0]), es[1..]);
    }
  }

  lemma {:induction false} VisitPropsShape(st: State, ps: seq<Property>)
    requires Good(st)
    ensures Good(VisitProps(st, ps))
    decreases ps
  {
    if ps != [] {
      VisitExprShape(st, ps[0].value);
      VisitPropsShape(VisitExpr(st, ps[0].value), ps[1..]);
    }
  }

  lemma {:induction false} VisitExprShape(st: State, e: Expr)
    requires Good(st)
    ensures Good(VisitExpr(st, e))
    decreases e, 1
  {
    match e
    case Ident(x) => ReferencingShape(st, x, Read, None, false);
    case Literal =>
    case ArrayExpr(es) => VisitExprsShape(st, es);
    case ObjectExpr(ps) => VisitPropsShape(st, ps);
    case Member(o, _) => VisitExprShape(st, o);
    case Call(_, _) => CalleeArgsShape(st, e);
    case New(_, _) => CalleeArgsShape(st, e);
    case Assign(_, _, _) => AssignShape(st, e);
    case Function(f) => VisitFunctionShape(st, f);
  }

  lemma {:induction false} CalleeArgsShape(st: State, e: Expr)
    requires Good(st) && (e.Call? || e.New?)
    ensures Good(VisitExpr(st, e))
    decreases e, 0
  {
    VisitExprShape(st, e.callee);
    VisitExprsShape(VisitExpr(st, e.callee), e.arguments);
  }

  lemma {:induction false} AssignShape(st: State, e: Expr)
    requires Good(st) && e.Assign?
    ensures Good(VisitExpr(st, e))
    decreases e, 0
  {
    AssignToShape(st, e.op, e.left, e.right);
    VisitExprShape(AssignTo(st, e.op, e.left, e.right), e.right);
  }

  /** The finished analysis keeps every scope's lists exact, flags consistent,
      `arguments` first in function scopes and names unique per scope. */
  lemma AnalyzeShape(p: Program)
    ensures Shape(Analyze(p))
  {
    NewGlobalShape();
    VisitStmtsShape(NewGlobal(), p.body);
    CloseShape(VisitStmts(NewGlobal(), p.body));
  }
}
