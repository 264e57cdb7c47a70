/** The whole traversal keeps the resolution invariant, so the finished analysis binds every
    reference to its lexical answer. */
module Traversal {
  import opened Ast
  import opened Engine
  import opened Unfolding
  import opened Resolution
  import opened Steps
  import opened Closing

  lemma NewGlobalInv()
    ensures Inv(NewGlobal())
  {
  }

  lemma {:induction false} WriteDefaultsInv(st: State, name: string, defaults: seq<Expr>, init: bool)
    requires Inv(st)
    ensures Inv(WriteDefaults(st, name, defaults, init))
    decreases |defaults|
  {
    if defaults != [] {
      ReferencingPreserves(st, name, Write, Some(defaults[0]), init);
      WriteDefaultsInv(Referencing(st, name, Write, Some(defaults[0]), init), name, defaults[1..], init);
    }
  }

  lemma {:induction false} DeclareLeavesInv(st: State, target: nat, kind: DeclKind, leaves: seq<Leaf>, init: Option<Expr>)
    requires Inv(st) && target < |st.scopes| && target in st.stack
    ensures Inv(DeclareLeaves(st, target, kind, leaves, init))
    decreases |leaves|
  {
    if leaves != [] {
      var l := leaves[0];
      var defined := Define(st, target, l.name, Some(VariableDef(kind)));
      DefinePreserves(st, target, l.name, Some(VariableDef(kind)));
      var defaulted := WriteDefaults(defined, l.name, l.defaults, true);
      WriteDefaultsInv(defined, l.name, l.defaults, true);
      var written := if init.Some? then Referencing(defaulted, l.name, Write, init, true) else defaulted;
      if init.Some? {
        ReferencingPreserves(defaulted, l.name, Write, init, true);
      }
      DeclareLeavesInv(written, target, kind, leaves[1..], init);
    }
  }

  lemma {:induction false} BindParamsInv(st: State, leaves: seq<Leaf>)
    requires Inv(st)
    ensures Inv(BindParams(st, leaves))
    decreases |leaves|
  {
    if leaves != [] {
      var defined := Define(st, Current(st), leaves[0].name, Some(ParameterDef));
      DefinePreserves(st, Current(st), leaves[0].name, Some(ParameterDef));
      WriteDefaultsInv(defined, leaves[0].name, leaves[0].defaults, true);
      BindParamsInv(WriteDefaults(defined, leaves[0].name, leaves[0].defaults, true), leaves[1..]);
    }
  }

  lemma {:induction false} AssignLeavesInv(st: State, leaves: seq<Leaf>, right: Expr)
    requires Inv(st)
    ensures Inv(AssignLeaves(st, leaves, right))
    decreases |leaves|
  {
    if leaves != [] {
      var defaulted := WriteDefaults(st, leaves[0].name, leaves[0].defaults, false);
      WriteDefaultsInv(st, leaves[0].name, leaves[0].defaults, false);
      ReferencingPreserves(defaulted, leaves[0].name, Write, Some(right), false);
      AssignLeavesInv(Referencing(defaulted, leaves[0].name, Write, Some(right), false), leaves[1..], right);
    }
  }

  lemma {:induction false} WriteLeavesInv(st: State, leaves: seq<Leaf>, right: Expr)
    requires Inv(st)
    ensures Inv(WriteLeaves(st, leaves, right))
    decreases |leaves|
  {
    if leaves != [] {
      ReferencingPreserves(st, leaves[0].name, Write, Some(right), true);
      WriteLeavesInv(Referencing(st, leaves[0].name, Write, Some(right), true), leaves[1..], right);
    }
  }

  lemma {:induction false} VisitStmtsInv(st: State, ss: seq<Stmt>)
    requires Inv(st)
    ensures Inv(VisitStmts(st, ss))
    decreases ss
  {
    if ss != [] {
      VisitStmtInv(st, ss[0]);
      VisitStmtsInv(VisitStmt(st, ss[0]), ss[1..]);
    }
  }

  /** The scope a declaration of `kind` defines its names in is open. */
  lemma TargetOpen(st: State, kind: DeclKind)
    requires Inv(st)
    ensures var target := if kind == Var then st.scopes[Current(st)].variableScope else Current(st);
      target < |st.scopes| && target in st.stack
  {
    assert st.stack[|st.stack| - 1] == Current(st);
  }

  lemma {:induction false} VisitStmtInv(st: State, s: Stmt)
    requires Inv(st)
    ensures Inv(VisitStmt(st, s))
    decreases s, 2
  {
    match s
    case VarDecl(kind, ds) =>
      TargetOpen(st, kind);
      var target := if kind == Var then st.scopes[Current(st)].variableScope else Current(st);
      VisitDeclaratorsInv(st, target, kind, ds);
    case FunctionDecl(name, f) =>
      DefinePreserves(st, Current(st), name, Some(FunctionNameDef));
      VisitFunctionInv(Define(st, Current(st), name, Some(FunctionNameDef)), f);
    case ClassDecl(name) =>
      ClassDeclInv(st, name);
    case ExprStmt(e) =>
      VisitExprInv(st, e);
    case ForIn(left, right, body) =>
      if left.ForDecl? {
        ForDeclInv(st, s);
      } else {
        AssignToInv(st, Plain, left.target, right);
        VisitExprInv(AssignTo(st, Plain, left.target, right), right);
        VisitStmtInv(VisitExpr(AssignTo(st, Plain, left.target, right), right), body);
      }
    case Empty =>
  }

  lemma ClassEnterInv(st: State, name: string)
    requires Inv(st)
    ensures var named := Define(st, Current(st), name, Some(ClassNameDef));
      var entered := NestScope(named, ClassScope);
      Inv(Define(entered, Current(entered), name, Some(ClassNameDef)))
  {
    var named := Define(st, Current(st), name, Some(ClassNameDef));
    DefinePreserves(st, Current(st), name, Some(ClassNameDef));
    var entered := NestScope(named, ClassScope);
    NestPreserves(named, ClassScope);
    DefinePreserves(entered, Current(entered), name, Some(ClassNameDef));
  }

  lemma ClassDeclInv(st: State, name: string)
    requires Inv(st)
    ensures Inv(VisitStmt(st, ClassDecl(name)))
  {
    var named := Define(st, Current(st), name, Some(ClassNameDef));
    var entered := NestScope(named, ClassScope);
    var inner := Define(entered, Current(entered), name, Some(ClassNameDef));
    ClassDeclUnfold(st, name);
    ClassBodyUnfold(st, name);
    ClassEnterInv(st, name);
    ClosePreserves(inner);
  }

  lemma {:induction false} ForHeadInv(st: State, s: Stmt)
    requires Inv(st) && s.ForIn? && s.left.ForDecl?
    ensures Inv(ForHead(st, s.left.kind, s.left.id, s.right))
    decreases s, 0
  {
    var kind, id, right := s.left.kind, s.left.id, s.right;
    var entered := if kind != Var then NestScope(st, ForScope) else st;
    if kind != Var {
      NestPreserves(st, ForScope);
    }
    TargetOpen(entered, kind);
    var target := if kind == Var then entered.scopes[Current(entered)].variableScope else Current(entered);
    DeclareLeavesInv(entered, target, kind, Leaves(id, []), None);
    var leavesDeclared := DeclareLeaves(entered, target, kind, Leaves(id, []), None);
    VisitDefaultsInv(leavesDeclared, id);
    WriteLeavesInv(VisitDefaults(leavesDeclared, id), Leaves(id, []), right);
  }

  /** A for-in statement whose head declares its variables. */
  lemma {:induction false} ForDeclInv(st: State, s: Stmt)
    requires Inv(st) && s.ForIn? && s.left.ForDecl?
    ensures Inv(VisitStmt(st, s))
    decreases s, 1
  {
    var head := ForHead(st, s.left.kind, s.left.id, s.right);
    ForHeadInv(st, s);
    VisitExprInv(head, s.right);
    VisitStmtInv(VisitExpr(head, s.right), s.loopBody);
    ForDeclUnfold(st, s);
    if s.left.kind != Var {
      ClosePreserves(VisitStmt(VisitExpr(head, s.right), s.loopBody));
    }
  }

  lemma {:induction false} VisitDeclaratorsInv(st: State, target: nat, kind: DeclKind, ds: seq<Declarator>)
    requires Inv(st) && target < |st.scopes| && target in st.stack
    ensures Inv(VisitDeclarators(st, target, kind, ds))
    decreases ds
  {
    if ds != [] {
      VisitDeclaratorInv(st, target, kind, ds[0]);
      VisitDeclaratorsInv(VisitDeclarator(st, target, kind, ds[0]), target, kind, ds[1..]);
    }
  }

  lemma {:induction false} VisitDeclaratorInv(st: State, target: nat, kind: DeclKind, d: Declarator)
    requires Inv(st) && target < |st.scopes| && target in st.stack
    ensures Inv(VisitDeclarator(st, target, kind, d))
    decreases d
  {
    DeclareLeavesInv(st, target, kind, Leaves(d.id, []), d.init);
    var leavesDeclared := DeclareLeaves(st, target, kind, Leaves(d.id, []), d.init);
    VisitDefaultsInv(leavesDeclared, d.id);
    match d.init {
      case Some(e) => VisitExprInv(VisitDefaults(leavesDeclared, d.id), e);
      case None =>
    }
  }

  lemma {:induction false} VisitFunctionInv(st: State, f: Func)
    requires Inv(st)
    ensures Inv(VisitFunction(st, f))
    decreases f
  {
    var entered := NestScope(st, FunctionScope);
    NestPreserves(st, FunctionScope);
    VisitParamsInv(entered, f.params);
    VisitStmtsInv(VisitParams(entered, f.params), f.body);
    ClosePreserves(VisitStmts(VisitParams(entered, f.params), f.body));
  }

  lemma {:induction false} VisitParamsInv(st: State, ps: seq<Pattern>)
    requires Inv(st)
    ensures Inv(VisitParams(st, ps))
    decreases ps
  {
    if ps != [] {
      BindParamsInv(st, Leaves(ps[0], []));
      VisitDefaultsInv(BindParams(st, Leaves(ps[0], [])), ps[0]);
      VisitParamsInv(VisitDefaults(BindParams(st, Leaves(ps[0], [])), ps[0]), ps[1..]);
    }
  }

  lemma {:induction false} VisitDefaultsInv(st: State, p: Pattern)
    requires Inv(st)
    ensures Inv(VisitDefaults(st, p))
    decreases p
  {
    match p
    case Id(_) =>
    case ArrayPat(es) => VisitDefaultsOfSeqInv(st, es);
    case ObjectPat(ps) => VisitDefaultsOfPropsInv(st, ps);
    case WithDefault(l, d) =>
      VisitDefaultsInv(st, l);
      VisitExprInv(VisitDefaults(st, l), d);
  }

  lemma {:induction false} VisitDefaultsOfSeqInv(st: State, ps: seq<Pattern>)
    requires Inv(st)
    ensures Inv(VisitDefaultsOfSeq(st, ps))
    decreases ps
  {
    if ps != [] {
      VisitDefaultsInv(st, ps[0]);
      VisitDefaultsOfSeqInv(VisitDefaults(st, ps[0]), ps[1..]);
    }
  }

  lemma {:induction false} VisitDefaultsOfPropsInv(st: State, ps: seq<PatProperty>)
    requires Inv(st)
    ensures Inv(VisitDefaultsOfProps(st, ps))
    decreases ps
  {
    if ps != [] {
      VisitDefaultsInv(st, ps[0].value);
      VisitDefaultsOfPropsInv(VisitDefaults(st, ps[0].value), ps[1..]);
    }
  }

  lemma {:induction false} AssignToInv(st: State, op: AssignOp, t: Target, right: Expr)
    requires Inv(st)
    ensures Inv(AssignTo(st, op, t, right))
    decreases t
  {
    match t
    case MemberTarget(o, _) => VisitExprInv(st, o);
    case PatternTarget(p) =>
      if op == Plain {
        AssignLeavesInv(st, Leaves(p, []), right);
        VisitDefaultsInv(AssignLeaves(st, Leaves(p, []), right), p);
      } else if p.Id? {
        ReferencingPreserves(st, p.name, ReadWrite, Some(right), false);
      }
  }

  lemma {:induction false} VisitExprsInv(st: State, es: seq<Expr>)
    requires Inv(st)
    ensures Inv(VisitExprs(st, es))
    decreases es
  {
    if es != [] {
      VisitExprInv(st, es[0]);
      VisitExprsInv(VisitExpr(st, es[0]), es[1..]);
    }
  }

  lemma {:induction false} VisitPropsInv(st: State, ps: seq<Property>)
    requires Inv(st)
    ensures Inv(VisitProps(st, ps))
    decreases ps
  {
    if ps != [] {
      VisitExprInv(st, ps[0].value);
      VisitPropsInv(VisitExpr(st, ps[0].value), ps[1..]);
    }
  }

  lemma {:induction false} VisitExprInv(st: State, e: Expr)
    requires Inv(st)
    ensures Inv(VisitExpr(st, e))
    decreases e, 1
  {
    match e
    case Ident(x) => ReferencingPreserves(st, x, Read, None, false);
    case Literal =>
    case ArrayExpr(es) => VisitExprsInv(st, es);
    case ObjectExpr(ps) => VisitPropsInv(st, ps);
    case Member(o, _) => VisitExprInv(st, o);
    case Call(_, _) => CalleeArgsInv(st, e);
    case New(_, _) => CalleeArgsInv(st, e);
    case Assign(_, _, _) => AssignInv(st, e);
    case Function(f) => VisitFunctionInv(st, f);
  }

  lemma {:induction false} CalleeArgsInv(st: State, e: Expr)
    requires Inv(st) && (e.Call? || e.New?)
    ensures Inv(VisitExpr(st, e))
    decreases e, 0
  {
    VisitExprInv(st, e.callee);
    VisitExprsInv(VisitExpr(st, e.callee), e.arguments);
  }

  lemma {:induction false} AssignInv(st: State, e: Expr)
    requires Inv(st) && e.Assign?
    ensures Inv(VisitExpr(st, e))
    decreases e, 0
  {
    AssignToInv(st, e.op, e.left, e.right);
    VisitExprInv(AssignTo(st, e.op, e.left, e.right), e.right);
  }

  /** The analysis binds every reference to the variable that lexical lookup from the scope
      it occurs in finds (with the global exception for var and function bindings), lists
      exactly the references without one in the global scope's `through`, and each
      variable's references are exactly those bound to it. */
  lemma AnalyzeResolves(p: Program)
    ensures Final(Analyze(p))
  {
    NewGlobalInv();
    VisitStmtsInv(NewGlobal(), p.body);
    GlobalClose(VisitStmts(NewGlobal(), p.body));
  }
}
