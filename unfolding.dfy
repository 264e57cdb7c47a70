/** One-step unfoldings of the traversal functions of module Engine, stated separately so
    that the methods of module Manager, which perform those steps one at a time, each need
    only the step at hand. */
module Unfolding {
  import opened Ast
  import opened Engine

  /** Closing is popping, settling the pending references, then emptying the list. */
  lemma CloseUnfold(st: State)
    requires Ready(st)
    ensures var s := st.stack[|st.stack| - 1];
      var settled := CloseRefs(st.(stack := st.stack[..|st.stack| - 1]), s, st.scopes[s].left);
      Close(st) == settled.(scopes := settled.scopes[s := settled.scopes[s].(left := [])])
  {
  }

// ---------------------------------------------------------------------------------
  // One step of each list walk, for the loops that perform them

  lemma CloseRefsCons(st: State, s: nat, rs: seq<nat>)
    requires WF(st) && s < |st.scopes| && IdsBelow(rs, |st.references|) && rs != []
    ensures CloseRefs(st, s, rs) == CloseRefs(CloseRef(st, s, rs[0]), s, rs[1..])
  {
  }

  lemma WriteDefaultsCons(st: State, name: string, defaults: seq<Expr>, init: bool)
    requires Ready(st) && defaults != []
    ensures WriteDefaults(st, name, defaults, init) ==
            WriteDefaults(Referencing(st, name, Write, Some(defaults[0]), init), name, defaults[1..], init)
  {
  }

  lemma DeclareLeavesCons(st: State, target: nat, kind: DeclKind, leaves: seq<Leaf>, init: Option<Expr>)
    requires Ready(st) && target < |st.scopes| && leaves != []
    ensures var defined := Define(st, target, leaves[0].name, Some(VariableDef(kind)));
      var defaulted := WriteDefaults(defined, leaves[0].name, leaves[0].defaults, true);
      var written := if init.Some? then Referencing(defaulted, leaves[0].name, Write, init, true) else defaulted;
      DeclareLeaves(st, target, kind, leaves, init) == DeclareLeaves(written, target, kind, leaves[1..], init)
  {
  }

  lemma BindParamsCons(st: State, leaves: seq<Leaf>)
    requires Ready(st) && leaves != []
    ensures var defined := Define(st, Current(st), leaves[0].name, Some(ParameterDef));
      BindParams(st, leaves) == BindParams(WriteDefaults(defined, leaves[0].name, leaves[0].defaults, true), leaves[1..])
  {
  }

  lemma AssignLeavesCons(st: State, leaves: seq<Leaf>, right: Expr)
    requires Ready(st) && leaves != []
    ensures var defaulted := WriteDefaults(st, leaves[0].name, leaves[0].defaults, false);
      AssignLeaves(st, leaves, right) == AssignLeaves(Referencing(defaulted, leaves[0].name, Write, Some(right), false), leaves[1..], right)
  {
  }

  lemma WriteLeavesCons(st: State, leaves: seq<Leaf>, right: Expr)
    requires Ready(st) && leaves != []
    ensures WriteLeaves(st, leaves, right) == WriteLeaves(Referencing(st, leaves[0].name, Write, Some(right), true), leaves[1..], right)
  {
  }

  lemma VisitStmtsCons(st: State, ss: seq<Stmt>)
    requires Ready(st) && ss != []
    ensures VisitStmts(st, ss) == VisitStmts(VisitStmt(st, ss[0]), ss[1..])
  {
  }

  lemma VisitDeclaratorsCons(st: State, target: nat, kind: DeclKind, ds: seq<Declarator>)
    requires Ready(st) && target < |st.scopes| && ds != []
    ensures VisitDeclarators(st, target, kind, ds) == VisitDeclarators(VisitDeclarator(st, target, kind, ds[0]), target, kind, ds[1..])
  {
  }

  lemma VisitParamsCons(st: State, ps: seq<Pattern>)
    requires Ready(st) && ps != []
    ensures VisitParams(st, ps) == VisitParams(VisitDefaults(BindParams(st, Leaves(ps[0], [])), ps[0]), ps[1..])
  {
  }

  lemma VisitDefaultsOfSeqCons(st: State, ps: seq<Pattern>)
    requires Ready(st) && ps != []
    ensures VisitDefaultsOfSeq(st, ps) == VisitDefaultsOfSeq(VisitDefaults(st, ps[0]), ps[1..])
  {
  }

  lemma VisitDefaultsOfPropsCons(st: State, ps: seq<PatProperty>)
    requires Ready(st) && ps != []
    ensures VisitDefaultsOfProps(st, ps) == VisitDefaultsOfProps(VisitDefaults(st, ps[0].value), ps[1..])
  {
  }

  lemma VisitExprsCons(st: State, es: seq<Expr>)
    requires Ready(st) && es != []
    ensures VisitExprs(st, es) == VisitExprs(VisitExpr(st, es[0]), es[1..])
  {
  }

  lemma VisitPropsCons(st: State, ps: seq<Property>)
    requires Ready(st) && ps != []
    ensures VisitProps(st, ps) == VisitProps(VisitExpr(st, ps[0].value), ps[1..])
  {
  }

  /** A call or `new` of a bare name with no arguments only reads that name. */
  lemma BareCalleeUnfold(st: State, e: Expr)
    requires Ready(st) && (e.Call? || e.New?) && e.callee.Ident? && e.arguments == []
    ensures VisitExpr(st, e) == Referencing(st, e.callee.name, Read, None, false)
  {
  }

  // ---------------------------------------------------------------------------------
  // One step of the statement walk, for the methods that perform it

  lemma ClassBodyUnfold(st: State, name: string)
    requires Ready(st)
    ensures var named := Define(st, Current(st), name, Some(ClassNameDef));
      var entered := NestScope(named, ClassScope);
      var inner := Define(entered, Current(entered), name, Some(ClassNameDef));
      |inner.stack| > 1 && ClassDeclaration(st, name) == Close(inner)
  {
  }

  /** The statement walk hands a variable declaration to its own case. */
  lemma VarDeclDispatch(st: State, s: Stmt)
    requires Ready(st) && s.VarDecl?
    ensures VisitStmt(st, s) == VarDeclaration(st, s.kind, s.declarations)
  {
  }

  lemma VarDeclUnfold(st: State, kind: DeclKind, ds: seq<Declarator>)
    requires Ready(st)
    ensures var target := if kind == Var then st.scopes[Current(st)].variableScope else Current(st);
      VisitStmt(st, VarDecl(kind, ds)) == VisitDeclarators(st, target, kind, ds)
  {
    VarDeclDispatch(st, VarDecl(kind, ds));
  }

  /** The statement walk hands a class declaration to its own case. */
  lemma ClassDispatch(st: State, s: Stmt)
    requires Ready(st) && s.ClassDecl?
    ensures VisitStmt(st, s) == ClassDeclaration(st, s.name)
  {
  }

  lemma ClassDeclUnfold(st: State, name: string)
    requires Ready(st)
    ensures VisitStmt(st, ClassDecl(name)) == ClassDeclaration(st, name)
  {
    ClassDispatch(st, ClassDecl(name));
  }

  /** The statement walk hands a `for-in` loop with a declared head to its own case. */
  lemma ForDeclDispatch(st: State, s: Stmt)
    requires Ready(st) && s.ForIn? && s.left.ForDecl?
    ensures VisitStmt(st, s) == ForInDeclared(st, s.left.kind, s.left.id, s.right, s.loopBody)
  {
  }

  lemma ForInDeclaredUnfold(st: State, kind: DeclKind, id: Pattern, right: Expr, body: Stmt)
    requires Ready(st)
    ensures var visited := VisitStmt(VisitExpr(ForHead(st, kind, id, right), right), body);
      (kind != Var ==> |visited.stack| > 1) &&
      ForInDeclared(st, kind, id, right, body) == if kind != Var then Close(visited) else visited
  {
  }

  lemma ForDeclUnfold(st: State, s: Stmt)
    requires Ready(st) && s.ForIn? && s.left.ForDecl?
    ensures var head := ForHead(st, s.left.kind, s.left.id, s.right);
      var visited := VisitStmt(VisitExpr(head, s.right), s.loopBody);
      (s.left.kind != Var ==> |visited.stack| > 1) &&
      VisitStmt(st, s) == if s.left.kind != Var then Close(visited) else visited
  {
    ForDeclDispatch(st, s);
    ForInDeclaredUnfold(st, s.left.kind, s.left.id, s.right, s.loopBody);
  }

  /** The statement walk hands a `for-in` loop over an existing target to its own case. */
  lemma ForTargetDispatch(st: State, s: Stmt)
    requires Ready(st) && s.ForIn? && s.left.ForTarget?
    ensures VisitStmt(st, s) == ForInTarget(st, s.left.target, s.right, s.loopBody)
  {
  }

  lemma ForTargetUnfold(st: State, t: Target, right: Expr, body: Stmt)
    requires Ready(st)
    ensures VisitStmt(st, ForIn(ForTarget(t), right, body)) == VisitStmt(VisitExpr(AssignTo(st, Plain, t, right), right), body)
  {
    ForTargetDispatch(st, ForIn(ForTarget(t), right, body));
  }

  /** The statement walk hands a function declaration to its own case. */
  lemma FunctionDispatch(st: State, s: Stmt)
    requires Ready(st) && s.FunctionDecl?
    ensures VisitStmt(st, s) == FunctionDeclaration(st, s.name, s.fn)
  {
  }

  lemma FunctionDeclUnfold(st: State, name: string, f: Func)
    requires Ready(st)
    ensures VisitStmt(st, FunctionDecl(name, f)) == VisitFunction(Define(st, Current(st), name, Some(FunctionNameDef)), f)
  {
    FunctionDispatch(st, FunctionDecl(name, f));
  }

  lemma VisitFunctionUnfold(st: State, f: Func)
    requires Ready(st)
    ensures VisitFunction(st, f) == Close(VisitStmts(VisitParams(NestScope(st, FunctionScope), f.params), f.body))
  {
  }

  /** A function declaration: its name defined in the current scope, then its own scope
      entered, its parameters bound, its body visited and the scope closed. */
  lemma FunctionDeclSteps(st: State, name: string, f: Func)
    requires Ready(st)
    ensures var named := Define(st, Current(st), name, Some(FunctionNameDef));
      VisitStmt(st, FunctionDecl(name, f)) == Close(VisitStmts(VisitParams(NestScope(named, FunctionScope), f.params), f.body))
  {
    FunctionDeclUnfold(st, name, f);
    VisitFunctionUnfold(Define(st, Current(st), name, Some(FunctionNameDef)), f);
  }
}
