/** The lower bounds the `init` tests check besides the flags: the scope a declaration
    fills holds at least one variable and one reference, and after a global `let a;` the
    global table starts with `a` and every read of `a` is bound to it. */
module InitBounds {
  import opened Ast
  import opened Engine
  import opened Unfolding
  import opened Resolution
  import opened Closing
  import opened Skeletons
  import opened Bindings
  import opened InitFlags
  import opened ReferenceTests

  // ---------------------------------------------------------------------------------
  // Tables and reference lists only grow

  /** No scope of `a` has fewer variables or references in `b`. */
  ghost predicate Grows(a: State, b: State) {
    |a.scopes| <= |b.scopes| &&
    forall t | 0 <= t < |a.scopes| ::
      |a.scopes[t].variables| <= |b.scopes[t].variables| && |a.scopes[t].references| <= |b.scopes[t].references|
  }

  /** Scope `t` holds at least one variable and at least one reference. */
  ghost predicate Filled(st: State, t: nat) {
    t < |st.scopes| && |st.scopes[t].variables| >= 1 && |st.scopes[t].references| >= 1
  }

  lemma GrowsTrans(a: State, b: State, c: State)
    requires Grows(a, b) && Grows(b, c)
    ensures Grows(a, c)
  {
  }

  lemma DefineGrows(st: State, target: nat, name: string, def: Option<DefKind>)
    requires WF(st) && target < |st.scopes|
    ensures var r := Define(st, target, name, def);
      Grows(st, r) && |r.scopes[target].variables| >= 1
  {
    var found := Lookup(st.variables, st.scopes[target].variables, name);
    if found.Some? {
      assert found.value in st.scopes[target].variables;
    }
  }

  lemma ReferencingGrows(st: State, name: string, flag: Flag, writeExpr: Option<Expr>, init: bool)
    requires Ready(st)
    ensures var r := Referencing(st, name, flag, writeExpr, init);
      Grows(st, r) && |r.scopes[Current(st)].references| >= 1
  {
  }

  lemma {:induction false} WriteDefaultsGrows(st: State, name: string, defaults: seq<Expr>, init: bool)
    requires Ready(st)
    ensures var r := WriteDefaults(st, name, defaults, init);
      Grows(st, r) && (defaults != [] ==> |r.scopes[Current(st)].references| >= 1)
    decreases |defaults|
  {
    if defaults != [] {
      var next := Referencing(st, name, Write, Some(defaults[0]), init);
      ReferencingGrows(st, name, Write, Some(defaults[0]), init);
      WriteDefaultsGrows(next, name, defaults[1..], init);
    }
  }

  /** One leaf of a declarator: defined in `target`, then written. */
  lemma DeclareLeafGrows(st: State, target: nat, kind: DeclKind, l: Leaf, init: Option<Expr>)
    requires Ready(st) && target < |st.scopes|
    ensures var defined := Define(st, target, l.name, Some(VariableDef(kind)));
      var defaulted := WriteDefaults(defined, l.name, l.defaults, true);
      var written := if init.Some? then Referencing(defaulted, l.name, Write, init, true) else defaulted;
      Grows(st, written) && |written.scopes[target].variables| >= 1 &&
      (init.Some? ==> |written.scopes[Current(st)].references| >= 1)
  {
    var defined := Define(st, target, l.name, Some(VariableDef(kind)));
    DefineGrows(st, target, l.name, Some(VariableDef(kind)));
    var defaulted := WriteDefaults(defined, l.name, l.defaults, true);
    WriteDefaultsGrows(defined, l.name, l.defaults, true);
    GrowsTrans(st, defined, defaulted);
    if init.Some? {
      assert defaulted.stack == st.stack;
      assert Current(defaulted) == Current(st);
      ReferencingGrows(defaulted, l.name, Write, init, true);
      GrowsTrans(st, defaulted, Referencing(defaulted, l.name, Write, init, true));
    }
  }

  lemma {:induction false} DeclareLeavesGrows(st: State, target: nat, kind: DeclKind, leaves: seq<Leaf>, init: Option<Expr>)
    requires Ready(st) && target < |st.scopes|
    ensures var r := DeclareLeaves(st, target, kind, leaves, init);
      Grows(st, r) &&
      (leaves != [] ==> |r.scopes[target].variables| >= 1 && (init.Some? ==> |r.scopes[Current(st)].references| >= 1))
    decreases |leaves|
  {
    if leaves != [] {
      var l := leaves[0];
      var defined := Define(st, target, l.name, Some(VariableDef(kind)));
      var defaulted := WriteDefaults(defined, l.name, l.defaults, true);
      var written := if init.Some? then Referencing(defaulted, l.name, Write, init, true) else defaulted;
      DeclareLeafGrows(st, target, kind, l, init);
      DeclareLeavesCons(st, target, kind, leaves, init);
      var r := DeclareLeaves(written, target, kind, leaves[1..], init);
      DeclareLeavesGrows(written, target, kind, leaves[1..], init);
      GrowsTrans(st, written, r);
    }
  }

  lemma {:induction false} BindParamsGrows(st: State, leaves: seq<Leaf>)
    requires Ready(st)
    ensures var r := BindParams(st, leaves);
      Grows(st, r) &&
      (leaves != [] ==> |r.scopes[Current(st)].variables| >= 1 &&
                        (leaves[0].defaults != [] ==> |r.scopes[Current(st)].references| >= 1))
    decreases |leaves|
  {
    if leaves != [] {
      var defined := Define(st, Current(st), leaves[0].name, Some(ParameterDef));
      DefineGrows(st, Current(st), leaves[0].name, Some(ParameterDef));
      var defaulted := WriteDefaults(defined, leaves[0].name, leaves[0].defaults, true);
      WriteDefaultsGrows(defined, leaves[0].name, leaves[0].defaults, true);
      var c := Current(st);
      assert Current(defined) == c;
      assert |defaulted.scopes[c].variables| >= 1;
      assert leaves[0].defaults != [] ==> |defaulted.scopes[c].references| >= 1;
      BindParamsCons(st, leaves);
      var r := BindParams(defaulted, leaves[1..]);
      BindParamsGrows(defaulted, leaves[1..]);
      GrowsTrans(st, defined, defaulted);
      GrowsTrans(st, defaulted, r);
      assert |r.scopes[c].variables| >= |defaulted.scopes[c].variables|;
      assert |r.scopes[c].references| >= |defaulted.scopes[c].references|;
    }
  }

  lemma {:induction false} WriteLeavesGrows(st: State, leaves: seq<Leaf>, right: Expr)
    requires Ready(st)
    ensures var r := WriteLeaves(st, leaves, right);
      Grows(st, r) && (leaves != [] ==> |r.scopes[Current(st)].references| >= 1)
    decreases |leaves|
  {
    if leaves != [] {
      var next := Referencing(st, leaves[0].name, Write, Some(right), true);
      ReferencingGrows(st, leaves[0].name, Write, Some(right), true);
      WriteLeavesCons(st, leaves, right);
      WriteLeavesGrows(next, leaves[1..], right);
    }
  }

  /** Closing the current scope keeps every scope's lists. */
  lemma CloseGrows(st: State)
    requires Ready(st)
    ensures Grows(st, Close(st)) && |Close(st).scopes| == |st.scopes|
  {
    CloseSkeleton(st);
  }

  // ---------------------------------------------------------------------------------
  // The first `init` list: the last scope holds a variable and a reference

  /** Closing keeps a filled scope filled. */
  lemma CloseFilled(st: State, t: nat)
    requires Ready(st) && Filled(st, t)
    ensures Filled(Close(st), t) && |Close(st).scopes| == |st.scopes|
  {
    CloseGrows(st);
  }

  /** A one-statement program is that statement visited in the global scope, then closed. */
  lemma AnalyzeOne(s: Stmt)
    ensures Analyze(Program([s])) == Close(VisitStmt(NewGlobal(), s))
  {
    OneStmt(NewGlobal(), s);
  }

  /** A single declarator with an initializer declares its leaves, nothing more: its
      default values and its initializer are visited without effect. */
  lemma DeclaratorStep(st: State, target: nat, kind: DeclKind, p: Pattern, init: Expr)
    requires Ready(st) && target < |st.scopes| && PureDefaults(p) && Pure(init)
    ensures VisitDeclarators(st, target, kind, [Declarator(p, Some(init))]) ==
      DeclareLeaves(st, target, kind, Leaves(p, []), Some(init))
  {
    var d := Declarator(p, Some(init));
    var declared := DeclareLeaves(st, target, kind, Leaves(p, []), Some(init));
    PureDefaultsVisit(declared, p);
    PureExpr(declared, init);
    assert VisitDeclarator(st, target, kind, d) == declared;
    assert [d][1..] == [];
    assert VisitDeclarators(declared, target, kind, []) == declared;
  }

  /** A declaration with one initialized declarator, in a scope that is its own variable
      scope, fills that scope. */
  lemma DeclarationFills(st: State, kind: DeclKind, p: Pattern, init: Expr)
    requires Ready(st) && st.scopes[Current(st)].variableScope == Current(st)
    requires PureDefaults(p) && Leaves(p, []) != [] && Pure(init)
    ensures var r := VisitStmt(st, VarDecl(kind, [Declarator(p, Some(init))]));
      |r.scopes| == |st.scopes| && Filled(r, Current(st))
  {
    var c := Current(st);
    VarDeclUnfold(st, kind, [Declarator(p, Some(init))]);
    DeclaratorStep(st, c, kind, p, init);
    DeclareLeavesGrows(st, c, kind, Leaves(p, []), Some(init));
  }

  /** `var p = init;`, `let p = init;` or `const p = init;` alone, with a pattern binding at
      least one name: the one scope holds a variable and a reference. */
  lemma DeclaratorFilled(kind: DeclKind, p: Pattern, init: Expr)
    requires PureDefaults(p) && Leaves(p, []) != [] && Pure(init)
    ensures var g := Analyze(Program([VarDecl(kind, [Declarator(p, Some(init))])]));
      |g.scopes| == 1 && Filled(g, 0)
  {
    var s := VarDecl(kind, [Declarator(p, Some(init))]);
    AnalyzeOne(s);
    DeclarationFills(NewGlobal(), kind, p, init);
    CloseFilled(VisitStmt(NewGlobal(), s), 0);
  }

  /** Declaring and then writing some leaves in the innermost scope `c` fills it. */
  lemma LeavesFill(entered: State, c: nat, kind: DeclKind, leaves: seq<Leaf>, right: Expr)
    requires Ready(entered) && c == Current(entered) && c == |entered.scopes| - 1 && leaves != []
    ensures var head := WriteLeaves(DeclareLeaves(entered, c, kind, leaves, None), leaves, right);
      head.stack == entered.stack && |head.scopes| == c + 1 && Filled(head, c)
  {
    var declared := DeclareLeaves(entered, c, kind, leaves, None);
    DeclareLeavesGrows(entered, c, kind, leaves, None);
    assert declared.stack == entered.stack;
    assert Current(declared) == c;
    WriteLeavesGrows(declared, leaves, right);
  }

  /** A `var` loop head whose pattern has pure default values only declares and writes its
      leaves, in the variable scope of the innermost one. */
  lemma VarHeadPure(st: State, p: Pattern, right: Expr)
    requires Ready(st) && PureDefaults(p)
    ensures var target := st.scopes[Current(st)].variableScope;
      ForHead(st, Var, p, right) == WriteLeaves(DeclareLeaves(st, target, Var, Leaves(p, []), None), Leaves(p, []), right)
  {
    var target := st.scopes[Current(st)].variableScope;
    PureDefaultsVisit(DeclareLeaves(st, target, Var, Leaves(p, []), None), p);
  }

  /** A `let` or `const` loop head whose pattern has pure default values enters the loop's
      scope and only declares and writes its leaves there. */
  lemma LexicalHeadPure(st: State, kind: DeclKind, p: Pattern, right: Expr)
    requires Ready(st) && kind != Var && PureDefaults(p)
    ensures var entered := NestScope(st, ForScope);
      ForHead(st, kind, p, right) == WriteLeaves(DeclareLeaves(entered, |st.scopes|, kind, Leaves(p, []), None), Leaves(p, []), right)
  {
    var entered := NestScope(st, ForScope);
    assert Current(entered) == |st.scopes|;
    PureDefaultsVisit(DeclareLeaves(entered, |st.scopes|, kind, Leaves(p, []), None), p);
  }

  /** The head of `for (var p in right)`, entered from an innermost scope that is its own
      variable scope, fills that scope. */
  lemma VarHeadFills(st: State, p: Pattern, right: Expr)
    requires Ready(st) && Current(st) == |st.scopes| - 1
    requires st.scopes[Current(st)].variableScope == Current(st)
    requires PureDefaults(p) && Leaves(p, []) != []
    ensures var head := ForHead(st, Var, p, right);
      |head.scopes| == |st.scopes| && Filled(head, Current(st))
  {
    VarHeadPure(st, p, right);
    LeavesFill(st, Current(st), Var, Leaves(p, []), right);
  }

  /** The head of `for (let p in right)` or `for (const p in right)` fills the loop's own
      scope. */
  lemma LexicalHeadFills(st: State, kind: DeclKind, p: Pattern, right: Expr)
    requires Ready(st) && kind != Var && PureDefaults(p) && Leaves(p, []) != []
    ensures var head := ForHead(st, kind, p, right);
      |head.scopes| == |st.scopes| + 1 && Filled(head, |st.scopes|)
  {
    var entered := NestScope(st, ForScope);
    assert Current(entered) == |st.scopes|;
    LexicalHeadPure(st, kind, p, right);
    LeavesFill(entered, |st.scopes|, kind, Leaves(p, []), right);
  }

  /** The pure right-hand side and the empty body of a loop leave its head as it is. */
  lemma PureRightEmpty(head: State, right: Expr)
    requires Ready(head) && Pure(right)
    ensures VisitStmt(VisitExpr(head, right), Empty) == head
  {
    PureExpr(head, right);
  }

  /** `for (var p in right);` with a pure right-hand side is its head. */
  lemma VarLoopPure(st: State, s: Stmt)
    requires Ready(st) && s.ForIn? && s.left.ForDecl? && s.left.kind == Var
    requires Pure(s.right) && s.loopBody == Empty
    ensures VisitStmt(st, s) == ForHead(st, Var, s.left.id, s.right)
  {
    PureRightEmpty(ForHead(st, Var, s.left.id, s.right), s.right);
    ForDeclUnfold(st, s);
  }

  /** `for (let p in right);` or with `const`, with a pure right-hand side, is its head with
      the loop's scope closed. */
  lemma LexicalLoopPure(st: State, s: Stmt)
    requires Ready(st) && s.ForIn? && s.left.ForDecl? && s.left.kind != Var
    requires Pure(s.right) && s.loopBody == Empty
    ensures var head := ForHead(st, s.left.kind, s.left.id, s.right);
      |head.stack| > 1 && VisitStmt(st, s) == Close(head)
  {
    PureRightEmpty(ForHead(st, s.left.kind, s.left.id, s.right), s.right);
    ForDeclUnfold(st, s);
  }

  /** `for (var p in right);` alone: the global scope holds a variable and a reference. */
  lemma VarLoopFilled(p: Pattern, right: Expr)
    requires PureDefaults(p) && Leaves(p, []) != [] && Pure(right)
    ensures var g := Analyze(Program([ForIn(ForDecl(Var, p), right, Empty)]));
      |g.scopes| == 1 && Filled(g, 0)
  {
    var head := ForHead(NewGlobal(), Var, p, right);
    VarHeadFills(NewGlobal(), p, right);
    VarLoopPure(NewGlobal(), ForIn(ForDecl(Var, p), right, Empty));
    AnalyzeOne(ForIn(ForDecl(Var, p), right, Empty));
    CloseFilled(head, 0);
  }

  /** `for (let p in right);` or `for (const p in right);` alone: the loop's own scope, the
      second, holds a variable and a reference. */
  lemma LexicalLoopFilled(kind: DeclKind, p: Pattern, right: Expr)
    requires kind != Var && PureDefaults(p) && Leaves(p, []) != [] && Pure(right)
    ensures var g := Analyze(Program([ForIn(ForDecl(kind, p), right, Empty)]));
      |g.scopes| == 2 && Filled(g, 1)
  {
    var head := ForHead(NewGlobal(), kind, p, right);
    LexicalHeadFills(NewGlobal(), kind, p, right);
    LexicalLoopPure(NewGlobal(), ForIn(ForDecl(kind, p), right, Empty));
    AnalyzeOne(ForIn(ForDecl(kind, p), right, Empty));
    CloseFilled(head, 1);
    CloseFilled(Close(head), 1);
  }

  /** `function(p) {}` with pure default values binds the parameter's leaves in its own
      scope, and closes it. */
  lemma FunctionPure(st: State, p: Pattern)
    requires Ready(st) && PureDefaults(p)
    ensures VisitFunction(st, Func([p], [])) == Close(BindParams(NestScope(st, FunctionScope), Leaves(p, [])))
  {
    var entered := NestScope(st, FunctionScope);
    var bound := BindParams(entered, Leaves(p, []));
    PureDefaultsVisit(bound, p);
    VisitParamsCons(entered, [p]);
    assert [p][1..] == [] && VisitParams(bound, []) == bound;
    assert VisitStmts(bound, []) == bound;
    VisitFunctionUnfold(st, Func([p], []));
  }

  /** The leaves of a pattern with a default value all carry it. */
  lemma DefaultedLeaves(p: Pattern)
    requires p.WithDefault? && Leaves(p, []) != []
    ensures Leaves(p, [])[0].defaults != []
  {
    var leaves := Leaves(p, []);
    assert [] + [p.right] == [p.right];
    assert leaves == Leaves(p.left, [p.right]);
    assert leaves[0] in leaves;
  }

  /** Binding parameters, the first with a default value, in a fresh function scope and
      closing it leaves that scope filled. */
  lemma ParamsFill(st: State, leaves: seq<Leaf>)
    requires Ready(st) && leaves != [] && leaves[0].defaults != []
    ensures var r := Close(BindParams(NestScope(st, FunctionScope), leaves));
      |r.scopes| == |st.scopes| + 1 && r.stack == st.stack && Filled(r, |st.scopes|)
  {
    var entered := NestScope(st, FunctionScope);
    var n := |st.scopes|;
    assert Current(entered) == n;
    var bound := BindParams(entered, leaves);
    BindParamsGrows(entered, leaves);
    assert bound.stack == entered.stack;
    CloseFilled(bound, n);
  }

  /** The scope of `function(p) {}`, with `p` a parameter with a default value, holds
      `arguments` and the parameter's writes. */
  lemma FunctionFills(st: State, p: Pattern)
    requires Ready(st) && p.WithDefault? && PureDefaults(p) && Leaves(p, []) != []
    ensures var r := VisitFunction(st, Func([p], []));
      |r.scopes| == |st.scopes| + 1 && Filled(r, |st.scopes|)
  {
    FunctionPure(st, p);
    DefaultedLeaves(p);
    ParamsFill(st, Leaves(p, []));
  }

  /** An expression statement visits its expression. */
  lemma ExprStmtStep(st: State, e: Expr)
    requires Ready(st)
    ensures VisitStmt(st, ExprStmt(e)) == VisitExpr(st, e)
  {
  }

  /** `new function(p) {}` visits the function and nothing else. */
  lemma NewPure(st: State, f: Func)
    requires Ready(st)
    ensures VisitExpr(st, New(Function(f), [])) == VisitFunction(st, f)
  {
    var r := VisitFunction(st, f);
    assert VisitExpr(st, Function(f)) == r;
    assert VisitExprs(r, []) == r;
  }

  /** `new function(p) {}` alone: the function scope, the last one, is filled. */
  lemma NewFilled(p: Pattern)
    requires p.WithDefault? && PureDefaults(p) && Leaves(p, []) != []
    ensures var g := Analyze(Program([ExprStmt(New(Function(Func([p], [])), []))]));
      |g.scopes| == 2 && Filled(g, 1)
  {
    var s := ExprStmt(New(Function(Func([p], [])), []));
    FunctionFills(NewGlobal(), p);
    NewPure(NewGlobal(), Func([p], []));
    ExprStmtStep(NewGlobal(), New(Function(Func([p], [])), []));
    AnalyzeOne(s);
    CloseFilled(VisitFunction(NewGlobal(), Func([p], [])), 1);
  }
}
