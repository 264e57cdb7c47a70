/** The reference tests for declarations, each as a lemma about the program it analyses:
    how many scopes there are, how many variables and references the scope under test
    holds, and what the chosen reference names, where it occurs, what it is bound to and
    whether it writes.

    Each proof evaluates the traversal up to the point where the scopes still open start
    closing, and takes the bindings from the main theorem (every reference is bound to its
    lexical answer) and the fact that closing keeps everything else. */
module ReferenceTests {
  import opened Ast
  import opened Engine
  import opened Unfolding
  import opened Resolution
  import opened Closing
  import opened Traversal
  import opened InitFlags
  import opened Skeletons

  // ---------------------------------------------------------------------------------
  // What the tests look at

  /** `scopeManager.scopes` has `n` entries and `scopes[s]` has `vars` variables and `refs`
      references. */
  ghost predicate Counts(g: State, n: nat, s: nat, vars: nat, refs: nat) {
    |g.scopes| == n && s < n && |g.scopes[s].variables| == vars && |g.scopes[s].references| == refs
  }

  /** `scopes[s].references[i]` occurs in `scopes[s]`, names `x` and is either a write with
      a write expression or a read without one. */
  ghost predicate Picks(g: State, s: nat, i: nat, x: string, write: bool) {
    WF(g) && s < |g.scopes| && i < |g.scopes[s].references| &&
    var ref := g.references[g.scopes[s].references[i]];
    ref.from == s && ref.name == x &&
    if write then ref.writeExpr.Some? && ref.IsWrite() && !ref.IsRead()
    else ref.writeExpr.None? && !ref.IsWrite() && ref.IsRead()
  }

  /** `resolved` is `scopes[bound.0].variables[bound.1]`, or nothing when `bound` is None. */
  ghost predicate BoundTo(g: State, resolved: Option<nat>, bound: Option<(nat, nat)>) {
    match bound
    case None => resolved.None?
    case Some((t, k)) => t < |g.scopes| && k < |g.scopes[t].variables| && resolved == Some(g.scopes[t].variables[k])
  }

  /** What a test expects of `scopes[s].references[i]`, including what it is bound to. */
  ghost predicate Expected(g: State, s: nat, i: nat, x: string, bound: Option<(nat, nat)>, write: bool) {
    Picks(g, s, i, x, write) && BoundTo(g, g.references[g.scopes[s].references[i]].resolved, bound)
  }

  /** The global scope while still open: every reference it records is pending. */
  function Glob(vars: seq<nat>, refs: seq<nat>): Scope {
    Scope(GlobalScope, None, 0, vars, refs, [], refs)
  }

  /** A function scope inside `upper` (index `self`), not yet closed. */
  function Fn(upper: nat, self: nat, vars: seq<nat>, refs: seq<nat>): Scope {
    Scope(FunctionScope, Some(upper), self, vars, refs, [], refs)
  }

  /** Entering a function scope appends the scope and its `arguments` variable. */
  lemma NestFunction(st: State)
    requires Ready(st)
    ensures NestScope(st, FunctionScope) ==
      st.(scopes := st.scopes + [Fn(Current(st), |st.scopes|, [|st.variables|], [])],
          variables := st.variables + [Variable("arguments", |st.scopes|, [], [])],
          stack := st.stack + [|st.scopes|])
  {
    var n := |st.scopes|;
    var inner := Scope(FunctionScope, Some(Current(st)), n, [], [], [], []);
    var entered := st.(scopes := st.scopes + [inner], stack := st.stack + [n]);
    assert entered.scopes[n] == inner;
    assert Lookup(entered.variables, inner.variables, "arguments") == None;
    assert inner.variables + [|st.variables|] == [|st.variables|];
    assert (st.scopes + [inner])[n := inner.(variables := [|st.variables|])] ==
      st.scopes + [Fn(Current(st), n, [|st.variables|], [])];
  }

  // ---------------------------------------------------------------------------------
  // Evaluation steps

  lemma OneStmt(st: State, s: Stmt)
    requires Ready(st)
    ensures VisitStmts(st, [s]) == VisitStmt(st, s)
  {
    assert [s][1..] == [];
  }

  lemma TwoStmts(st: State, s1: Stmt, s2: Stmt)
    requires Ready(st)
    ensures VisitStmts(st, [s1, s2]) == VisitStmt(VisitStmt(st, s1), s2)
  {
    assert [s1, s2][1..] == [s2];
    OneStmt(VisitStmt(st, s1), s2);
  }

  /** A declarator whose pattern has the single leaf `x` and no default values: `x` is
      defined, written by the initializer with `init` true, and the initializer visited. */
  lemma SingleDeclarator(st: State, target: nat, kind: DeclKind, p: Pattern, x: string, e: Expr)
    requires Ready(st) && Leaves(p, []) == [Leaf(x, [])] && PureDefaults(p)
    requires target == if kind == Var then st.scopes[Current(st)].variableScope else Current(st)
    ensures var written := Referencing(Define(st, target, x, Some(VariableDef(kind))), x, Write, Some(e), true);
      VisitStmt(st, VarDecl(kind, [Declarator(p, Some(e))])) == VisitExpr(written, e)
  {
    VarDeclUnfold(st, kind, [Declarator(p, Some(e))]);
    var d := Declarator(p, Some(e));
    var written := Referencing(Define(st, target, x, Some(VariableDef(kind))), x, Write, Some(e), true);
    SingleLeaf(st, target, kind, x, e);
    PureDefaultsVisit(written, p);
    assert [d][1..] == [];
    assert VisitDeclarators(VisitDeclarator(st, target, kind, d), target, kind, []) == VisitDeclarator(st, target, kind, d);
  }

  /** A leaf without defaults is defined and then written by the initializer. */
  lemma SingleLeaf(st: State, target: nat, kind: DeclKind, x: string, e: Expr)
    requires Ready(st) && target < |st.scopes|
    ensures DeclareLeaves(st, target, kind, [Leaf(x, [])], Some(e)) ==
      Referencing(Define(st, target, x, Some(VariableDef(kind))), x, Write, Some(e), true)
  {
    var defined := Define(st, target, x, Some(VariableDef(kind)));
    var written := Referencing(defined, x, Write, Some(e), true);
    assert WriteDefaults(defined, x, [], true) == defined;
    assert DeclareLeaves(written, target, kind, [], Some(e)) == written;
  }

  /** Closing a scope with nothing pending only pops it. */
  lemma CloseQuiet(st: State)
    requires Ready(st) && st.scopes[Current(st)].left == []
    ensures Close(st) == st.(stack := st.stack[..|st.stack| - 1])
  {
    var s := Current(st);
    assert st.scopes[s := st.scopes[s].(left := [])] == st.scopes;
  }

  /** A finished analysis whose skeleton is that of `pre` binds every reference as the
      lexical lookup in `pre` does. */
  lemma BoundAsIn(p: Program, pre: State)
    requires WF(pre) && SameSkeleton(pre, Analyze(p))
    ensures forall r | 0 <= r < |pre.references| ::
      Analyze(p).references[r].resolved == Resolve(pre, pre.references[r].from, pre.references[r].name)
  {
    var g := Analyze(p);
    AnalyzeResolves(p);
    forall r | 0 <= r < |pre.references|
      ensures g.references[r].resolved == Resolve(pre, pre.references[r].from, pre.references[r].name)
    {
      ResolveSkeleton(pre, g, pre.references[r].from, pre.references[r].name);
    }
  }

  /** What a test expects of the finished analysis, read off the state before the last
      scopes close, with the lexical lookup in place of the binding. */
  lemma Transfer(p: Program, pre: State, n: nat, s: nat, vars: nat, refs: nat, i: nat, x: string,
                 bound: Option<(nat, nat)>, write: bool)
    requires WF(pre) && SameSkeleton(pre, Analyze(p))
    requires Counts(pre, n, s, vars, refs) && Picks(pre, s, i, x, write)
    requires BoundTo(pre, Resolve(pre, s, x), bound)
    ensures Counts(Analyze(p), n, s, vars, refs) && Expected(Analyze(p), s, i, x, bound, write)
  {
    BoundAsIn(p, pre);
    assert pre.scopes[s].references[i] < |pre.references|;
  }

  /** Closing the three scopes still open keeps the skeleton. */
  lemma CloseThrice(pre: State)
    requires Ready(pre) && |pre.stack| == 3
    ensures SameSkeleton(pre, Close(Close(Close(pre))))
  {
    CloseSkeleton(pre);
    CloseTwice(Close(pre));
    SkeletonTrans(pre, Close(pre), Close(Close(Close(pre))));
  }

  /** Closing the two scopes still open keeps the skeleton. */
  lemma CloseTwice(pre: State)
    requires Ready(pre) && |pre.stack| == 2
    ensures SameSkeleton(pre, Close(Close(pre)))
  {
    CloseSkeleton(pre);
    CloseSkeleton(Close(pre));
    SkeletonTrans(pre, Close(pre), Close(Close(pre)));
  }

  /** A program of a first statement and a function declaration, traced to the state
      `pre` reached at the end of the function's body. */
  lemma FunctionSecondTrace(s1: Stmt, mid: State, name: string, f: Func, entered: State, pre: State)
    requires Ready(entered) && |pre.stack| == 2
    requires VisitStmt(NewGlobal(), s1) == mid
    requires VisitStmt(mid, FunctionDecl(name, f)) == Close(VisitStmts(VisitParams(entered, f.params), f.body))
    requires VisitStmts(VisitParams(entered, f.params), f.body) == pre
    ensures SameSkeleton(pre, Analyze(Program([s1, FunctionDecl(name, f)])))
  {
    assert Ready(mid) && Ready(pre);
    TwoStmts(NewGlobal(), s1, FunctionDecl(name, f));
    CloseTwice(pre);
  }

  /** Two states that agree field by field are equal. */
  lemma SameEqual(a: State, b: State)
    requires |a.scopes| == |b.scopes| && |a.variables| == |b.variables| && |a.references| == |b.references|
    requires a.stack == b.stack
    requires forall s | 0 <= s < |a.scopes| ::
      a.scopes[s].kind == b.scopes[s].kind && a.scopes[s].upper == b.scopes[s].upper &&
      a.scopes[s].variableScope == b.scopes[s].variableScope && a.scopes[s].variables == b.scopes[s].variables &&
      a.scopes[s].references == b.scopes[s].references && a.scopes[s].through == b.scopes[s].through &&
      a.scopes[s].left == b.scopes[s].left
    requires forall v | 0 <= v < |a.variables| :: a.variables[v] == b.variables[v]
    requires forall r | 0 <= r < |a.references| :: a.references[r] == b.references[r]
    ensures a == b
  {
    assert a.scopes == b.scopes;
    assert a.variables == b.variables;
    assert a.references == b.references;
  }

  // ---------------------------------------------------------------------------------
  // A declaration on global: `let a = 0;`, `const a = 0;`, `var a = 0;`, `let [a] = [1];`,
  // `let {a} = {a: 1};`, `let {a: {a}} = {a: {a: 1}};`

  /** The global scope after `kind a = e` with the single leaf `a`. */
  function DeclaredOnGlobal(kind: DeclKind, e: Expr): State {
    State([Scope(GlobalScope, None, 0, [0], [0], [], [0])],
          [Variable("a", 0, [VariableDef(kind)], [])],
          [Reference("a", 0, None, Write, Some(e), Some(true))], [0])
  }

  lemma DeclaredOnGlobalFacts(kind: DeclKind, e: Expr)
    ensures WF(DeclaredOnGlobal(kind, e)) && Counts(DeclaredOnGlobal(kind, e), 1, 0, 1, 1) &&
      Picks(DeclaredOnGlobal(kind, e), 0, 0, "a", true) &&
      BoundTo(DeclaredOnGlobal(kind, e), Resolve(DeclaredOnGlobal(kind, e), 0, "a"), if kind == Var then None else Some((0, 0)))
  {
    DeclaredOnGlobalReady(kind, e);
    assert Resolve(DeclaredOnGlobal(kind, e), 0, "a") == if kind == Var then None else Some(0);
  }

  lemma DeclaredOnGlobalSteps(kind: DeclKind, e: Expr)
    ensures var defined := Define(NewGlobal(), 0, "a", Some(VariableDef(kind)));
      Ready(defined) && Referencing(defined, "a", Write, Some(e), true) == DeclaredOnGlobal(kind, e)
  {
    var defined := Define(NewGlobal(), 0, "a", Some(VariableDef(kind)));
    SameEqual(defined, State([Scope(GlobalScope, None, 0, [0], [], [], [])], [Variable("a", 0, [VariableDef(kind)], [])], [], [0]));
    SameEqual(Referencing(defined, "a", Write, Some(e), true), DeclaredOnGlobal(kind, e));
  }

  /** `kind a = e;` as the first statement. */
  lemma FirstDeclaration(kind: DeclKind, p: Pattern, e: Expr)
    requires Leaves(p, []) == [Leaf("a", [])] && PureDefaults(p) && Pure(e)
    ensures VisitStmt(NewGlobal(), VarDecl(kind, [Declarator(p, Some(e))])) == DeclaredOnGlobal(kind, e)
  {
    DeclaredOnGlobalSteps(kind, e);
    SingleDeclarator(NewGlobal(), 0, kind, p, "a", e);
    DeclaredOnGlobalReady(kind, e);
    PureExpr(DeclaredOnGlobal(kind, e), e);
  }

  lemma FirstLiteralDeclaration(kind: DeclKind)
    ensures VisitStmt(NewGlobal(), VarDecl(kind, [Declarator(Id("a"), Some(Literal))])) == DeclaredOnGlobal(kind, Literal)
  {
    FirstDeclaration(kind, Id("a"), Literal);
  }

  lemma DeclaredOnGlobalTrace(kind: DeclKind, p: Pattern, e: Expr)
    requires Leaves(p, []) == [Leaf("a", [])] && PureDefaults(p) && Pure(e)
    ensures var code := Program([VarDecl(kind, [Declarator(p, Some(e))])]);
      Ready(DeclaredOnGlobal(kind, e)) && SameSkeleton(DeclaredOnGlobal(kind, e), Analyze(code))
  {
    var s := VarDecl(kind, [Declarator(p, Some(e))]);
    FirstDeclaration(kind, p, e);
    OneStmt(NewGlobal(), s);
    CloseSkeleton(DeclaredOnGlobal(kind, e));
  }

  /** The declaration of `a` on global, with one reference, the declaration's write: it is
      bound to the global variable `a` for `let` and `const`, and left unbound for `var`. */
  lemma DeclarationOnGlobal(kind: DeclKind, p: Pattern, e: Expr)
    requires Leaves(p, []) == [Leaf("a", [])] && PureDefaults(p) && Pure(e)
    ensures var g := Analyze(Program([VarDecl(kind, [Declarator(p, Some(e))])]));
      Counts(g, 1, 0, 1, 1) && Expected(g, 0, 0, "a", if kind == Var then None else Some((0, 0)), true)
  {
    var code := Program([VarDecl(kind, [Declarator(p, Some(e))])]);
    var pre := DeclaredOnGlobal(kind, e);
    DeclaredOnGlobalTrace(kind, p, e);
    DeclaredOnGlobalFacts(kind, e);
    Transfer(code, pre, 1, 0, 1, 1, 0, "a", if kind == Var then None else Some((0, 0)), true);
  }

  // ---------------------------------------------------------------------------------
  // A read of a global binding inside a function: `K a = 0; function foo() { K b = a; }`
  // for K in let, const, var, and `let a = 0; function foo(b = a) {}`

  /** After `kind a = 0; function foo` the scope of `foo` has been entered and holds
      `arguments`. */
  /** `function foo` named on global after `kind a = 0;`. */
  function FooNamed(kind: DeclKind): State {
    State([Scope(GlobalScope, None, 0, [0, 1], [0], [], [0])],
          [Variable("a", 0, [VariableDef(kind)], []), Variable("foo", 0, [FunctionNameDef], [])],
          [Reference("a", 0, None, Write, Some(Literal), Some(true))], [0])
  }

  function FooEntered(kind: DeclKind): State {
    State([Scope(GlobalScope, None, 0, [0, 1], [0], [], [0]),
           Scope(FunctionScope, Some(0), 1, [2], [], [], [])],
          [Variable("a", 0, [VariableDef(kind)], []), Variable("foo", 0, [FunctionNameDef], []),
           Variable("arguments", 1, [], [])],
          [Reference("a", 0, None, Write, Some(Literal), Some(true))], [0, 1])
  }

  /** ... then `b` has been defined in `foo` with `bDef`, written by `a`, and `a` read. */
  function FooReadA(kind: DeclKind, bDef: DefKind): State {
    State([Scope(GlobalScope, None, 0, [0, 1], [0], [], [0]),
           Scope(FunctionScope, Some(0), 1, [2, 3], [1, 2], [], [1, 2])],
          [Variable("a", 0, [VariableDef(kind)], []), Variable("foo", 0, [FunctionNameDef], []),
           Variable("arguments", 1, [], []), Variable("b", 1, [bDef], [])],
          [Reference("a", 0, None, Write, Some(Literal), Some(true)),
           Reference("b", 1, None, Write, Some(Ident("a")), Some(true)),
           Reference("a", 1, None, Read, None, None)], [0, 1])
  }

  lemma DeclaredOnGlobalReady(kind: DeclKind, e: Expr)
    ensures Ready(DeclaredOnGlobal(kind, e))
  {
  }

  lemma FooEnteredReady(kind: DeclKind)
    ensures Ready(FooEntered(kind))
  {
    FooEnteredSteps(kind);
  }

  lemma FooReadAReady(kind: DeclKind, bDef: DefKind)
    ensures Ready(FooReadA(kind, bDef))
  {
    FooReadASteps(kind, bDef);
  }

  lemma FooReadAFacts(kind: DeclKind, bDef: DefKind)
    ensures WF(FooReadA(kind, bDef)) && Counts(FooReadA(kind, bDef), 2, 1, 2, 2) &&
      Picks(FooReadA(kind, bDef), 1, 1, "a", false) &&
      BoundTo(FooReadA(kind, bDef), Resolve(FooReadA(kind, bDef), 1, "a"), if kind == Var then None else Some((0, 0)))
  {
    FooReadAReady(kind, bDef);
    assert Resolve(FooReadA(kind, bDef), 1, "a") == if kind == Var then None else Some(0);
  }

  lemma FooEnteredSteps(kind: DeclKind)
    ensures var named := Define(DeclaredOnGlobal(kind, Literal), 0, "foo", Some(FunctionNameDef));
      Ready(named) && NestScope(named, FunctionScope) == FooEntered(kind)
  {
    DeclaredOnGlobalReady(kind, Literal);
    var named := Define(DeclaredOnGlobal(kind, Literal), 0, "foo", Some(FunctionNameDef));
    SameEqual(named, FooNamed(kind));
    NestFunction(FooNamed(kind));
  }

  lemma FooReadASteps(kind: DeclKind, bDef: DefKind)
    ensures Ready(FooEntered(kind)) && var defined := Define(FooEntered(kind), 1, "b", Some(bDef));
      Ready(defined) && Ready(Referencing(defined, "b", Write, Some(Ident("a")), true)) &&
      Referencing(Referencing(defined, "b", Write, Some(Ident("a")), true), "a", Read, None, false) ==
        FooReadA(kind, bDef)
  {
    FooEnteredReady(kind);
    var defined := Define(FooEntered(kind), 1, "b", Some(bDef));
    var written := Referencing(defined, "b", Write, Some(Ident("a")), true);
    SameEqual(Referencing(written, "a", Read, None, false), FooReadA(kind, bDef));
  }

  /** `function foo(ps) { body }` after `kind a = 0;`. */
  lemma FooDeclared(kind: DeclKind, f: Func)
    ensures Ready(DeclaredOnGlobal(kind, Literal)) && Ready(FooEntered(kind)) &&
      VisitStmt(DeclaredOnGlobal(kind, Literal), FunctionDecl("foo", f)) ==
        Close(VisitStmts(VisitParams(FooEntered(kind), f.params), f.body))
  {
    DeclaredOnGlobalReady(kind, Literal);
    FunctionDeclSteps(DeclaredOnGlobal(kind, Literal), "foo", f);
    FooEnteredSteps(kind);
  }

  lemma FooBodyRead(kind: DeclKind)
    ensures Ready(FooEntered(kind)) && VisitStmts(FooEntered(kind), [VarDecl(kind, [Declarator(Id("b"), Some(Ident("a")))])]) ==
      FooReadA(kind, VariableDef(kind))
  {
    var s := VarDecl(kind, [Declarator(Id("b"), Some(Ident("a")))]);
    FooEnteredReady(kind);
    FooReadASteps(kind, VariableDef(kind));
    SingleDeclarator(FooEntered(kind), 1, kind, Id("b"), "b", Ident("a"));
    assert VisitStmt(FooEntered(kind), s) == FooReadA(kind, VariableDef(kind));
    OneStmt(FooEntered(kind), s);
  }

  lemma FooParamRead(kind: DeclKind)
    ensures Ready(FooEntered(kind)) && VisitStmts(VisitParams(FooEntered(kind), [WithDefault(Id("b"), Ident("a"))]), []) ==
      FooReadA(kind, ParameterDef)
  {
    FooEnteredReady(kind);
    FooReadASteps(kind, ParameterDef);
    DefaultedParam(FooEntered(kind), "b", Ident("a"));
  }

  /** A single parameter `x = d` is defined, written by `d`, and then `d` is visited. */
  lemma DefaultedParam(st: State, x: string, d: Expr)
    requires Ready(st)
    ensures var written := Referencing(Define(st, Current(st), x, Some(ParameterDef)), x, Write, Some(d), true);
      VisitParams(st, [WithDefault(Id(x), d)]) == VisitExpr(written, d)
  {
    var p := WithDefault(Id(x), d);
    var written := Referencing(Define(st, Current(st), x, Some(ParameterDef)), x, Write, Some(d), true);
    assert Leaves(p, []) == [Leaf(x, [d])];
    BindDefaulted(st, x, d);
    assert VisitDefaults(written, Id(x)) == written;
    assert [p][1..] == [];
    assert VisitParams(st, [p]) == VisitParams(VisitDefaults(written, p), []);
  }

  lemma BindDefaulted(st: State, x: string, d: Expr)
    requires Ready(st)
    ensures BindParams(st, [Leaf(x, [d])]) ==
      Referencing(Define(st, Current(st), x, Some(ParameterDef)), x, Write, Some(d), true)
  {
    BindOne(st, Leaf(x, [d]));
    WriteOneDefault(Define(st, Current(st), x, Some(ParameterDef)), x, d);
  }

  lemma BindOne(st: State, l: Leaf)
    requires Ready(st)
    ensures BindParams(st, [l]) == WriteDefaults(Define(st, Current(st), l.name, Some(ParameterDef)), l.name, l.defaults, true)
  {
    assert [l][1..] == [];
  }

  lemma WriteOneDefault(st: State, x: string, d: Expr)
    requires Ready(st)
    ensures WriteDefaults(st, x, [d], true) == Referencing(st, x, Write, Some(d), true)
  {
    assert [d][1..] == [];
  }

  /** The global binding of `a` read from a function's body. */
  lemma ReadInFunctionTrace(kind: DeclKind)
    ensures var code := Program([
        VarDecl(kind, [Declarator(Id("a"), Some(Literal))]),
        FunctionDecl("foo", Func([], [VarDecl(kind, [Declarator(Id("b"), Some(Ident("a")))])]))]);
      Ready(FooReadA(kind, VariableDef(kind))) && SameSkeleton(FooReadA(kind, VariableDef(kind)), Analyze(code))
  {
    var s1 := VarDecl(kind, [Declarator(Id("a"), Some(Literal))]);
    var f := Func([], [VarDecl(kind, [Declarator(Id("b"), Some(Ident("a")))])]);
    FirstLiteralDeclaration(kind);
    FooDeclared(kind, f);
    assert VisitParams(FooEntered(kind), []) == FooEntered(kind);
    FooBodyRead(kind);
    FooReadAReady(kind, VariableDef(kind));
    FunctionSecondTrace(s1, DeclaredOnGlobal(kind, Literal), "foo", f, FooEntered(kind), FooReadA(kind, VariableDef(kind)));
  }

  /** `kind a = 0; function foo() { kind b = a; }`: two scopes, `foo` holding `arguments`
      and `b` and the references to `b` and `a`; the read of `a` is bound to the global `a`
      for `let` and `const` and left unbound for `var`. */
  lemma ReadInFunction(kind: DeclKind)
    ensures var g := Analyze(Program([
        VarDecl(kind, [Declarator(Id("a"), Some(Literal))]),
        FunctionDecl("foo", Func([], [VarDecl(kind, [Declarator(Id("b"), Some(Ident("a")))])]))]));
      Counts(g, 2, 1, 2, 2) && Expected(g, 1, 1, "a", if kind == Var then None else Some((0, 0)), false)
  {
    var code := Program([
        VarDecl(kind, [Declarator(Id("a"), Some(Literal))]),
        FunctionDecl("foo", Func([], [VarDecl(kind, [Declarator(Id("b"), Some(Ident("a")))])]))]);
    var pre := FooReadA(kind, VariableDef(kind));
    ReadInFunctionTrace(kind);
    FooReadAFacts(kind, VariableDef(kind));
    Transfer(code, pre, 2, 1, 2, 2, 1, "a", if kind == Var then None else Some((0, 0)), false);
  }

  /** `kind a = 0; function foo(b = a) {}`: the default value's read of `a`, in the scope
      of `foo`, is bound to the global `a` for `let` and `const`. */
  lemma ReadInDefaultParameter(kind: DeclKind)
    ensures var g := Analyze(Program([
        VarDecl(kind, [Declarator(Id("a"), Some(Literal))]),
        FunctionDecl("foo", Func([WithDefault(Id("b"), Ident("a"))], []))]));
      Counts(g, 2, 1, 2, 2) && Expected(g, 1, 1, "a", if kind == Var then None else Some((0, 0)), false)
  {
    var code := Program([
        VarDecl(kind, [Declarator(Id("a"), Some(Literal))]),
        FunctionDecl("foo", Func([WithDefault(Id("b"), Ident("a"))], []))]);
    var pre := FooReadA(kind, ParameterDef);
    ReadInDefaultParameterTrace(kind);
    FooReadAFacts(kind, ParameterDef);
    Transfer(code, pre, 2, 1, 2, 2, 1, "a", if kind == Var then None else Some((0, 0)), false);
  }

  lemma ReadInDefaultParameterTrace(kind: DeclKind)
    ensures var code := Program([
        VarDecl(kind, [Declarator(Id("a"), Some(Literal))]),
        FunctionDecl("foo", Func([WithDefault(Id("b"), Ident("a"))], []))]);
      Ready(FooReadA(kind, ParameterDef)) && SameSkeleton(FooReadA(kind, ParameterDef), Analyze(code))
  {
    var s1 := VarDecl(kind, [Declarator(Id("a"), Some(Literal))]);
    var f := Func([WithDefault(Id("b"), Ident("a"))], []);
    FirstLiteralDeclaration(kind);
    FooDeclared(kind, f);
    FooParamRead(kind);
    FooReadAReady(kind, ParameterDef);
    FunctionSecondTrace(s1, DeclaredOnGlobal(kind, Literal), "foo", f, FooEntered(kind), FooReadA(kind, ParameterDef));
  }

  // ---------------------------------------------------------------------------------
  // A function declaration on global: `function a() {} a();` and
  // `function a() {} function foo() { K b = a(); }` for K in let, const, var

  /** After `function x() {}`: its scope has been entered and closed. */
  function FnDeclared(x: string): State {
    State([Glob([0], []), Fn(0, 1, [1], [])],
          [Variable(x, 0, [FunctionNameDef], []), Variable("arguments", 1, [], [])], [], [0])
  }

  /** ... then `x()`: one read of `x` in the global scope. */
  function FnCalled(x: string): State {
    State([Glob([0], [0]), Fn(0, 1, [1], [])],
          [Variable(x, 0, [FunctionNameDef], []), Variable("arguments", 1, [], [])],
          [Reference(x, 0, None, Read, None, None)], [0])
  }

  lemma FnDeclaredReady(x: string)
    ensures Ready(FnDeclared(x))
  {
  }

  lemma FnCalledReady(x: string)
    ensures Ready(FnCalled(x))
  {
  }

  /** After the name of `function x() {}` is defined, before its scope is entered. */
  function FnNamed(x: string): State {
    State([Glob([0], [])], [Variable(x, 0, [FunctionNameDef], [])], [], [0])
  }

  lemma FnNamedSteps(x: string)
    ensures Define(NewGlobal(), 0, x, Some(FunctionNameDef)) == FnNamed(x) && Ready(FnNamed(x))
  {
    SameEqual(Define(NewGlobal(), 0, x, Some(FunctionNameDef)), FnNamed(x));
  }

  lemma FnEnteredSteps(x: string)
    requires Ready(FnNamed(x))
    ensures NestScope(FnNamed(x), FunctionScope) == FnDeclared(x).(stack := [0, 1])
  {
    NestFunction(FnNamed(x));
  }

  lemma EmptyFunctionFirst(x: string)
    ensures VisitStmt(NewGlobal(), FunctionDecl(x, Func([], []))) == FnDeclared(x)
  {
    FunctionDeclSteps(NewGlobal(), x, Func([], []));
    FnNamedSteps(x);
    FnEnteredSteps(x);
    var entered := FnDeclared(x).(stack := [0, 1]);
    assert VisitParams(entered, []) == entered;
    assert VisitStmts(entered, []) == entered;
    CloseQuiet(entered);
    assert [0, 1][..1] == [0];
  }

  lemma CallStep(x: string)
    ensures VisitStmt(FnDeclared(x), ExprStmt(Call(Ident(x), []))) == FnCalled(x)
  {
    FnDeclaredReady(x);
    SameEqual(Referencing(FnDeclared(x), x, Read, None, false), FnCalled(x));
    assert VisitExpr(FnDeclared(x), Ident(x)) == FnCalled(x);
    assert VisitExprs(FnCalled(x), []) == FnCalled(x);
    assert VisitExpr(FnDeclared(x), Call(Ident(x), [])) == FnCalled(x);
  }

  lemma FnCalledFacts(x: string)
    ensures WF(FnCalled(x)) && Counts(FnCalled(x), 2, 0, 1, 1) && Picks(FnCalled(x), 0, 0, x, false) &&
      BoundTo(FnCalled(x), Resolve(FnCalled(x), 0, x), None)
  {
    FnCalledReady(x);
    assert FunctionNameDef in FnCalled(x).variables[0].defs;
    assert !StaticForGlobal(FnCalled(x).variables[0]);
    assert Lookup(FnCalled(x).variables, [0], x) == Some(0);
    assert Resolve(FnCalled(x), 0, x) == None;
  }

  lemma CallOfGlobalFunctionTrace(x: string)
    ensures var code := Program([FunctionDecl(x, Func([], [])), ExprStmt(Call(Ident(x), []))]);
      Ready(FnCalled(x)) && SameSkeleton(FnCalled(x), Analyze(code))
  {
    EmptyFunctionFirst(x);
    CallStep(x);
    TwoStmts(NewGlobal(), FunctionDecl(x, Func([], [])), ExprStmt(Call(Ident(x), [])));
    FnCalledReady(x);
    CloseSkeleton(FnCalled(x));
  }

  /** `function x() {} x();`: the function's own scope besides the global one, which holds
      `x` and the call's read of it; the read is left unbound. */
  lemma CallOfGlobalFunction(x: string)
    ensures var g := Analyze(Program([FunctionDecl(x, Func([], [])), ExprStmt(Call(Ident(x), []))]));
      Counts(g, 2, 0, 1, 1) && Expected(g, 0, 0, x, None, false)
  {
    var code := Program([FunctionDecl(x, Func([], [])), ExprStmt(Call(Ident(x), []))]);
    CallOfGlobalFunctionTrace(x);
    FnCalledFacts(x);
    Transfer(code, FnCalled(x), 2, 0, 1, 1, 0, x, None, false);
  }

  /** After `function a() {} function foo`: the scope of `foo` has been entered. */
  /** `function foo` named on global after `function a() {}`. */
  function FnThenFoo(): State {
    State([Glob([0, 2], []), Fn(0, 1, [1], [])],
          [Variable("a", 0, [FunctionNameDef], []), Variable("arguments", 1, [], []),
           Variable("foo", 0, [FunctionNameDef], [])], [], [0])
  }

  function FooAfterFn(kind: DeclKind): State {
    State([Glob([0, 2], []), Fn(0, 1, [1], []), Fn(0, 2, [3], [])],
          [Variable("a", 0, [FunctionNameDef], []), Variable("arguments", 1, [], []),
           Variable("foo", 0, [FunctionNameDef], []), Variable("arguments", 2, [], [])], [], [0, 2])
  }

  /** ... then `kind b = a();` in `foo`. */
  function FooCallsA(kind: DeclKind): State {
    State([Glob([0, 2], []), Fn(0, 1, [1], []), Fn(0, 2, [3, 4], [0, 1])],
          [Variable("a", 0, [FunctionNameDef], []), Variable("arguments", 1, [], []),
           Variable("foo", 0, [FunctionNameDef], []), Variable("arguments", 2, [], []),
           Variable("b", 2, [VariableDef(kind)], [])],
          [Reference("b", 2, None, Write, Some(Call(Ident("a"), [])), Some(true)),
           Reference("a", 2, None, Read, None, None)], [0, 2])
  }

  lemma FooAfterFnReady(kind: DeclKind)
    ensures Ready(FooAfterFn(kind))
  {
    FooAfterFnSteps(kind);
  }

  lemma FooCallsAReady(kind: DeclKind)
    ensures Ready(FooCallsA(kind))
  {
    FooCallsASteps(kind);
  }

  lemma FooAfterFnSteps(kind: DeclKind)
    ensures var named := Define(FnDeclared("a"), 0, "foo", Some(FunctionNameDef));
      Ready(named) && NestScope(named, FunctionScope) == FooAfterFn(kind)
  {
    FnDeclaredReady("a");
    var named := Define(FnDeclared("a"), 0, "foo", Some(FunctionNameDef));
    SameEqual(named, FnThenFoo());
    NestFunction(FnThenFoo());
  }

  lemma FooCallsASteps(kind: DeclKind)
    ensures var defined := Define(FooAfterFn(kind), 2, "b", Some(VariableDef(kind)));
      Ready(defined) && Ready(Referencing(defined, "b", Write, Some(Call(Ident("a"), [])), true)) &&
      Referencing(Referencing(defined, "b", Write, Some(Call(Ident("a"), [])), true), "a", Read, None, false) ==
        FooCallsA(kind)
  {
    FooAfterFnReady(kind);
    var defined := Define(FooAfterFn(kind), 2, "b", Some(VariableDef(kind)));
    var written := Referencing(defined, "b", Write, Some(Call(Ident("a"), [])), true);
    SameEqual(Referencing(written, "a", Read, None, false), FooCallsA(kind));
  }

  /** `function foo(ps) { body }` after `function a() {}`. */
  lemma FooAfterFnDeclared(kind: DeclKind, f: Func)
    ensures Ready(FnDeclared("a")) && Ready(FooAfterFn(kind)) &&
      VisitStmt(FnDeclared("a"), FunctionDecl("foo", f)) ==
        Close(VisitStmts(VisitParams(FooAfterFn(kind), f.params), f.body))
  {
    FnDeclaredReady("a");
    FunctionDeclSteps(FnDeclared("a"), "foo", f);
    FooAfterFnSteps(kind);
  }

  lemma FooCallExpr(kind: DeclKind)
    ensures Ready(FooAfterFn(kind)) && var e := Call(Ident("a"), []);
      var defined := Define(FooAfterFn(kind), 2, "b", Some(VariableDef(kind)));
      Ready(Referencing(defined, "b", Write, Some(e), true)) &&
      VisitExpr(Referencing(defined, "b", Write, Some(e), true), e) == FooCallsA(kind)
  {
    FooAfterFnReady(kind);
    FooCallsASteps(kind);
    var defined := Define(FooAfterFn(kind), 2, "b", Some(VariableDef(kind)));
    BareCalleeUnfold(Referencing(defined, "b", Write, Some(Call(Ident("a"), [])), true), Call(Ident("a"), []));
  }

  lemma FooBodyCall(kind: DeclKind)
    ensures Ready(FooAfterFn(kind)) && VisitStmts(FooAfterFn(kind), [VarDecl(kind, [Declarator(Id("b"), Some(Call(Ident("a"), [])))])]) ==
      FooCallsA(kind)
  {
    var e := Call(Ident("a"), []);
    var s := VarDecl(kind, [Declarator(Id("b"), Some(e))]);
    FooAfterFnReady(kind);
    FooCallExpr(kind);
    SingleDeclarator(FooAfterFn(kind), 2, kind, Id("b"), "b", e);
    assert VisitStmt(FooAfterFn(kind), s) == FooCallsA(kind);
    OneStmt(FooAfterFn(kind), s);
  }

  lemma FooCallsAFacts(kind: DeclKind)
    ensures WF(FooCallsA(kind)) && Counts(FooCallsA(kind), 3, 2, 2, 2) &&
      Picks(FooCallsA(kind), 2, 1, "a", false) && BoundTo(FooCallsA(kind), Resolve(FooCallsA(kind), 2, "a"), None)
  {
    FooCallsAReady(kind);
    assert FunctionNameDef in FooCallsA(kind).variables[0].defs;
    assert !StaticForGlobal(FooCallsA(kind).variables[0]);
    assert Resolve(FooCallsA(kind), 2, "a") == None;
  }

  lemma CallInFunctionTrace(kind: DeclKind)
    ensures var code := Program([FunctionDecl("a", Func([], [])),
        FunctionDecl("foo", Func([], [VarDecl(kind, [Declarator(Id("b"), Some(Call(Ident("a"), [])))])]))]);
      Ready(FooCallsA(kind)) && SameSkeleton(FooCallsA(kind), Analyze(code))
  {
    var s1 := FunctionDecl("a", Func([], []));
    var f := Func([], [VarDecl(kind, [Declarator(Id("b"), Some(Call(Ident("a"), [])))])]);
    EmptyFunctionFirst("a");
    FooAfterFnDeclared(kind, f);
    assert VisitParams(FooAfterFn(kind), []) == FooAfterFn(kind);
    FooBodyCall(kind);
    FooCallsAReady(kind);
    FnDeclaredReady("a");
    FunctionSecondTrace(s1, FnDeclared("a"), "foo", f, FooAfterFn(kind), FooCallsA(kind));
  }

  /** `function a() {} function foo() { kind b = a(); }`: three scopes; the read of `a` in
      `foo` is left unbound. */
  lemma CallInFunction(kind: DeclKind)
    ensures var g := Analyze(Program([FunctionDecl("a", Func([], [])),
        FunctionDecl("foo", Func([], [VarDecl(kind, [Declarator(Id("b"), Some(Call(Ident("a"), [])))])]))]));
      Counts(g, 3, 2, 2, 2) && Expected(g, 2, 1, "a", None, false)
  {
    var code := Program([FunctionDecl("a", Func([], [])),
        FunctionDecl("foo", Func([], [VarDecl(kind, [Declarator(Id("b"), Some(Call(Ident("a"), [])))])]))]);
    CallInFunctionTrace(kind);
    FooCallsAFacts(kind);
    Transfer(code, FooCallsA(kind), 3, 2, 2, 2, 1, "a", None, false);
  }

  // ---------------------------------------------------------------------------------
  // A class declaration on global: `class A {} K b = new A();` and
  // `class A {} function foo() { K b = new A(); }` for K in let, const, var

  /** The closed scope of an empty class body declared on global, holding the class's own
      binding of its name. */
  function ClassBody(): Scope {
    Scope(ClassScope, Some(0), 0, [1], [], [], [])
  }

  /** After `class x {}`: the name is bound on global and in the class scope. */
  function ClassDeclared(x: string): State {
    State([Glob([0], []), ClassBody()],
          [Variable(x, 0, [ClassNameDef], []), Variable(x, 1, [ClassNameDef], [])], [], [0])
  }

  lemma ClassDeclaredReady(x: string)
    ensures Ready(ClassDeclared(x))
  {
    EmptyClassFirst(x);
  }

  /** `class x {}` just entered: the class scope is open and still empty. */
  function ClassEntered(x: string): State {
    State([Glob([0], []), Scope(ClassScope, Some(0), 0, [], [], [], [])],
          [Variable(x, 0, [ClassNameDef], [])], [], [0, 1])
  }

  lemma ClassEnteredStep(x: string)
    ensures var named := Define(NewGlobal(), 0, x, Some(ClassNameDef));
      Ready(named) && NestScope(named, ClassScope) == ClassEntered(x)
  {
    var named := Define(NewGlobal(), 0, x, Some(ClassNameDef));
    SameEqual(named, State([Glob([0], [])], [Variable(x, 0, [ClassNameDef], [])], [], [0]));
    SameEqual(NestScope(named, ClassScope), ClassEntered(x));
  }

  lemma ClassInnerStep(x: string)
    requires Ready(ClassEntered(x))
    ensures Define(ClassEntered(x), 1, x, Some(ClassNameDef)) == ClassDeclared(x).(stack := [0, 1])
  {
    SameEqual(Define(ClassEntered(x), 1, x, Some(ClassNameDef)), ClassDeclared(x).(stack := [0, 1]));
  }

  lemma EmptyClassFirst(x: string)
    ensures VisitStmt(NewGlobal(), ClassDecl(x)) == ClassDeclared(x)
  {
    ClassEnteredStep(x);
    ClassInnerStep(x);
    var inner := ClassDeclared(x).(stack := [0, 1]);
    assert Current(ClassEntered(x)) == 1;
    CloseQuiet(inner);
    assert [0, 1][..1] == [0];
  }

  /** ... then `kind b = new A();` on global. */
  function NewOnGlobal(kind: DeclKind): State {
    State([Glob([0, 2], [0, 1]), ClassBody()],
          [Variable("A", 0, [ClassNameDef], []), Variable("A", 1, [ClassNameDef], []),
           Variable("b", 0, [VariableDef(kind)], [])],
          [Reference("b", 0, None, Write, Some(New(Ident("A"), [])), Some(true)),
           Reference("A", 0, None, Read, None, None)], [0])
  }

  /** `class A {}` and then `b` defined on global. */
  function ClassThenB(kind: DeclKind): State {
    State([Glob([0, 2], []), ClassBody()],
          [Variable("A", 0, [ClassNameDef], []), Variable("A", 1, [ClassNameDef], []),
           Variable("b", 0, [VariableDef(kind)], [])], [], [0])
  }

  lemma ClassThenBStep(kind: DeclKind)
    ensures Ready(ClassDeclared("A")) && Define(ClassDeclared("A"), 0, "b", Some(VariableDef(kind))) == ClassThenB(kind)
  {
    ClassDeclaredReady("A");
    SameEqual(Define(ClassDeclared("A"), 0, "b", Some(VariableDef(kind))), ClassThenB(kind));
  }

  lemma NewOnGlobalRefs(kind: DeclKind)
    requires Ready(ClassThenB(kind))
    ensures var written := Referencing(ClassThenB(kind), "b", Write, Some(New(Ident("A"), [])), true);
      Referencing(written, "A", Read, None, false) == NewOnGlobal(kind)
  {
    var written := Referencing(ClassThenB(kind), "b", Write, Some(New(Ident("A"), [])), true);
    SameEqual(Referencing(written, "A", Read, None, false), NewOnGlobal(kind));
  }

  lemma NewOnGlobalSteps(kind: DeclKind)
    ensures Ready(ClassThenB(kind)) && var e := New(Ident("A"), []);
      var written := Referencing(ClassThenB(kind), "b", Write, Some(e), true);
      Ready(ClassThenB(kind)) && Ready(NewOnGlobal(kind)) && VisitExpr(written, e) == NewOnGlobal(kind)
  {
    var e := New(Ident("A"), []);
    ClassThenBStep(kind);
    NewOnGlobalRefs(kind);
    BareCalleeUnfold(Referencing(ClassThenB(kind), "b", Write, Some(e), true), e);
  }

  lemma NewOnGlobalReady(kind: DeclKind)
    ensures Ready(NewOnGlobal(kind))
  {
    NewOnGlobalSteps(kind);
  }

  lemma NewOnGlobalStep(kind: DeclKind)
    ensures Ready(ClassDeclared("A")) &&
      VisitStmt(ClassDeclared("A"), VarDecl(kind, [Declarator(Id("b"), Some(New(Ident("A"), [])))])) ==
      NewOnGlobal(kind)
  {
    var e := New(Ident("A"), []);
    ClassThenBStep(kind);
    NewOnGlobalSteps(kind);
    SingleDeclarator(ClassDeclared("A"), 0, kind, Id("b"), "b", e);
  }

  lemma NewOnGlobalFacts(kind: DeclKind)
    ensures WF(NewOnGlobal(kind)) && Counts(NewOnGlobal(kind), 2, 0, 2, 2) &&
      Picks(NewOnGlobal(kind), 0, 1, "A", false) &&
      BoundTo(NewOnGlobal(kind), Resolve(NewOnGlobal(kind), 0, "A"), Some((0, 0)))
  {
    NewOnGlobalReady(kind);
    assert StaticForGlobal(NewOnGlobal(kind).variables[0]);
    assert Resolve(NewOnGlobal(kind), 0, "A") == Some(0);
  }

  lemma ClassOnGlobalTrace(kind: DeclKind)
    ensures var code := Program([ClassDecl("A"), VarDecl(kind, [Declarator(Id("b"), Some(New(Ident("A"), [])))])]);
      Ready(NewOnGlobal(kind)) && SameSkeleton(NewOnGlobal(kind), Analyze(code))
  {
    EmptyClassFirst("A");
    NewOnGlobalStep(kind);
    TwoStmts(NewGlobal(), ClassDecl("A"), VarDecl(kind, [Declarator(Id("b"), Some(New(Ident("A"), [])))]));
    NewOnGlobalReady(kind);
    CloseSkeleton(NewOnGlobal(kind));
  }

  /** `class A {} kind b = new A();`: the class scope besides the global one, which holds
      `A` and `b` and both references; the read of `A` is bound to the global `A`. */
  lemma ClassOnGlobal(kind: DeclKind)
    ensures var g := Analyze(Program([ClassDecl("A"), VarDecl(kind, [Declarator(Id("b"), Some(New(Ident("A"), [])))])]));
      Counts(g, 2, 0, 2, 2) && Expected(g, 0, 1, "A", Some((0, 0)), false)
  {
    var code := Program([ClassDecl("A"), VarDecl(kind, [Declarator(Id("b"), Some(New(Ident("A"), [])))])]);
    ClassOnGlobalTrace(kind);
    NewOnGlobalFacts(kind);
    Transfer(code, NewOnGlobal(kind), 2, 0, 2, 2, 1, "A", Some((0, 0)), false);
  }

  /** After `class A {} function foo`: the scope of `foo` has been entered. */
  function FooAfterClass(kind: DeclKind): State {
    State([Glob([0, 2], []), ClassBody(), Fn(0, 2, [3], [])],
          [Variable("A", 0, [ClassNameDef], []), Variable("A", 1, [ClassNameDef], []),
           Variable("foo", 0, [FunctionNameDef], []), Variable("arguments", 2, [], [])], [], [0, 2])
  }

  /** ... then `kind b = new A();` in `foo`. */
  function FooNewsA(kind: DeclKind): State {
    State([Glob([0, 2], []), ClassBody(), Fn(0, 2, [3, 4], [0, 1])],
          [Variable("A", 0, [ClassNameDef], []), Variable("A", 1, [ClassNameDef], []),
           Variable("foo", 0, [FunctionNameDef], []), Variable("arguments", 2, [], []),
           Variable("b", 2, [VariableDef(kind)], [])],
          [Reference("b", 2, None, Write, Some(New(Ident("A"), [])), Some(true)),
           Reference("A", 2, None, Read, None, None)], [0, 2])
  }

  lemma FooAfterClassReady(kind: DeclKind)
    ensures Ready(FooAfterClass(kind))
  {
    FooAfterClassStep(kind);
  }

  lemma FooNewsAReady(kind: DeclKind)
    ensures Ready(FooNewsA(kind))
  {
    FooNewsASteps(kind);
  }

  /** `class A {}` and then `foo` defined on global. */
  function ClassThenFoo(kind: DeclKind): State {
    State([Glob([0, 2], []), ClassBody()],
          [Variable("A", 0, [ClassNameDef], []), Variable("A", 1, [ClassNameDef], []),
           Variable("foo", 0, [FunctionNameDef], [])], [], [0])
  }

  lemma ClassThenFooStep(kind: DeclKind)
    ensures Ready(ClassDeclared("A")) &&
      Define(ClassDeclared("A"), 0, "foo", Some(FunctionNameDef)) == ClassThenFoo(kind)
  {
    ClassDeclaredReady("A");
    SameEqual(Define(ClassDeclared("A"), 0, "foo", Some(FunctionNameDef)), ClassThenFoo(kind));
  }

  lemma FooAfterClassStep(kind: DeclKind)
    ensures Ready(ClassDeclared("A")) && Ready(ClassThenFoo(kind)) &&
      Define(ClassDeclared("A"), 0, "foo", Some(FunctionNameDef)) == ClassThenFoo(kind) &&
      NestScope(ClassThenFoo(kind), FunctionScope) == FooAfterClass(kind)
  {
    ClassThenFooStep(kind);
    NestFunction(ClassThenFoo(kind));
  }

  /** `function foo(ps) { body }` after `class A {}`. */
  lemma FooAfterClassDeclared(kind: DeclKind, f: Func)
    ensures Ready(ClassDeclared("A")) && Ready(FooAfterClass(kind)) &&
      VisitStmt(ClassDeclared("A"), FunctionDecl("foo", f)) ==
        Close(VisitStmts(VisitParams(FooAfterClass(kind), f.params), f.body))
  {
    ClassDeclaredReady("A");
    FunctionDeclSteps(ClassDeclared("A"), "foo", f);
    FooAfterClassStep(kind);
  }

  lemma FooNewExpr(kind: DeclKind)
    ensures Ready(FooAfterClass(kind)) && var e := New(Ident("A"), []);
      var defined := Define(FooAfterClass(kind), 2, "b", Some(VariableDef(kind)));
      Ready(Referencing(defined, "b", Write, Some(e), true)) &&
      VisitExpr(Referencing(defined, "b", Write, Some(e), true), e) == FooNewsA(kind)
  {
    FooAfterClassReady(kind);
    FooNewsASteps(kind);
    var defined := Define(FooAfterClass(kind), 2, "b", Some(VariableDef(kind)));
    BareCalleeUnfold(Referencing(defined, "b", Write, Some(New(Ident("A"), [])), true), New(Ident("A"), []));
  }

  lemma FooNewsASteps(kind: DeclKind)
    ensures var defined := Define(FooAfterClass(kind), 2, "b", Some(VariableDef(kind)));
      Ready(defined) && Ready(Referencing(defined, "b", Write, Some(New(Ident("A"), [])), true)) &&
      Referencing(Referencing(defined, "b", Write, Some(New(Ident("A"), [])), true), "A", Read, None, false) ==
        FooNewsA(kind)
  {
    FooAfterClassReady(kind);
    var defined := Define(FooAfterClass(kind), 2, "b", Some(VariableDef(kind)));
    var written := Referencing(defined, "b", Write, Some(New(Ident("A"), [])), true);
    SameEqual(Referencing(written, "A", Read, None, false), FooNewsA(kind));
  }

  lemma FooBodyNew(kind: DeclKind)
    ensures Ready(FooAfterClass(kind)) &&
      VisitStmts(FooAfterClass(kind), [VarDecl(kind, [Declarator(Id("b"), Some(New(Ident("A"), [])))])]) ==
      FooNewsA(kind)
  {
    var e := New(Ident("A"), []);
    var s := VarDecl(kind, [Declarator(Id("b"), Some(e))]);
    FooAfterClassReady(kind);
    FooNewExpr(kind);
    SingleDeclarator(FooAfterClass(kind), 2, kind, Id("b"), "b", e);
    assert VisitStmt(FooAfterClass(kind), s) == FooNewsA(kind);
    OneStmt(FooAfterClass(kind), s);
  }

  lemma FooNewsAFacts(kind: DeclKind)
    ensures WF(FooNewsA(kind)) && Counts(FooNewsA(kind), 3, 2, 2, 2) &&
      Picks(FooNewsA(kind), 2, 1, "A", false) &&
      BoundTo(FooNewsA(kind), Resolve(FooNewsA(kind), 2, "A"), Some((0, 0)))
  {
    FooNewsAReady(kind);
    assert StaticForGlobal(FooNewsA(kind).variables[0]);
    assert Resolve(FooNewsA(kind), 2, "A") == Some(0);
  }

  lemma ClassInFunctionTrace(kind: DeclKind)
    ensures var code := Program([ClassDecl("A"),
        FunctionDecl("foo", Func([], [VarDecl(kind, [Declarator(Id("b"), Some(New(Ident("A"), [])))])]))]);
      Ready(FooNewsA(kind)) && SameSkeleton(FooNewsA(kind), Analyze(code))
  {
    var f := Func([], [VarDecl(kind, [Declarator(Id("b"), Some(New(Ident("A"), [])))])]);
    EmptyClassFirst("A");
    FooAfterClassDeclared(kind, f);
    assert VisitParams(FooAfterClass(kind), []) == FooAfterClass(kind);
    FooBodyNew(kind);
    FooNewsAReady(kind);
    FunctionSecondTrace(ClassDecl("A"), ClassDeclared("A"), "foo", f, FooAfterClass(kind), FooNewsA(kind));
  }

  /** `class A {} function foo() { kind b = new A(); }`: three scopes; the read of `A` in
      `foo` is bound to the global `A`. */
  lemma ClassInFunction(kind: DeclKind)
    ensures var g := Analyze(Program([ClassDecl("A"),
        FunctionDecl("foo", Func([], [VarDecl(kind, [Declarator(Id("b"), Some(New(Ident("A"), [])))])]))]));
      Counts(g, 3, 2, 2, 2) && Expected(g, 2, 1, "A", Some((0, 0)), false)
  {
    var code := Program([ClassDecl("A"),
        FunctionDecl("foo", Func([], [VarDecl(kind, [Declarator(Id("b"), Some(New(Ident("A"), [])))])]))]);
    ClassInFunctionTrace(kind);
    FooNewsAFacts(kind);
    Transfer(code, FooNewsA(kind), 3, 2, 2, 2, 1, "A", Some((0, 0)), false);
  }

  // ---------------------------------------------------------------------------------
  // Declarations inside a function: `function foo() { K a = 0; }` and
  // `function foo() { K a = 0; function bar() { K b = a; } }` for K in let, var

  /** After `function foo`: its scope has been entered. */
  function FooOnly(kind: DeclKind): State {
    State([Glob([0], []), Fn(0, 1, [1], [])],
          [Variable("foo", 0, [FunctionNameDef], []), Variable("arguments", 1, [], [])], [], [0, 1])
  }

  /** ... then `kind a = 0;` in `foo`. */
  function FooDeclA(kind: DeclKind): State {
    State([Glob([0], []), Fn(0, 1, [1, 2], [0])],
          [Variable("foo", 0, [FunctionNameDef], []), Variable("arguments", 1, [], []),
           Variable("a", 1, [VariableDef(kind)], [])],
          [Reference("a", 1, None, Write, Some(Literal), Some(true))], [0, 1])
  }

  lemma FooOnlyReady(kind: DeclKind)
    ensures Ready(FooOnly(kind))
  {
  }

  lemma FooDeclAReady(kind: DeclKind)
    ensures Ready(FooDeclA(kind))
  {
    FooDeclAStep(kind);
  }

  /** `function foo(ps) { body }` as the first statement. */
  lemma FooFirst(kind: DeclKind, f: Func)
    ensures Ready(FooOnly(kind)) &&
      VisitStmt(NewGlobal(), FunctionDecl("foo", f)) == Close(VisitStmts(VisitParams(FooOnly(kind), f.params), f.body))
  {
    FunctionDeclSteps(NewGlobal(), "foo", f);
    FnNamedSteps("foo");
    FnEnteredSteps("foo");
    assert FooOnly(kind) == FnDeclared("foo").(stack := [0, 1]);
  }

  lemma FooDeclAStep(kind: DeclKind)
    ensures Ready(FooOnly(kind)) &&
      VisitStmt(FooOnly(kind), VarDecl(kind, [Declarator(Id("a"), Some(Literal))])) == FooDeclA(kind)
  {
    FooOnlyReady(kind);
    assert FooOnly(kind).scopes[1].variableScope == 1;
    var defined := Define(FooOnly(kind), 1, "a", Some(VariableDef(kind)));
    SameEqual(Referencing(defined, "a", Write, Some(Literal), true), FooDeclA(kind));
    SingleDeclarator(FooOnly(kind), 1, kind, Id("a"), "a", Literal);
  }

  lemma FooDeclAFacts(kind: DeclKind)
    ensures WF(FooDeclA(kind)) && Counts(FooDeclA(kind), 2, 1, 2, 1) &&
      Picks(FooDeclA(kind), 1, 0, "a", true) &&
      BoundTo(FooDeclA(kind), Resolve(FooDeclA(kind), 1, "a"), Some((1, 1)))
  {
    FooDeclAReady(kind);
    assert Resolve(FooDeclA(kind), 1, "a") == Some(2);
  }

  lemma DeclarationInFunctionTrace(kind: DeclKind)
    ensures var code := Program([FunctionDecl("foo", Func([], [VarDecl(kind, [Declarator(Id("a"), Some(Literal))])]))]);
      Ready(FooDeclA(kind)) && SameSkeleton(FooDeclA(kind), Analyze(code))
  {
    var s := VarDecl(kind, [Declarator(Id("a"), Some(Literal))]);
    FooFirst(kind, Func([], [s]));
    assert VisitParams(FooOnly(kind), []) == FooOnly(kind);
    FooDeclAStep(kind);
    OneStmt(FooOnly(kind), s);
    OneStmt(NewGlobal(), FunctionDecl("foo", Func([], [s])));
    FooDeclAReady(kind);
    CloseTwice(FooDeclA(kind));
  }

  /** `function foo() { kind a = 0; }`: two scopes; `foo` holds `arguments` and `a`, and the
      initialising write to `a` is bound to that `a`. */
  lemma DeclarationInFunction(kind: DeclKind)
    ensures var g := Analyze(Program([FunctionDecl("foo", Func([], [VarDecl(kind, [Declarator(Id("a"), Some(Literal))])]))]));
      Counts(g, 2, 1, 2, 1) && Expected(g, 1, 0, "a", Some((1, 1)), true)
  {
    var code := Program([FunctionDecl("foo", Func([], [VarDecl(kind, [Declarator(Id("a"), Some(Literal))])]))]);
    DeclarationInFunctionTrace(kind);
    FooDeclAFacts(kind);
    Transfer(code, FooDeclA(kind), 2, 1, 2, 1, 0, "a", Some((1, 1)), true);
  }

  /** ... then `function bar` in `foo`: the scope of `bar` has been entered. */
  function BarEntered(kind: DeclKind): State {
    State([Glob([0], []), Fn(0, 1, [1, 2, 3], [0]), Fn(1, 2, [4], [])],
          [Variable("foo", 0, [FunctionNameDef], []), Variable("arguments", 1, [], []),
           Variable("a", 1, [VariableDef(kind)], []), Variable("bar", 1, [FunctionNameDef], []),
           Variable("arguments", 2, [], [])],
          [Reference("a", 1, None, Write, Some(Literal), Some(true))], [0, 1, 2])
  }

  /** ... then `kind b = a;` in `bar`. */
  function BarReadA(kind: DeclKind): State {
    State([Glob([0], []), Fn(0, 1, [1, 2, 3], [0]), Fn(1, 2, [4, 5], [1, 2])],
          [Variable("foo", 0, [FunctionNameDef], []), Variable("arguments", 1, [], []),
           Variable("a", 1, [VariableDef(kind)], []), Variable("bar", 1, [FunctionNameDef], []),
           Variable("arguments", 2, [], []), Variable("b", 2, [VariableDef(kind)], [])],
          [Reference("a", 1, None, Write, Some(Literal), Some(true)),
           Reference("b", 2, None, Write, Some(Ident("a")), Some(true)),
           Reference("a", 2, None, Read, None, None)], [0, 1, 2])
  }

  lemma BarEnteredReady(kind: DeclKind)
    ensures Ready(BarEntered(kind))
  {
    BarEnteredStep(kind);
  }

  lemma BarReadAReady(kind: DeclKind)
    ensures Ready(BarReadA(kind))
  {
    BarReadSteps(kind);
  }

  /** ... then `bar` defined in `foo`. */
  function BarNamed(kind: DeclKind): State {
    State([Glob([0], []), Fn(0, 1, [1, 2, 3], [0])],
          [Variable("foo", 0, [FunctionNameDef], []), Variable("arguments", 1, [], []),
           Variable("a", 1, [VariableDef(kind)], []), Variable("bar", 1, [FunctionNameDef], [])],
          [Reference("a", 1, None, Write, Some(Literal), Some(true))], [0, 1])
  }

  lemma BarNamedStep(kind: DeclKind)
    ensures Ready(FooDeclA(kind)) && Define(FooDeclA(kind), 1, "bar", Some(FunctionNameDef)) == BarNamed(kind)
  {
    FooDeclAReady(kind);
    SameEqual(Define(FooDeclA(kind), 1, "bar", Some(FunctionNameDef)), BarNamed(kind));
  }

  lemma BarEnteredStep(kind: DeclKind)
    ensures Ready(BarNamed(kind)) && NestScope(BarNamed(kind), FunctionScope) == BarEntered(kind)
  {
    BarNamedStep(kind);
    NestFunction(BarNamed(kind));
  }

  /** `function bar(ps) { body }` after `kind a = 0;` in `foo`. */
  lemma BarDeclared(kind: DeclKind, f: Func)
    ensures Ready(FooDeclA(kind)) && Ready(BarEntered(kind)) &&
      VisitStmt(FooDeclA(kind), FunctionDecl("bar", f)) == Close(VisitStmts(VisitParams(BarEntered(kind), f.params), f.body))
  {
    FooDeclAReady(kind);
    BarNamedStep(kind);
    BarEnteredStep(kind);
    assert Current(FooDeclA(kind)) == 1;
    FunctionDeclSteps(FooDeclA(kind), "bar", f);
  }

  lemma BarReadSteps(kind: DeclKind)
    ensures Ready(BarEntered(kind)) && var defined := Define(BarEntered(kind), 2, "b", Some(VariableDef(kind)));
      Ready(Referencing(defined, "b", Write, Some(Ident("a")), true)) &&
      Referencing(Referencing(defined, "b", Write, Some(Ident("a")), true), "a", Read, None, false) == BarReadA(kind)
  {
    BarEnteredReady(kind);
    var defined := Define(BarEntered(kind), 2, "b", Some(VariableDef(kind)));
    var written := Referencing(defined, "b", Write, Some(Ident("a")), true);
    SameEqual(Referencing(written, "a", Read, None, false), BarReadA(kind));
  }

  /** The body of `foo`, through the close of `bar`. */
  lemma FooBodyNested(kind: DeclKind)
    ensures var sa := VarDecl(kind, [Declarator(Id("a"), Some(Literal))]);
      var bar := Func([], [VarDecl(kind, [Declarator(Id("b"), Some(Ident("a")))])]);
      Ready(FooOnly(kind)) && Ready(BarReadA(kind)) &&
      VisitStmts(FooOnly(kind), [sa, FunctionDecl("bar", bar)]) == Close(BarReadA(kind))
  {
    var sa := VarDecl(kind, [Declarator(Id("a"), Some(Literal))]);
    var bar := Func([], [VarDecl(kind, [Declarator(Id("b"), Some(Ident("a")))])]);
    FooOnlyReady(kind);
    FooDeclAStep(kind);
    BarDeclared(kind, bar);
    assert VisitParams(BarEntered(kind), []) == BarEntered(kind);
    BarBodyRead(kind);
    TwoStmts(FooOnly(kind), sa, FunctionDecl("bar", bar));
    BarReadAReady(kind);
  }

  lemma BarBodyRead(kind: DeclKind)
    ensures Ready(BarEntered(kind)) && VisitStmts(BarEntered(kind), [VarDecl(kind, [Declarator(Id("b"), Some(Ident("a")))])]) == BarReadA(kind)
  {
    var s := VarDecl(kind, [Declarator(Id("b"), Some(Ident("a")))]);
    BarEnteredReady(kind);
    assert BarEntered(kind).scopes[2].variableScope == 2;
    BarReadSteps(kind);
    SingleDeclarator(BarEntered(kind), 2, kind, Id("b"), "b", Ident("a"));
    assert VisitStmt(BarEntered(kind), s) == BarReadA(kind);
    OneStmt(BarEntered(kind), s);
  }

  lemma BarReadAFacts(kind: DeclKind)
    ensures WF(BarReadA(kind)) && Counts(BarReadA(kind), 3, 2, 2, 2) &&
      Picks(BarReadA(kind), 2, 1, "a", false) &&
      BoundTo(BarReadA(kind), Resolve(BarReadA(kind), 2, "a"), Some((1, 1)))
  {
    BarReadAReady(kind);
    assert Resolve(BarReadA(kind), 2, "a") == Some(2);
  }

  lemma FooNested(kind: DeclKind)
    ensures var sa := VarDecl(kind, [Declarator(Id("a"), Some(Literal))]);
      var bar := Func([], [VarDecl(kind, [Declarator(Id("b"), Some(Ident("a")))])]);
      Ready(BarReadA(kind)) &&
      VisitStmts(NewGlobal(), [FunctionDecl("foo", Func([], [sa, FunctionDecl("bar", bar)]))]) ==
        Close(Close(BarReadA(kind)))
  {
    var sa := VarDecl(kind, [Declarator(Id("a"), Some(Literal))]);
    var bar := Func([], [VarDecl(kind, [Declarator(Id("b"), Some(Ident("a")))])]);
    var foo := Func([], [sa, FunctionDecl("bar", bar)]);
    FooFirst(kind, foo);
    assert VisitParams(FooOnly(kind), []) == FooOnly(kind);
    FooBodyNested(kind);
    OneStmt(NewGlobal(), FunctionDecl("foo", foo));
  }

  lemma ReadInNestedFunctionTrace(kind: DeclKind)
    ensures var code := Program([FunctionDecl("foo", Func([], [
        VarDecl(kind, [Declarator(Id("a"), Some(Literal))]),
        FunctionDecl("bar", Func([], [VarDecl(kind, [Declarator(Id("b"), Some(Ident("a")))])]))]))]);
      Ready(BarReadA(kind)) && SameSkeleton(BarReadA(kind), Analyze(code))
  {
    var sa := VarDecl(kind, [Declarator(Id("a"), Some(Literal))]);
    var bar := Func([], [VarDecl(kind, [Declarator(Id("b"), Some(Ident("a")))])]);
    var foo := Func([], [sa, FunctionDecl("bar", bar)]);
    FooNested(kind);
    BarReadAReady(kind);
    CloseThrice(BarReadA(kind));
  }

  /** `function foo() { kind a = 0; function bar() { kind b = a; } }`: three scopes; the
      read of `a` in `bar` is bound to the `a` of `foo`. */
  lemma ReadInNestedFunction(kind: DeclKind)
    ensures var g := Analyze(Program([FunctionDecl("foo", Func([], [
        VarDecl(kind, [Declarator(Id("a"), Some(Literal))]),
        FunctionDecl("bar", Func([], [VarDecl(kind, [Declarator(Id("b"), Some(Ident("a")))])]))]))]));
      Counts(g, 3, 2, 2, 2) && Expected(g, 2, 1, "a", Some((1, 1)), false)
  {
    var code := Program([FunctionDecl("foo", Func([], [
        VarDecl(kind, [Declarator(Id("a"), Some(Literal))]),
        FunctionDecl("bar", Func([], [VarDecl(kind, [Declarator(Id("b"), Some(Ident("a")))])]))]))]);
    ReadInNestedFunctionTrace(kind);
    BarReadAFacts(kind);
    Transfer(code, BarReadA(kind), 3, 2, 2, 2, 1, "a", Some((1, 1)), false);
  }
}
