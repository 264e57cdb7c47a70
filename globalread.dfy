/** After a global `let a;` the global table starts with `a`: later statements that
    declare no `a` and open no function keep it there, and each read of `a` is then bound
    to that first global variable, which lists it. */
module GlobalRead {
  import opened Ast
  import opened Engine
  import opened Unfolding
  import opened Resolution
  import opened Closing
  import opened Skeletons
  import opened Bindings
  import opened InitFlags
  import opened Occurrences
  import opened ReferenceTests

  // ---------------------------------------------------------------------------------
  // Syntax that declares nothing and opens no scope

  /** An expression without function expressions, whose assignments target patterns with
      such default values or members of such objects: visiting it only records references. */
  predicate Quiet(e: Expr)
    decreases e
  {
    match e
    case Ident(_) => true
    case Literal => true
    case ArrayExpr(es) => forall i | 0 <= i < |es| :: Quiet(es[i])
    case ObjectExpr(ps) => forall i | 0 <= i < |ps| :: Quiet(ps[i].value)
    case Member(o, _) => Quiet(o)
    case Call(c, args) => Quiet(c) && forall i | 0 <= i < |args| :: Quiet(args[i])
    case New(c, args) => Quiet(c) && forall i | 0 <= i < |args| :: Quiet(args[i])
    case Assign(_, t, right) => QuietTarget(t) && Quiet(right)
    case Function(_) => false
  }

  predicate QuietTarget(t: Target)
    decreases t
  {
    match t
    case PatternTarget(p) => QuietDefaults(p)
    case MemberTarget(o, _) => Quiet(o)
  }

  /** A pattern whose default values are all quiet. */
  predicate QuietDefaults(p: Pattern)
    decreases p
  {
    match p
    case Id(_) => true
    case ArrayPat(es) => forall i | 0 <= i < |es| :: QuietDefaults(es[i])
    case ObjectPat(ps) => forall i | 0 <= i < |ps| :: QuietDefaults(ps[i].value)
    case WithDefault(l, d) => QuietDefaults(l) && Quiet(d)
  }

  /** No leaf of `p` is named `x`. */
  predicate Avoids(p: Pattern, x: string) {
    forall l <- Leaves(p, []) :: l.name != x
  }

  /** A declarator of names other than `x` with quiet default values and initializer. */
  predicate QuietDeclarator(d: Declarator, x: string) {
    QuietDefaults(d.id) && Avoids(d.id, x) && (d.init.None? || Quiet(d.init.value))
  }

  /** A statement that declares no `x` and opens no function scope: a declaration of other
      names, a quiet expression, or a for-in loop with an empty body over such a head. */
  predicate KeepsFirst(s: Stmt, x: string) {
    match s
    case VarDecl(_, ds) => forall d <- ds :: QuietDeclarator(d, x)
    case ExprStmt(e) => Quiet(e)
    case ForIn(left, right, body) =>
      body == Empty && Quiet(right) &&
      (match left
       case ForDecl(_, p) => QuietDefaults(p) && Avoids(p, x)
       case ForTarget(t) => QuietTarget(t))
    case _ => false
  }

  // ---------------------------------------------------------------------------------
  // Quiet syntax keeps the tables

  lemma TablesTrans(a: State, b: State, c: State)
    requires TablesSame(a, b) && TablesSame(b, c)
    ensures TablesSame(a, c)
  {
  }

  lemma ReferencingTables(st: State, name: string, flag: Flag, writeExpr: Option<Expr>, init: bool)
    requires Ready(st)
    ensures TablesSame(st, Referencing(st, name, flag, writeExpr, init))
  {
  }

  lemma {:induction false} WriteLeavesTables(st: State, leaves: seq<Leaf>, right: Expr)
    requires Ready(st)
    ensures TablesSame(st, WriteLeaves(st, leaves, right))
    decreases |leaves|
  {
    if leaves != [] {
      var next := Referencing(st, leaves[0].name, Write, Some(right), true);
      ReferencingTables(st, leaves[0].name, Write, Some(right), true);
      WriteLeavesCons(st, leaves, right);
      WriteLeavesTables(next, leaves[1..], right);
      TablesTrans(st, next, WriteLeaves(next, leaves[1..], right));
    }
  }

  lemma {:induction false} QuietTables(st: State, e: Expr)
    requires Ready(st) && Quiet(e)
    ensures TablesSame(st, VisitExpr(st, e))
    decreases e
  {
    match e
    case Ident(x) => ReferencingTables(st, x, Read, None, false);
    case Literal =>
    case ArrayExpr(es) => QuietExprsTables(st, es);
    case ObjectExpr(ps) => QuietPropsTables(st, ps);
    case Member(o, _) => QuietTables(st, o);
    case Call(c, args) =>
      QuietTables(st, c);
      QuietExprsTables(VisitExpr(st, c), args);
      TablesTrans(st, VisitExpr(st, c), VisitExprs(VisitExpr(st, c), args));
    case New(c, args) =>
      QuietTables(st, c);
      QuietExprsTables(VisitExpr(st, c), args);
      TablesTrans(st, VisitExpr(st, c), VisitExprs(VisitExpr(st, c), args));
    case Assign(op, t, right) =>
      var targeted := AssignTo(st, op, t, right);
      QuietTargetTables(st, op, t, right);
      QuietTables(targeted, right);
      TablesTrans(st, targeted, VisitExpr(targeted, right));
  }

  lemma {:induction false} QuietExprsTables(st: State, es: seq<Expr>)
    requires Ready(st) && forall i | 0 <= i < |es| :: Quiet(es[i])
    ensures TablesSame(st, VisitExprs(st, es))
    decreases es
  {
    if es != [] {
      QuietTables(st, es[0]);
      QuietExprsTables(VisitExpr(st, es[0]), es[1..]);
      TablesTrans(st, VisitExpr(st, es[0]), VisitExprs(VisitExpr(st, es[0]), es[1..]));
    }
  }

  lemma {:induction false} QuietPropsTables(st: State, ps: seq<Property>)
    requires Ready(st) && forall i | 0 <= i < |ps| :: Quiet(ps[i].value)
    ensures TablesSame(st, VisitProps(st, ps))
    decreases ps
  {
    if ps != [] {
      QuietTables(st, ps[0].value);
      QuietPropsTables(VisitExpr(st, ps[0].value), ps[1..]);
      TablesTrans(st, VisitExpr(st, ps[0].value), VisitProps(VisitExpr(st, ps[0].value), ps[1..]));
    }
  }

  lemma {:induction false} QuietTargetTables(st: State, op: AssignOp, t: Target, right: Expr)
    requires Ready(st) && QuietTarget(t)
    ensures TablesSame(st, AssignTo(st, op, t, right))
    decreases t
  {
    match t
    case MemberTarget(o, _) => QuietTables(st, o);
    case PatternTarget(p) =>
      if op == Plain {
        var written := AssignLeaves(st, Leaves(p, []), right);
        AssignLeavesTables(st, Leaves(p, []), right);
        QuietDefaultsTables(written, p);
        TablesTrans(st, written, VisitDefaults(written, p));
      } else if p.Id? {
        ReferencingTables(st, p.name, ReadWrite, Some(right), false);
      }
  }

  lemma {:induction false} QuietDefaultsTables(st: State, p: Pattern)
    requires Ready(st) && QuietDefaults(p)
    ensures TablesSame(st, VisitDefaults(st, p))
    decreases p, 0
  {
    match p
    case Id(_) =>
    case ArrayPat(es) => QuietDefaultsOfSeqTables(st, es);
    case ObjectPat(ps) => QuietDefaultsOfPropsTables(st, ps);
    case WithDefault(l, d) =>
      QuietDefaultsTables(st, l);
      QuietTables(VisitDefaults(st, l), d);
      TablesTrans(st, VisitDefaults(st, l), VisitExpr(VisitDefaults(st, l), d));
  }

  lemma {:induction false} QuietDefaultsOfSeqTables(st: State, ps: seq<Pattern>)
    requires Ready(st) && forall i | 0 <= i < |ps| :: QuietDefaults(ps[i])
    ensures TablesSame(st, VisitDefaultsOfSeq(st, ps))
    decreases ps
  {
    if ps != [] {
      QuietDefaultsTables(st, ps[0]);
      QuietDefaultsOfSeqTables(VisitDefaults(st, ps[0]), ps[1..]);
      TablesTrans(st, VisitDefaults(st, ps[0]), VisitDefaultsOfSeq(VisitDefaults(st, ps[0]), ps[1..]));
    }
  }

  lemma {:induction false} QuietDefaultsOfPropsTables(st: State, ps: seq<PatProperty>)
    requires Ready(st) && forall i | 0 <= i < |ps| :: QuietDefaults(ps[i].value)
    ensures TablesSame(st, VisitDefaultsOfProps(st, ps))
    decreases ps
  {
    if ps != [] {
      QuietDefaultsTables(st, ps[0].value);
      QuietDefaultsOfPropsTables(VisitDefaults(st, ps[0].value), ps[1..]);
      TablesTrans(st, VisitDefaults(st, ps[0].value), VisitDefaultsOfProps(VisitDefaults(st, ps[0].value), ps[1..]));
    }
  }

  // ---------------------------------------------------------------------------------
  // The global table starts with `x`

  /** Variable 0 is named `x`, heads the global table and is resolved by the analyser
      itself; no other scope's table holds a variable named `x`. */
  ghost predicate GlobalFirst(st: State, x: string)
    requires WF(st)
  {
    |st.scopes| > 0 && |st.variables| > 0 &&
    |st.scopes[0].variables| > 0 && st.scopes[0].variables[0] == 0 &&
    st.variables[0].name == x && StaticForGlobal(st.variables[0]) &&
    forall t, i | 0 < t < |st.scopes| && 0 <= i < |st.scopes[t].variables| ::
      st.variables[st.scopes[t].variables[i]].name != x
  }

  lemma TablesFirst(a: State, b: State, x: string)
    requires WF(a) && WF(b) && TablesSame(a, b) && GlobalFirst(a, x)
    ensures GlobalFirst(b, x)
  {
  }

  lemma SkeletonFirst(a: State, b: State, x: string)
    requires WF(a) && WF(b) && SameSkeleton(a, b) && GlobalFirst(a, x)
    ensures GlobalFirst(b, x)
  {
  }

  /** Defining another name keeps `x` first: the variable it extends is not variable 0, and
      a new variable goes to the end of a table. */
  lemma DefineFirst(st: State, target: nat, name: string, def: Option<DefKind>, x: string)
    requires WF(st) && target < |st.scopes| && name != x && GlobalFirst(st, x)
    ensures GlobalFirst(Define(st, target, name, def), x)
  {
    var r := Define(st, target, name, def);
    var found := Lookup(st.variables, st.scopes[target].variables, name);
    if found.None? {
      var v := |st.variables|;
      assert r.variables[v].name == name;
      forall t, i | 0 < t < |r.scopes| && 0 <= i < |r.scopes[t].variables|
        ensures r.variables[r.scopes[t].variables[i]].name != x
      {
        if t == target && i == |st.scopes[t].variables| {
          assert r.scopes[t].variables[i] == v;
        } else {
          assert r.scopes[t].variables[i] == st.scopes[t].variables[i];
        }
      }
    }
  }

  /** Entering a loop scope adds an empty table. */
  lemma NestFirst(st: State, x: string)
    requires Ready(st) && GlobalFirst(st, x)
    ensures GlobalFirst(NestScope(st, ForScope), x)
  {
  }

  lemma CloseFirst(st: State, x: string)
    requires Ready(st) && GlobalFirst(st, x)
    ensures GlobalFirst(Close(st), x)
  {
    CloseSkeleton(st);
    SkeletonFirst(st, Close(st), x);
  }

  /** One leaf of another name: defined, then written. */
  lemma DeclareLeafFirst(st: State, target: nat, kind: DeclKind, l: Leaf, init: Option<Expr>, x: string)
    requires Ready(st) && target < |st.scopes| && l.name != x && GlobalFirst(st, x)
    ensures var defined := Define(st, target, l.name, Some(VariableDef(kind)));
      var defaulted := WriteDefaults(defined, l.name, l.defaults, true);
      var written := if init.Some? then Referencing(defaulted, l.name, Write, init, true) else defaulted;
      GlobalFirst(written, x)
  {
    var defined := Define(st, target, l.name, Some(VariableDef(kind)));
    DefineFirst(st, target, l.name, Some(VariableDef(kind)), x);
    var defaulted := WriteDefaults(defined, l.name, l.defaults, true);
    WriteDefaultsTables(defined, l.name, l.defaults, true);
    TablesFirst(defined, defaulted, x);
    if init.Some? {
      assert defaulted.stack == st.stack;
      ReferencingTables(defaulted, l.name, Write, init, true);
      TablesFirst(defaulted, Referencing(defaulted, l.name, Write, init, true), x);
    }
  }

  lemma {:induction false} DeclareLeavesFirst(st: State, target: nat, kind: DeclKind, leaves: seq<Leaf>, init: Option<Expr>, x: string)
    requires Ready(st) && target < |st.scopes| && GlobalFirst(st, x)
    requires forall l <- leaves :: l.name != x
    ensures GlobalFirst(DeclareLeaves(st, target, kind, leaves, init), x)
    decreases |leaves|
  {
    if leaves != [] {
      var l := leaves[0];
      assert l in leaves;
      var defined := Define(st, target, l.name, Some(VariableDef(kind)));
      var defaulted := WriteDefaults(defined, l.name, l.defaults, true);
      var written := if init.Some? then Referencing(defaulted, l.name, Write, init, true) else defaulted;
      DeclareLeafFirst(st, target, kind, l, init, x);
      DeclareLeavesCons(st, target, kind, leaves, init);
      assert forall m <- leaves[1..] :: m in leaves;
      DeclareLeavesFirst(written, target, kind, leaves[1..], init, x);
    }
  }

  /** A declarator of other names with quiet defaults and initializer keeps `x` first. */
  lemma DeclaratorFirst(st: State, target: nat, kind: DeclKind, d: Declarator, x: string)
    requires Ready(st) && target < |st.scopes| && GlobalFirst(st, x) && QuietDeclarator(d, x)
    ensures GlobalFirst(VisitDeclarator(st, target, kind, d), x)
  {
    var declared := DeclareLeaves(st, target, kind, Leaves(d.id, []), d.init);
    DeclareLeavesFirst(st, target, kind, Leaves(d.id, []), d.init, x);
    var visited := VisitDefaults(declared, d.id);
    QuietDefaultsTables(declared, d.id);
    TablesFirst(declared, visited, x);
    if d.init.Some? {
      QuietTables(visited, d.init.value);
      TablesFirst(visited, VisitExpr(visited, d.init.value), x);
    }
  }

  lemma {:induction false} DeclaratorsFirst(st: State, target: nat, kind: DeclKind, ds: seq<Declarator>, x: string)
    requires Ready(st) && target < |st.scopes| && GlobalFirst(st, x)
    requires forall d <- ds :: QuietDeclarator(d, x)
    ensures GlobalFirst(VisitDeclarators(st, target, kind, ds), x)
    decreases ds
  {
    if ds != [] {
      assert ds[0] in ds;
      DeclaratorFirst(st, target, kind, ds[0], x);
      VisitDeclaratorsCons(st, target, kind, ds);
      assert forall d <- ds[1..] :: d in ds;
      DeclaratorsFirst(VisitDeclarator(st, target, kind, ds[0]), target, kind, ds[1..], x);
    }
  }

  /** The head of a declaring for-in loop over other names keeps `x` first. */
  lemma ForHeadFirst(st: State, kind: DeclKind, p: Pattern, right: Expr, x: string)
    requires Ready(st) && GlobalFirst(st, x) && QuietDefaults(p) && Avoids(p, x)
    ensures GlobalFirst(ForHead(st, kind, p, right), x)
  {
    var entered := if kind != Var then NestScope(st, ForScope) else st;
    if kind != Var {
      NestFirst(st, x);
    }
    var target := if kind == Var then entered.scopes[Current(entered)].variableScope else Current(entered);
    var declared := DeclareLeaves(entered, target, kind, Leaves(p, []), None);
    DeclareLeavesFirst(entered, target, kind, Leaves(p, []), None, x);
    var visited := VisitDefaults(declared, p);
    QuietDefaultsTables(declared, p);
    TablesFirst(declared, visited, x);
    WriteLeavesTables(visited, Leaves(p, []), right);
    TablesFirst(visited, WriteLeaves(visited, Leaves(p, []), right), x);
  }

  lemma ForDeclFirst(st: State, kind: DeclKind, p: Pattern, right: Expr, x: string)
    requires Ready(st) && GlobalFirst(st, x) && QuietDefaults(p) && Avoids(p, x) && Quiet(right)
    ensures GlobalFirst(VisitStmt(st, ForIn(ForDecl(kind, p), right, Empty)), x)
  {
    var head := ForHead(st, kind, p, right);
    ForHeadFirst(st, kind, p, right, x);
    QuietTables(head, right);
    var visited := VisitExpr(head, right);
    TablesFirst(head, visited, x);
    assert VisitStmt(visited, Empty) == visited;
    ForDeclUnfold(st, ForIn(ForDecl(kind, p), right, Empty));
    if kind != Var {
      CloseFirst(visited, x);
    }
  }

  lemma ForTargetFirst(st: State, t: Target, right: Expr, x: string)
    requires Ready(st) && GlobalFirst(st, x) && QuietTarget(t) && Quiet(right)
    ensures GlobalFirst(VisitStmt(st, ForIn(ForTarget(t), right, Empty)), x)
  {
    var targeted := AssignTo(st, Plain, t, right);
    QuietTargetTables(st, Plain, t, right);
    QuietTables(targeted, right);
    TablesTrans(st, targeted, VisitExpr(targeted, right));
    TablesFirst(st, VisitExpr(targeted, right), x);
    assert VisitStmt(VisitExpr(targeted, right), Empty) == VisitExpr(targeted, right);
    ForTargetUnfold(st, t, right, Empty);
  }

  /** A statement that declares no `x` and opens no function keeps `x` first. */
  lemma StmtFirst(st: State, s: Stmt, x: string)
    requires Ready(st) && GlobalFirst(st, x) && KeepsFirst(s, x)
    ensures GlobalFirst(VisitStmt(st, s), x)
  {
    match s
    case VarDecl(kind, ds) =>
      var target := if kind == Var then st.scopes[Current(st)].variableScope else Current(st);
      VarDeclUnfold(st, kind, ds);
      DeclaratorsFirst(st, target, kind, ds, x);
    case ExprStmt(e) =>
      QuietTables(st, e);
      TablesFirst(st, VisitExpr(st, e), x);
    case ForIn(left, right, _) =>
      match left
      case ForDecl(kind, p) => ForDeclFirst(st, kind, p, right, x);
      case ForTarget(t) => ForTargetFirst(st, t, right, x);
  }

  // ---------------------------------------------------------------------------------
  // Programs that start with `let x, ...;`

  /** `let x;` in the empty global scope makes `x` its first variable. */
  lemma LetFirst(x: string)
    ensures GlobalFirst(VisitDeclarator(NewGlobal(), 0, Let, Declarator(Id(x), None)), x)
  {
    var defined := Define(NewGlobal(), 0, x, Some(VariableDef(Let)));
    assert Leaves(Id(x), []) == [Leaf(x, [])];
    assert WriteDefaults(defined, x, [], true) == defined;
    assert DeclareLeaves(defined, 0, Let, [], None) == defined;
    assert DeclareLeaves(NewGlobal(), 0, Let, [Leaf(x, [])], None) == defined;
    assert defined.variables == [Variable(x, 0, [VariableDef(Let)], [])];
  }

  /** `let x, ...;` with the other declarators quiet and of other names. */
  lemma LetListFirst(x: string, ds: seq<Declarator>)
    requires forall d <- ds :: QuietDeclarator(d, x)
    ensures GlobalFirst(VisitStmt(NewGlobal(), VarDecl(Let, [Declarator(Id(x), None)] + ds)), x)
  {
    var G := NewGlobal();
    var all := [Declarator(Id(x), None)] + ds;
    VarDeclUnfold(G, Let, all);
    assert Current(G) == 0;
    VisitDeclaratorsCons(G, 0, Let, all);
    assert all[0] == Declarator(Id(x), None) && all[1..] == ds;
    var first := VisitDeclarator(G, 0, Let, Declarator(Id(x), None));
    LetFirst(x);
    DeclaratorsFirst(first, 0, Let, ds, x);
  }

  /** `let x, ...; s` with `s` declaring no `x` and opening no function: `x` stays first in
      the finished analysis. */
  lemma ProgramFirst(x: string, ds: seq<Declarator>, s: Stmt)
    requires forall d <- ds :: QuietDeclarator(d, x)
    requires KeepsFirst(s, x)
    ensures GlobalFirst(Analyze(Program([VarDecl(Let, [Declarator(Id(x), None)] + ds), s])), x)
  {
    var first := VarDecl(Let, [Declarator(Id(x), None)] + ds);
    var st1 := VisitStmt(NewGlobal(), first);
    LetListFirst(x, ds);
    StmtFirst(st1, s, x);
    TwoStmts(NewGlobal(), first, s);
    CloseFirst(VisitStmt(st1, s), x);
  }

  // ---------------------------------------------------------------------------------
  // Reads of `x` bind to the first global variable

  /** In a finished analysis with `x` first, no scope on the way out to the global scope
      declares `x`. */
  lemma {:induction false} ChainToGlobal(g: State, t: nat, x: string)
    requires WF(g) && Rooted(g) && g.stack == [] && t < |g.scopes| && GlobalFirst(g, x)
    ensures ChainClear(g, t, 0, x)
    decreases t
  {
    if t != 0 {
      var ids := g.scopes[t].variables;
      assert forall k | 0 <= k < |ids| :: g.variables[ids[k]].name != x;
      assert Lookup(g.variables, ids, x).None?;
      ChainToGlobal(g, g.scopes[t].upper.value, x);
    }
  }

  /** A program whose analysis keeps `x` first and which reads `x` somewhere: the first
      global variable is `x` and lists at least one reference. */
  lemma ReadBoundGlobal(p: Program, x: string)
    requires GlobalFirst(Analyze(p), x) && Reads(x) in StmtsUses(p.body)
    ensures var g := Analyze(p);
      |g.scopes[0].variables| >= 1 && g.variables[g.scopes[0].variables[0]].name == x &&
      |g.variables[g.scopes[0].variables[0]].references| >= 1
  {
    var g := Analyze(p);
    AnalyzeUses(p);
    var uses := UsesOf(g.references);
    var r :| 0 <= r < |uses| && uses[r] == Reads(x);
    assert g.references[r].name == x;
    Finished(p);
    ChainToGlobal(g, g.references[r].from, x);
    BoundWhenVisible(p, r, 0, 0);
  }
}
