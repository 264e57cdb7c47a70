/** What `init` and the read/write flags of the recorded references say about where an
    identifier stands: a declaration's writes initialise, an assignment's writes do not, and
    a name that is never written is only read, without a write expression or an `init`. */
module InitFlags {
  import opened Ast
  import opened Engine
  import opened Unfolding
  import opened Resolution
  import opened Closing
  import opened Bookkeeping
  import opened Traversal
  import opened ShapeTraversal
  import opened Occurrences

  /** An expression without identifiers, assignments or functions, such as `0`, `[]` or `{}`. */
  predicate Pure(e: Expr)
    decreases e
  {
    match e
    case Ident(_) => false
    case Literal => true
    case ArrayExpr(es) => forall i | 0 <= i < |es| :: Pure(es[i])
    case ObjectExpr(ps) => forall i | 0 <= i < |ps| :: Pure(ps[i].value)
    case Member(o, _) => Pure(o)
    case Call(c, args) => Pure(c) && forall i | 0 <= i < |args| :: Pure(args[i])
    case New(c, args) => Pure(c) && forall i | 0 <= i < |args| :: Pure(args[i])
    case Assign(_, _, _) => false
    case Function(_) => false
  }

  /** A pattern all of whose default values are pure. */
  predicate PureDefaults(p: Pattern)
    decreases p
  {
    match p
    case Id(_) => true
    case ArrayPat(es) => forall i | 0 <= i < |es| :: PureDefaults(es[i])
    case ObjectPat(ps) => forall i | 0 <= i < |ps| :: PureDefaults(ps[i].value)
    case WithDefault(l, d) => PureDefaults(l) && Pure(d)
  }

  /** A pattern whose leaves, of which there is at least one, are all `x`, and whose
      default values are pure: `a`, `[a = 1]`, `{b: a = 0}`. */
  predicate Binds(p: Pattern, x: string) {
    PureDefaults(p) && Leaves(p, []) != [] && forall l <- Leaves(p, []) :: l.name == x
  }

  /** The statements of the first `init` list: a declaration of `x` in a `var`/`let`/`const`
      declarator, a for-in head, or the parameters of a `new function(...) {}`, with
      nothing else that names an identifier. */
  predicate Declares(s: Stmt, x: string) {
    match s
    case VarDecl(_, ds) => forall d <- ds :: Binds(d.id, x) && (d.init.Some? ==> Pure(d.init.value))
    case ForIn(ForDecl(_, id), right, Empty) => Binds(id, x) && Pure(right)
    case ExprStmt(New(Function(f), args)) =>
      f.body == [] && (forall p <- f.params :: Binds(p, x)) && forall a <- args :: Pure(a)
    case _ => false
  }

  /** The statements of the second `init` list: a plain assignment to a pattern of `x`, or
      a for-in head without a declaration, with nothing else that names an identifier. */
  predicate Assigns(s: Stmt, x: string) {
    match s
    case ExprStmt(Assign(Plain, PatternTarget(p), right)) => Binds(p, x) && Pure(right)
    case ForIn(ForTarget(PatternTarget(p)), right, Empty) => Binds(p, x) && Pure(right)
    case _ => false
  }

  /** Every use is a write to `x` with a write expression and the given `init`. */
  predicate InitWrites(us: seq<Use>, x: string, init: bool) {
    forall u <- us :: u.name == x && u.flag == Write && u.writeExpr.Some? && u.init == Some(init)
  }

  /** Two states with the same variables and the same scope tables. */
  ghost predicate TablesSame(st1: State, st2: State) {
    st2.variables == st1.variables && |st2.scopes| == |st1.scopes| &&
    forall t | 0 <= t < |st1.scopes| :: st2.scopes[t].variables == st1.scopes[t].variables
  }

  // ---------------------------------------------------------------------------------
  // Pure syntax records nothing

  lemma {:induction false} PureExpr(st: State, e: Expr)
    requires Ready(st) && Pure(e)
    ensures VisitExpr(st, e) == st && ExprUses(e) == []
    decreases e
  {
    match e
    case Literal =>
    case ArrayExpr(es) => PureExprs(st, es);
    case ObjectExpr(ps) => PureProps(st, ps);
    case Member(o, _) => PureExpr(st, o);
    case Call(c, args) =>
      PureExpr(st, c);
      PureExprs(st, args);
    case New(c, args) =>
      PureExpr(st, c);
      PureExprs(st, args);
  }

  lemma {:induction false} PureExprs(st: State, es: seq<Expr>)
    requires Ready(st) && forall i | 0 <= i < |es| :: Pure(es[i])
    ensures VisitExprs(st, es) == st && ExprsUses(es) == []
    decreases es
  {
    if es != [] {
      PureExpr(st, es[0]);
      PureExprs(st, es[1..]);
    }
  }

  lemma {:induction false} PureProps(st: State, ps: seq<Property>)
    requires Ready(st) && forall i | 0 <= i < |ps| :: Pure(ps[i].value)
    ensures VisitProps(st, ps) == st && PropsUses(ps) == []
    decreases ps
  {
    if ps != [] {
      PureExpr(st, ps[0].value);
      PureProps(st, ps[1..]);
    }
  }

  lemma {:induction false} PureDefaultsVisit(st: State, p: Pattern)
    requires Ready(st) && PureDefaults(p)
    ensures VisitDefaults(st, p) == st && DefaultsUses(p) == []
    decreases p
  {
    match p
    case Id(_) =>
    case ArrayPat(es) => PureDefaultsOfSeq(st, es);
    case ObjectPat(ps) => PureDefaultsOfProps(st, ps);
    case WithDefault(l, d) =>
      PureDefaultsVisit(st, l);
      PureExpr(st, d);
  }

  lemma {:induction false} PureDefaultsOfSeq(st: State, ps: seq<Pattern>)
    requires Ready(st) && forall i | 0 <= i < |ps| :: PureDefaults(ps[i])
    ensures VisitDefaultsOfSeq(st, ps) == st && DefaultsOfSeqUses(ps) == []
    decreases ps
  {
    if ps != [] {
      PureDefaultsVisit(st, ps[0]);
      PureDefaultsOfSeq(st, ps[1..]);
    }
  }

  lemma {:induction false} PureDefaultsOfProps(st: State, ps: seq<PatProperty>)
    requires Ready(st) && forall i | 0 <= i < |ps| :: PureDefaults(ps[i].value)
    ensures VisitDefaultsOfProps(st, ps) == st && DefaultsOfPropsUses(ps) == []
    decreases ps
  {
    if ps != [] {
      PureDefaultsVisit(st, ps[0].value);
      PureDefaultsOfProps(st, ps[1..]);
    }
  }

  // ---------------------------------------------------------------------------------
  // The writes a pattern of `x` records

  lemma {:induction false} DefaultWrites(x: string, defaults: seq<Expr>, init: bool)
    ensures InitWrites(DefaultUses(x, defaults, init), x, init)
    decreases |defaults|
  {
    if defaults != [] {
      DefaultWrites(x, defaults[1..], init);
    }
  }

  lemma {:induction false} DeclaredWrites(leaves: seq<Leaf>, init: Option<Expr>, x: string)
    requires forall l <- leaves :: l.name == x
    ensures InitWrites(DeclaredUses(leaves, init), x, true)
    decreases |leaves|
  {
    if leaves != [] {
      DefaultWrites(x, leaves[0].defaults, true);
      DeclaredWrites(leaves[1..], init, x);
    }
  }

  lemma {:induction false} ParamWrites(leaves: seq<Leaf>, x: string)
    requires forall l <- leaves :: l.name == x
    ensures InitWrites(ParamUses(leaves), x, true)
    decreases |leaves|
  {
    if leaves != [] {
      DefaultWrites(x, leaves[0].defaults, true);
      ParamWrites(leaves[1..], x);
    }
  }

  lemma {:induction false} AssignedWrites(leaves: seq<Leaf>, right: Expr, x: string)
    requires forall l <- leaves :: l.name == x
    ensures InitWrites(AssignedUses(leaves, right), x, false)
    ensures leaves != [] ==> AssignedUses(leaves, right) != []
    decreases |leaves|
  {
    if leaves != [] {
      DefaultWrites(x, leaves[0].defaults, false);
      AssignedWrites(leaves[1..], right, x);
    }
  }

  lemma {:induction false} LoopWrites(leaves: seq<Leaf>, right: Expr, x: string)
    requires forall l <- leaves :: l.name == x
    ensures InitWrites(LoopUses(leaves, right), x, true)
    decreases |leaves|
  {
    if leaves != [] {
      LoopWrites(leaves[1..], right, x);
    }
  }

  lemma {:induction false} DeclaratorsWrites(ds: seq<Declarator>, x: string)
    requires forall d <- ds :: Binds(d.id, x) && (d.init.Some? ==> Pure(d.init.value))
    ensures InitWrites(DeclaratorsUses(ds), x, true)
    decreases |ds|
  {
    if ds != [] {
      var d := ds[0];
      assert d in ds;
      DeclaredWrites(Leaves(d.id, []), d.init, x);
      PureDefaultsVisit(NewGlobal(), d.id);
      if d.init.Some? {
        PureExpr(NewGlobal(), d.init.value);
      }
      DeclaratorsWrites(ds[1..], x);
    }
  }

  lemma {:induction false} ParamsWrites(ps: seq<Pattern>, x: string)
    requires forall p <- ps :: Binds(p, x)
    ensures InitWrites(ParamsUses(ps), x, true)
    decreases |ps|
  {
    if ps != [] {
      assert ps[0] in ps;
      ParamWrites(Leaves(ps[0], []), x);
      PureDefaultsVisit(NewGlobal(), ps[0]);
      ParamsWrites(ps[1..], x);
    }
  }

  /** A declaration of `x` records only initialising writes to `x`. */
  lemma DeclaresInit(s: Stmt, x: string)
    requires Declares(s, x)
    ensures InitWrites(StmtUses(s), x, true)
  {
    match s
    case VarDecl(_, ds) => DeclaratorsWrites(ds, x);
    case ForIn(ForDecl(_, id), right, Empty) =>
      DeclaredWrites(Leaves(id, []), None, x);
      PureDefaultsVisit(NewGlobal(), id);
      LoopWrites(Leaves(id, []), right, x);
      PureExpr(NewGlobal(), right);
    case ExprStmt(New(Function(f), args)) =>
      ParamsWrites(f.params, x);
      PureExprs(NewGlobal(), args);
      assert StmtsUses(f.body) == [];
      assert FuncUses(f) == ParamsUses(f.params) + [];
      assert StmtUses(s) == ExprUses(Function(f)) + ExprsUses(args);
    case _ => assert false;
  }

  /** An assignment to a pattern of `x` records at least one write to `x`, and every write
      it records does not initialise. */
  lemma AssignsNoInit(s: Stmt, x: string)
    requires Assigns(s, x)
    ensures InitWrites(StmtUses(s), x, false) && StmtUses(s) != []
  {
    match s
    case ExprStmt(Assign(Plain, PatternTarget(p), right)) =>
      AssignedParts(p, right, x);
      assert StmtUses(s) == ExprUses(s.expression);
      assert ExprUses(s.expression) == TargetUses(Plain, PatternTarget(p), right) + ExprUses(right);
    case ForIn(ForTarget(PatternTarget(p)), right, Empty) =>
      AssignedParts(p, right, x);
      assert StmtUses(s) == AssignedUses(Leaves(p, []), right) + DefaultsUses(p) + ExprUses(right) + [];
    case _ => assert false;
  }

  lemma AssignedParts(p: Pattern, right: Expr, x: string)
    requires Binds(p, x) && Pure(right)
    ensures var us := AssignedUses(Leaves(p, []), right) + DefaultsUses(p);
      InitWrites(us + ExprUses(right), x, false) && us != []
  {
    AssignedWrites(Leaves(p, []), right, x);
    PureDefaultsVisit(NewGlobal(), p);
    PureExpr(NewGlobal(), right);
  }

  // ---------------------------------------------------------------------------------
  // An assignment defines nothing

  lemma {:induction false} WriteDefaultsTables(st: State, name: string, defaults: seq<Expr>, init: bool)
    requires Ready(st)
    ensures TablesSame(st, WriteDefaults(st, name, defaults, init))
    decreases |defaults|
  {
    if defaults != [] {
      WriteDefaultsTables(Referencing(st, name, Write, Some(defaults[0]), init), name, defaults[1..], init);
    }
  }

  lemma {:induction false} AssignLeavesTables(st: State, leaves: seq<Leaf>, right: Expr)
    requires Ready(st)
    ensures TablesSame(st, AssignLeaves(st, leaves, right))
    decreases |leaves|
  {
    if leaves != [] {
      var defaulted := WriteDefaults(st, leaves[0].name, leaves[0].defaults, false);
      WriteDefaultsTables(st, leaves[0].name, leaves[0].defaults, false);
      AssignLeavesTables(Referencing(defaulted, leaves[0].name, Write, Some(right), false), leaves[1..], right);
    }
  }

  /** An assignment statement of the second `init` list defines no variable and opens no scope. */
  lemma AssignsTables(st: State, s: Stmt, x: string)
    requires Ready(st) && Assigns(s, x)
    ensures TablesSame(st, VisitStmt(st, s))
  {
    match s
    case ExprStmt(Assign(Plain, PatternTarget(p), right)) =>
      AssignTables(st, p, right);
    case ForIn(ForTarget(PatternTarget(p)), right, Empty) =>
      AssignTables(st, p, right);
      PureExpr(AssignTo(st, Plain, PatternTarget(p), right), right);
      ForTargetUnfold(st, PatternTarget(p), right, Empty);
    case _ => assert false;
  }

  lemma AssignTables(st: State, p: Pattern, right: Expr)
    requires Ready(st) && PureDefaults(p) && Pure(right)
    ensures TablesSame(st, AssignTo(st, Plain, PatternTarget(p), right))
    ensures TablesSame(st, VisitExpr(AssignTo(st, Plain, PatternTarget(p), right), right))
  {
    var written := AssignLeaves(st, Leaves(p, []), right);
    AssignLeavesTables(st, Leaves(p, []), right);
    PureDefaultsVisit(written, p);
    PureExpr(AssignTo(st, Plain, PatternTarget(p), right), right);
  }

  lemma {:induction false} CloseRefsTables(st: State, s: nat, rs: seq<nat>)
    requires WF(st) && s < |st.scopes| && IdsBelow(rs, |st.references|)
    ensures var r := CloseRefs(st, s, rs);
      |r.variables| == |st.variables| && |r.scopes| == |st.scopes| &&
      forall t | 0 <= t < |st.scopes| :: r.scopes[t].variables == st.scopes[t].variables
    decreases |rs|
  {
    if rs != [] {
      CloseRefsTables(CloseRef(st, s, rs[0]), s, rs[1..]);
    }
  }

  // ---------------------------------------------------------------------------------
  // The three Reference.init test lists, for whole programs

  /** A program that is one declaration of `x` (as in `var {b: a = 0} = {};`,
      `for (let [a] in []);` or `new function({b: a = 0} = {}) {}`) records only writes to
      `x`, each with a write expression and `init` true. */
  lemma DeclarationInitTrue(s: Stmt, x: string)
    requires Declares(s, x)
    ensures var g := Analyze(Program([s]));
      forall r | 0 <= r < |g.references| ::
        var ref := g.references[r];
        ref.name == x && ref.IsWrite() && !ref.IsRead() && ref.writeExpr.Some? && ref.init == Some(true)
  {
    var g := Analyze(Program([s]));
    AnalyzeUses(Program([s]));
    assert StmtsUses([s]) == StmtUses(s) + [];
    DeclaresInit(s, x);
    forall r | 0 <= r < |g.references|
      ensures g.references[r].name == x && g.references[r].flag == Write &&
              g.references[r].writeExpr.Some? && g.references[r].init == Some(true)
    {
      assert UsesOf(g.references)[r] in StmtUses(s);
    }
  }

  /** `let x;` followed by one assignment to a pattern of `x` (as in `let a; [a = 1] = [];`
      or `let a; for ({a} in []);`): the program has one scope with one variable, and at
      least one reference; every reference is a write to `x` with `init` false. */
  lemma AssignmentInitFalse(s: Stmt, x: string)
    requires Assigns(s, x)
    ensures var g := Analyze(Program([VarDecl(Let, [Declarator(Id(x), None)]), s]));
      |g.scopes| == 1 && |g.scopes[0].variables| == 1 && |g.scopes[0].references| >= 1 &&
      forall r | 0 <= r < |g.references| ::
        var ref := g.references[r];
        ref.name == x && ref.IsWrite() && !ref.IsRead() && ref.writeExpr.Some? && ref.init == Some(false)
  {
    var p := Program([VarDecl(Let, [Declarator(Id(x), None)]), s]);
    var g := Analyze(p);
    AssignmentProgramTables(s, x);
    AssignmentProgramFlags(s, x);
    // the only scope lists every reference
    AnalyzeShape(p);
    assert g.references[0].from == 0;
    assert 0 in g.scopes[0].references;
  }

  lemma AssignmentProgramTables(s: Stmt, x: string)
    requires Assigns(s, x)
    ensures var g := Analyze(Program([VarDecl(Let, [Declarator(Id(x), None)]), s]));
      |g.scopes| == 1 && |g.scopes[0].variables| == 1
  {
    var decl := VarDecl(Let, [Declarator(Id(x), None)]);
    var p := Program([decl, s]);
    // `let x;` defines x and records nothing
    var st1 := VisitStmt(NewGlobal(), decl);
    LetWithoutInit(x);
    // the assignment keeps the tables, and so does closing the global scope
    var st2 := VisitStmt(st1, s);
    AssignsTables(st1, s, x);
    assert p.body[1..] == [s] && [s][1..] == [];
    assert VisitStmts(st2, []) == st2;
    assert VisitStmts(st1, [s]) == st2;
    assert VisitStmts(NewGlobal(), p.body) == st2;
    CloseRefsTables(st2.(stack := []), 0, st2.scopes[0].left);
  }

  lemma AssignmentProgramFlags(s: Stmt, x: string)
    requires Assigns(s, x)
    ensures var g := Analyze(Program([VarDecl(Let, [Declarator(Id(x), None)]), s]));
      |g.references| > 0 &&
      forall r | 0 <= r < |g.references| ::
        var ref := g.references[r];
        ref.name == x && ref.flag == Write && ref.writeExpr.Some? && ref.init == Some(false)
  {
    var decl := VarDecl(Let, [Declarator(Id(x), None)]);
    var p := Program([decl, s]);
    var g := Analyze(p);
    AnalyzeUses(p);
    assert p.body[1..] == [s] && [s][1..] == [];
    assert StmtsUses([s]) == StmtUses(s) + StmtsUses([]);
    assert StmtsUses(p.body) == StmtUses(decl) + StmtsUses([s]);
    LetUses(x);
    AssignsNoInit(s, x);
    assert UsesOf(g.references) == StmtUses(s);
    forall r | 0 <= r < |g.references|
      ensures g.references[r].name == x && g.references[r].flag == Write &&
              g.references[r].writeExpr.Some? && g.references[r].init == Some(false)
    {
      assert UsesOf(g.references)[r] in StmtUses(s);
    }
  }

  lemma LetUses(x: string)
    ensures StmtUses(VarDecl(Let, [Declarator(Id(x), None)])) == []
  {
    var d := Declarator(Id(x), None);
    assert Leaves(Id(x), []) == [Leaf(x, [])];
    assert DeclaredUses([Leaf(x, [])], None) == [];
    assert DeclaratorUses(d) == [];
    assert DeclaratorsUses([d]) == DeclaratorUses(d) + DeclaratorsUses([]);
  }

  /** `let x;` as the first statement defines `x` in the global scope and records nothing. */
  lemma LetWithoutInit(x: string)
    ensures var st1 := VisitStmt(NewGlobal(), VarDecl(Let, [Declarator(Id(x), None)]));
      |st1.scopes| == 1 && st1.scopes[0].variables == [0] && st1.references == []
  {
    var d := Declarator(Id(x), None);
    var defined := Define(NewGlobal(), 0, x, Some(VariableDef(Let)));
    assert Leaves(Id(x), []) == [Leaf(x, [])];
    assert WriteDefaults(defined, x, [], true) == defined;
    assert DeclareLeaves(defined, 0, Let, [], None) == defined;
    assert DeclareLeaves(NewGlobal(), 0, Let, [Leaf(x, [])], None) == defined;
    assert VisitDeclarator(NewGlobal(), 0, Let, d) == defined;
    assert VisitDeclarators(defined, 0, Let, []) == defined;
    assert VisitStmt(NewGlobal(), VarDecl(Let, [d])) == VisitDeclarators(NewGlobal(), 0, Let, [d]);
  }

  /** No use of `x` in `us` writes. */
  predicate Unwritten(us: seq<Use>, x: string) {
    forall u <- us :: u.name == x ==> u.flag == Read
  }

  /** Every reference listed by a variable named `x` only reads it, and has neither a write
      expression nor `init`. */
  ghost predicate ReadOnlyBindings(g: State, x: string)
    requires WF(g)
  {
    forall v, k | 0 <= v < |g.variables| && g.variables[v].name == x && 0 <= k < |g.variables[v].references| ::
      var ref := g.references[g.variables[v].references[k]];
      ref.IsRead() && !ref.IsWrite() && ref.writeExpr.None? && ref.init.None?
  }

  /** The third `init` list: when the program never writes `x`, every reference bound to a
      variable named `x` only reads it and has neither a write expression nor `init`. */
  lemma UnwrittenReadOnly(p: Program, x: string)
    requires Unwritten(StmtsUses(p.body), x)
    ensures ReadOnlyBindings(Analyze(p), x)
  {
    var g := Analyze(p);
    AnalyzeResolves(p);
    AnalyzeShape(p);
    AnalyzeUses(p);
    BoundReadOnly(g, StmtsUses(p.body), x);
  }

  /** In a finished state whose references only read `x`, so do those bound to an `x`. */
  lemma BoundReadOnly(g: State, uses: seq<Use>, x: string)
    requires Final(g) && AllFlagsAgree(g) && UsesOf(g.references) == uses
    requires Unwritten(uses, x)
    ensures ReadOnlyBindings(g, x)
  {
    forall v, k | 0 <= v < |g.variables| && g.variables[v].name == x && 0 <= k < |g.variables[v].references|
      ensures g.references[g.variables[v].references[k]].flag == Read
    {
      var r := g.variables[v].references[k];
      assert g.references[r].resolved == Some(v);
      assert g.references[r].name == x;
      assert UsesOf(g.references)[r] in uses;
    }
  }
}
