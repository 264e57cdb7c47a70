/** The three `init` lists of the reference cases, as statements, and the facts that put
    every one of them under the general theorems of `InitFlags`. */
module InitCases {
  import opened Ast
  import opened Engine
  import opened InitFlags
  import opened Occurrences
  import opened InitBounds
  import opened GlobalRead

  /** `var p = init;`, `let p = init;` and `const p = init;` */
  function Declarations(p: Pattern, init: Expr): seq<Stmt> {
    [VarDecl(Var, [Declarator(p, Some(init))]), VarDecl(Let, [Declarator(p, Some(init))]),
     VarDecl(Const, [Declarator(p, Some(init))])]
  }

  /** `for (var p in []);` and `for (let p in []);` */
  function LoopDeclarations(p: Pattern): seq<Stmt> {
    [ForIn(ForDecl(Var, p), ArrayExpr([]), Empty), ForIn(ForDecl(Let, p), ArrayExpr([]), Empty)]
  }

  /** `new function(p) {}` */
  function NewWithParameter(p: Pattern): Stmt {
    ExprStmt(New(Function(Func([p], [])), []))
  }

  /** `a = 0` inside a pattern. */
  function ADefault(): Pattern {
    WithDefault(Id("a"), Literal)
  }

  /** The statements whose every reference initialises `a`: declarators ... */
  function TrueDeclarations(): seq<Stmt> {
    Declarations(Id("a"), Literal) +
    Declarations(ArrayPat([Id("a")]), ArrayExpr([])) +
    Declarations(ArrayPat([ADefault()]), ArrayExpr([])) +
    Declarations(ObjectPat([PatProperty("a", Id("a"))]), ObjectExpr([])) +
    Declarations(ObjectPat([PatProperty("b", Id("a"))]), ObjectExpr([])) +
    Declarations(ObjectPat([PatProperty("b", ADefault())]), ObjectExpr([]))
  }

  /** ... for-in heads ... */
  function TrueLoops(): seq<Stmt> {
    LoopDeclarations(Id("a")) +
    LoopDeclarations(ArrayPat([Id("a")])) +
    LoopDeclarations(ArrayPat([ADefault()])) +
    LoopDeclarations(ObjectPat([PatProperty("a", Id("a"))])) +
    LoopDeclarations(ObjectPat([PatProperty("a", ADefault())]))
  }

  /** ... and parameters. */
  function TrueParameters(): seq<Stmt> {
    [NewWithParameter(ADefault()),
     NewWithParameter(WithDefault(ArrayPat([ADefault()]), ArrayExpr([]))),
     NewWithParameter(WithDefault(ObjectPat([PatProperty("b", ADefault())]), ObjectExpr([])))]
  }

  function TrueCodes(): seq<Stmt> {
    TrueDeclarations() + TrueLoops() + TrueParameters()
  }

  /** `p = right;` and `for (p in right);` */
  function Assignment(p: Pattern, right: Expr): Stmt {
    ExprStmt(Assign(Plain, PatternTarget(p), right))
  }

  function LoopAssignment(p: Pattern): Stmt {
    ForIn(ForTarget(PatternTarget(p)), ArrayExpr([]), Empty)
  }

  /** The statements that, after `let a;`, write `a` without initialising it. */
  function FalseCodes(): seq<Stmt> {
    [Assignment(Id("a"), Literal),
     Assignment(ArrayPat([Id("a")]), ArrayExpr([])),
     Assignment(ArrayPat([ADefault()]), ArrayExpr([])),
     Assignment(ObjectPat([PatProperty("a", Id("a"))]), ObjectExpr([])),
     Assignment(ObjectPat([PatProperty("b", Id("a"))]), ObjectExpr([])),
     Assignment(ObjectPat([PatProperty("b", ADefault())]), ObjectExpr([])),
     LoopAssignment(Id("a")),
     LoopAssignment(ArrayPat([Id("a")])),
     LoopAssignment(ArrayPat([ADefault()])),
     LoopAssignment(ObjectPat([PatProperty("a", Id("a"))])),
     LoopAssignment(ObjectPat([PatProperty("a", ADefault())]))]
  }

  /** `let a;` */
  function LetA(): Stmt {
    VarDecl(Let, [Declarator(Id("a"), None)])
  }

  /** The names of a pattern's leaves do not depend on the defaults around it. */
  lemma {:induction false} LeafNames(p: Pattern, o1: seq<Expr>, o2: seq<Expr>)
    ensures |Leaves(p, o1)| == |Leaves(p, o2)| &&
      forall i | 0 <= i < |Leaves(p, o1)| :: Leaves(p, o1)[i].name == Leaves(p, o2)[i].name
    decreases p, 1
  {
    match p
    case Id(_) =>
    case ArrayPat(es) => LeafNamesOfSeq(es, o1, o2);
    case ObjectPat(ps) => LeafNamesOfProps(ps, o1, o2);
    case WithDefault(l, d) => LeafNames(l, o1 + [d], o2 + [d]);
  }

  lemma {:induction false} LeafNamesOfSeq(ps: seq<Pattern>, o1: seq<Expr>, o2: seq<Expr>)
    ensures |LeavesOfSeq(ps, o1)| == |LeavesOfSeq(ps, o2)| &&
      forall i | 0 <= i < |LeavesOfSeq(ps, o1)| :: LeavesOfSeq(ps, o1)[i].name == LeavesOfSeq(ps, o2)[i].name
    decreases ps, 0
  {
    if ps != [] {
      LeafNames(ps[0], o1, o2);
      LeafNamesOfSeq(ps[1..], o1, o2);
    }
  }

  lemma {:induction false} LeafNamesOfProps(ps: seq<PatProperty>, o1: seq<Expr>, o2: seq<Expr>)
    ensures |LeavesOfProps(ps, o1)| == |LeavesOfProps(ps, o2)| &&
      forall i | 0 <= i < |LeavesOfProps(ps, o1)| :: LeavesOfProps(ps, o1)[i].name == LeavesOfProps(ps, o2)[i].name
    decreases ps, 0
  {
    if ps != [] {
      LeafNames(ps[0].value, o1, o2);
      LeafNamesOfProps(ps[1..], o1, o2);
    }
  }

  lemma BindsDefault(p: Pattern, d: Expr, x: string)
    requires Binds(p, x) && Pure(d)
    ensures Binds(WithDefault(p, d), x)
  {
    assert [] + [d] == [d];
    assert Leaves(WithDefault(p, d), []) == Leaves(p, [d]);
    LeafNames(p, [d], []);
    forall l <- Leaves(p, [d])
      ensures l.name == x
    {
      var i :| 0 <= i < |Leaves(p, [d])| && Leaves(p, [d])[i] == l;
      assert Leaves(p, [])[i] in Leaves(p, []);
    }
  }

  lemma BindsArray(p: Pattern, x: string)
    requires Binds(p, x)
    ensures Binds(ArrayPat([p]), x)
  {
    assert [p][1..] == [];
    assert LeavesOfSeq([p], []) == Leaves(p, []) + LeavesOfSeq([], []);
  }

  lemma BindsObject(k: string, p: Pattern, x: string)
    requires Binds(p, x)
    ensures Binds(ObjectPat([PatProperty(k, p)]), x)
  {
    assert [PatProperty(k, p)][1..] == [];
    assert LeavesOfProps([PatProperty(k, p)], []) == Leaves(p, []) + LeavesOfProps([], []);
  }

  /** The patterns of the first two lists bind `a` alone. */
  lemma PatternsBindA()
    ensures var d := ADefault();
      Binds(Id("a"), "a") && Binds(ArrayPat([Id("a")]), "a") && Binds(ArrayPat([d]), "a") &&
      Binds(ObjectPat([PatProperty("a", Id("a"))]), "a") && Binds(ObjectPat([PatProperty("b", Id("a"))]), "a") &&
      Binds(ObjectPat([PatProperty("b", d)]), "a") && Binds(ObjectPat([PatProperty("a", d)]), "a") &&
      Binds(d, "a") && Binds(WithDefault(ArrayPat([d]), ArrayExpr([])), "a") &&
      Binds(WithDefault(ObjectPat([PatProperty("b", d)]), ObjectExpr([])), "a")
  {
    var d := ADefault();
    assert Binds(Id("a"), "a");
    BindsDefault(Id("a"), Literal, "a");
    BindsArray(Id("a"), "a");
    BindsArray(d, "a");
    BindsObject("a", Id("a"), "a");
    BindsObject("b", Id("a"), "a");
    BindsObject("b", d, "a");
    BindsObject("a", d, "a");
    assert Pure(ArrayExpr([])) && Pure(ObjectExpr([]));
    BindsDefault(ArrayPat([d]), ArrayExpr([]), "a");
    BindsDefault(ObjectPat([PatProperty("b", d)]), ObjectExpr([]), "a");
  }

  lemma DeclarationsDeclare(p: Pattern, init: Expr)
    requires Binds(p, "a") && Pure(init)
    ensures forall s <- Declarations(p, init) :: Declares(s, "a")
  {
  }

  lemma LoopDeclarationsDeclare(p: Pattern)
    requires Binds(p, "a")
    ensures forall s <- LoopDeclarations(p) :: Declares(s, "a")
  {
    assert Pure(ArrayExpr([]));
  }

  lemma TrueDeclarationsDeclare()
    ensures forall s <- TrueDeclarations() :: Declares(s, "a")
  {
    var d := ADefault();
    PatternsBindA();
    DeclarationsDeclare(Id("a"), Literal);
    DeclarationsDeclare(ArrayPat([Id("a")]), ArrayExpr([]));
    DeclarationsDeclare(ArrayPat([d]), ArrayExpr([]));
    DeclarationsDeclare(ObjectPat([PatProperty("a", Id("a"))]), ObjectExpr([]));
    DeclarationsDeclare(ObjectPat([PatProperty("b", Id("a"))]), ObjectExpr([]));
    DeclarationsDeclare(ObjectPat([PatProperty("b", d)]), ObjectExpr([]));
  }

  lemma TrueLoopsDeclare()
    ensures forall s <- TrueLoops() :: Declares(s, "a")
  {
    var d := ADefault();
    PatternsBindA();
    LoopDeclarationsDeclare(Id("a"));
    LoopDeclarationsDeclare(ArrayPat([Id("a")]));
    LoopDeclarationsDeclare(ArrayPat([d]));
    LoopDeclarationsDeclare(ObjectPat([PatProperty("a", Id("a"))]));
    LoopDeclarationsDeclare(ObjectPat([PatProperty("a", d)]));
  }

  lemma TrueParametersDeclare()
    ensures forall s <- TrueParameters() :: Declares(s, "a")
  {
    PatternsBindA();
  }

  /** Every statement of the first list is a declaration of `a`. */
  lemma TrueCodesDeclare()
    ensures |TrueCodes()| == 31 && forall s <- TrueCodes() :: Declares(s, "a")
  {
    TrueDeclarationsDeclare();
    TrueLoopsDeclare();
    TrueParametersDeclare();
  }

  /** The last scope of the analysis of the one-statement program `s` holds a variable and
      a reference. */
  ghost predicate LastFilled(s: Stmt) {
    var g := Analyze(Program([s]));
    |g.scopes| >= 1 && Filled(g, |g.scopes| - 1)
  }

  lemma DeclaratorLastFilled(kind: DeclKind, p: Pattern, init: Expr)
    requires Binds(p, "a") && Pure(init)
    ensures LastFilled(VarDecl(kind, [Declarator(p, Some(init))]))
  {
    DeclaratorFilled(kind, p, init);
  }

  lemma LoopLastFilled(kind: DeclKind, p: Pattern)
    requires kind != Const && Binds(p, "a")
    ensures LastFilled(ForIn(ForDecl(kind, p), ArrayExpr([]), Empty))
  {
    assert Pure(ArrayExpr([]));
    if kind == Var {
      VarLoopFilled(p, ArrayExpr([]));
    } else {
      LexicalLoopFilled(kind, p, ArrayExpr([]));
    }
  }

  lemma NewLastFilled(p: Pattern)
    requires p.WithDefault? && Binds(p, "a")
    ensures forall s <- [NewWithParameter(p)] :: LastFilled(s)
  {
    NewParameterFilled(p);
  }

  lemma NewParameterFilled(p: Pattern)
    requires p.WithDefault? && Binds(p, "a")
    ensures LastFilled(NewWithParameter(p))
  {
    NewFilled(p);
  }

  lemma DeclarationsFilled(p: Pattern, init: Expr)
    requires Binds(p, "a") && Pure(init)
    ensures forall s <- Declarations(p, init) :: LastFilled(s)
  {
    DeclaratorLastFilled(Var, p, init);
    DeclaratorLastFilled(Let, p, init);
    DeclaratorLastFilled(Const, p, init);
  }

  lemma LoopDeclarationsFilled(p: Pattern)
    requires Binds(p, "a")
    ensures forall s <- LoopDeclarations(p) :: LastFilled(s)
  {
    LoopLastFilled(Var, p);
    LoopLastFilled(Let, p);
  }

  lemma TrueDeclarationsFilled()
    ensures forall s <- TrueDeclarations() :: LastFilled(s)
  {
    var d := ADefault();
    PatternsBindA();
    DeclarationsFilled(Id("a"), Literal);
    DeclarationsFilled(ArrayPat([Id("a")]), ArrayExpr([]));
    DeclarationsFilled(ArrayPat([d]), ArrayExpr([]));
    DeclarationsFilled(ObjectPat([PatProperty("a", Id("a"))]), ObjectExpr([]));
    DeclarationsFilled(ObjectPat([PatProperty("b", Id("a"))]), ObjectExpr([]));
    DeclarationsFilled(ObjectPat([PatProperty("b", d)]), ObjectExpr([]));
  }

  lemma TrueLoopsFilled()
    ensures forall s <- TrueLoops() :: LastFilled(s)
  {
    var d := ADefault();
    PatternsBindA();
    LoopDeclarationsFilled(Id("a"));
    LoopDeclarationsFilled(ArrayPat([Id("a")]));
    LoopDeclarationsFilled(ArrayPat([d]));
    LoopDeclarationsFilled(ObjectPat([PatProperty("a", Id("a"))]));
    LoopDeclarationsFilled(ObjectPat([PatProperty("a", d)]));
  }

  lemma TrueParametersFilled()
    ensures forall s <- TrueParameters() :: LastFilled(s)
  {
    var d := ADefault();
    PatternsBindA();
    NewLastFilled(d);
    NewLastFilled(WithDefault(ArrayPat([d]), ArrayExpr([])));
    NewLastFilled(WithDefault(ObjectPat([PatProperty("b", d)]), ObjectExpr([])));
  }

  /** In every program of the first list the last scope holds a variable and a reference. */
  lemma TrueCodesFilled()
    ensures forall s <- TrueCodes() :: LastFilled(s)
  {
    TrueDeclarationsFilled();
    TrueLoopsFilled();
    TrueParametersFilled();
  }

  lemma AssignmentAssigns(p: Pattern, right: Expr)
    requires Binds(p, "a") && Pure(right)
    ensures Assigns(Assignment(p, right), "a")
  {
  }

  lemma LoopAssignmentAssigns(p: Pattern)
    requires Binds(p, "a")
    ensures Assigns(LoopAssignment(p), "a")
  {
    assert Pure(ArrayExpr([]));
  }

  /** Every statement of the second list assigns to a pattern of `a`. */
  lemma FalseCodesAssign()
    ensures |FalseCodes()| == 11 && forall s <- FalseCodes() :: Assigns(s, "a")
  {
    var d := ADefault();
    PatternsBindA();
    assert Pure(Literal) && Pure(ArrayExpr([])) && Pure(ObjectExpr([]));
    AssignmentAssigns(Id("a"), Literal);
    AssignmentAssigns(ArrayPat([Id("a")]), ArrayExpr([]));
    AssignmentAssigns(ArrayPat([d]), ArrayExpr([]));
    AssignmentAssigns(ObjectPat([PatProperty("a", Id("a"))]), ObjectExpr([]));
    AssignmentAssigns(ObjectPat([PatProperty("b", Id("a"))]), ObjectExpr([]));
    AssignmentAssigns(ObjectPat([PatProperty("b", d)]), ObjectExpr([]));
    LoopAssignmentAssigns(Id("a"));
    LoopAssignmentAssigns(ArrayPat([Id("a")]));
    LoopAssignmentAssigns(ArrayPat([d]));
    LoopAssignmentAssigns(ObjectPat([PatProperty("a", Id("a"))]));
    LoopAssignmentAssigns(ObjectPat([PatProperty("a", d)]));
  }

  /** Every program of the first list records only initialising writes of `a`. */
  lemma TrueCodesInit()
    ensures forall s <- TrueCodes() ::
      var g := Analyze(Program([s]));
      |g.scopes| >= 1 &&
      |g.scopes[|g.scopes| - 1].variables| >= 1 && |g.scopes[|g.scopes| - 1].references| >= 1 &&
      forall r | 0 <= r < |g.references| ::
        g.references[r].name == "a" && g.references[r].IsWrite() && !g.references[r].IsRead() &&
        g.references[r].writeExpr.Some? && g.references[r].init == Some(true)
  {
    TrueCodesDeclare();
    TrueCodesFilled();
    forall s <- TrueCodes()
      ensures var g := Analyze(Program([s]));
        |g.scopes| >= 1 &&
        |g.scopes[|g.scopes| - 1].variables| >= 1 && |g.scopes[|g.scopes| - 1].references| >= 1 &&
        forall r | 0 <= r < |g.references| ::
          g.references[r].name == "a" && g.references[r].IsWrite() && !g.references[r].IsRead() &&
          g.references[r].writeExpr.Some? && g.references[r].init == Some(true)
    {
      DeclarationInitTrue(s, "a");
    }
  }

  /** Every program of the second list, after `let a;`, records only writes of `a` that do
      not initialise it, at least one of them in the global scope. */
  lemma FalseCodesNoInit()
    ensures forall s <- FalseCodes() ::
      var g := Analyze(Program([LetA(), s]));
      |g.scopes| == 1 && |g.scopes[0].variables| == 1 && |g.scopes[0].references| >= 1 &&
      forall r | 0 <= r < |g.references| ::
        g.references[r].name == "a" && g.references[r].IsWrite() && !g.references[r].IsRead() &&
        g.references[r].writeExpr.Some? && g.references[r].init == Some(false)
  {
    FalseCodesAssign();
    forall s <- FalseCodes()
      ensures var g := Analyze(Program([LetA(), s]));
        |g.scopes| == 1 && |g.scopes[0].variables| == 1 && |g.scopes[0].references| >= 1 &&
        forall r | 0 <= r < |g.references| ::
          g.references[r].name == "a" && g.references[r].IsWrite() && !g.references[r].IsRead() &&
          g.references[r].writeExpr.Some? && g.references[r].init == Some(false)
    {
      AssignmentInitFalse(s, "a");
    }
  }

  // ---------------------------------------------------------------------------------
  // The third list: programs that only read `a`

  /** `b = a` inside a pattern. */
  function BDefault(): Pattern {
    WithDefault(Id("b"), Ident("a"))
  }

  /** `let a, b;` */
  function LetAB(): Stmt {
    VarDecl(Let, [Declarator(Id("a"), None), Declarator(Id("b"), None)])
  }

  /** The statements that, after `let a;`, read `a` and write only `b` (or the property
      `foo` of `a`). */
  function ReadOnlyAfterA(): seq<Stmt> {
    ReadOnlyDeclarationsAfterA() + ReadOnlyLoopsAfterA()
  }

  function ReadOnlyDeclarationsAfterA(): seq<Stmt> {
    [VarDecl(Let, [Declarator(Id("b"), Some(Ident("a")))]),
     VarDecl(Let, [Declarator(ArrayPat([Id("b")]), Some(Ident("a")))]),
     VarDecl(Let, [Declarator(ArrayPat([BDefault()]), Some(ArrayExpr([])))]),
     ExprStmt(Assign(Plain, MemberTarget(Ident("a"), "foo"), Literal))]
  }

  function ReadOnlyLoopsAfterA(): seq<Stmt> {
    [ForIn(ForDecl(Var, Id("b")), Ident("a"), Empty),
     ForIn(ForDecl(Var, ArrayPat([BDefault()])), ArrayExpr([]), Empty),
     ForIn(ForDecl(Let, Id("b")), Ident("a"), Empty),
     ForIn(ForDecl(Let, ArrayPat([BDefault()])), ArrayExpr([]), Empty)]
  }

  /** The statements that, after `let a, b;`, read `a` and assign only `b`. */
  function ReadOnlyAfterAB(): seq<Stmt> {
    [Assignment(Id("b"), Ident("a")),
     Assignment(ArrayPat([Id("b")]), Ident("a")),
     Assignment(ArrayPat([BDefault()]), ArrayExpr([])),
     ForIn(ForTarget(PatternTarget(Id("b"))), Ident("a"), Empty),
     LoopAssignment(ArrayPat([BDefault()])),
     Assignment(Id("b"), Member(Ident("a"), "foo"))]
  }

  /** `[b = a]` binds `b` under the default `a`, which it reads. */
  lemma BDefaultArray()
    ensures Leaves(ArrayPat([BDefault()]), []) == [Leaf("b", [Ident("a")])]
    ensures DefaultsUses(ArrayPat([BDefault()])) == [Reads("a")]
  {
    assert Leaves(BDefault(), []) == [Leaf("b", [Ident("a")])];
    assert DefaultsUses(BDefault()) == [Reads("a")];
  }

  // The uses of each statement of the third list: writes of `b`, reads of `a`.

  lemma LetBReadsA()
    ensures var us := StmtUses(VarDecl(Let, [Declarator(Id("b"), Some(Ident("a")))]));
      us == [Writes("b", Ident("a"), true), Reads("a")] && Unwritten(us, "a")
  { }

  lemma LetArrayBReadsA()
    ensures var us := StmtUses(VarDecl(Let, [Declarator(ArrayPat([Id("b")]), Some(Ident("a")))]));
      us == [Writes("b", Ident("a"), true), Reads("a")] && Unwritten(us, "a")
  {
    assert Leaves(ArrayPat([Id("b")]), []) == [Leaf("b", [])];
  }

  lemma LetDefaultBReadsA()
    ensures var us := StmtUses(VarDecl(Let, [Declarator(ArrayPat([BDefault()]), Some(ArrayExpr([])))]));
      us == [Writes("b", Ident("a"), true), Writes("b", ArrayExpr([]), true), Reads("a")] && Unwritten(us, "a")
  {
    BDefaultArray();
  }

  lemma ForDeclBReadsA(kind: DeclKind)
    ensures var us := StmtUses(ForIn(ForDecl(kind, Id("b")), Ident("a"), Empty));
      us == [Writes("b", Ident("a"), true), Reads("a")] && Unwritten(us, "a")
  { }

  lemma ForDeclDefaultBReadsA(kind: DeclKind)
    ensures var us := StmtUses(ForIn(ForDecl(kind, ArrayPat([BDefault()])), ArrayExpr([]), Empty));
      us == [Writes("b", Ident("a"), true), Reads("a"), Writes("b", ArrayExpr([]), true)] && Unwritten(us, "a")
  {
    BDefaultArray();
  }

  lemma MemberWriteReadsA()
    ensures var us := StmtUses(ExprStmt(Assign(Plain, MemberTarget(Ident("a"), "foo"), Literal)));
      us == [Reads("a")] && Unwritten(us, "a")
  { }

  lemma AssignBReadsA(right: Expr)
    requires right == Ident("a") || right == Member(Ident("a"), "foo")
    ensures var us := StmtUses(Assignment(Id("b"), right));
      us == [Writes("b", right, false), Reads("a")] && Unwritten(us, "a")
  { }

  lemma AssignArrayBReadsA()
    ensures var us := StmtUses(Assignment(ArrayPat([Id("b")]), Ident("a")));
      us == [Writes("b", Ident("a"), false), Reads("a")] && Unwritten(us, "a")
  {
    assert Leaves(ArrayPat([Id("b")]), []) == [Leaf("b", [])];
  }

  lemma AssignDefaultBReadsA()
    ensures var us := StmtUses(Assignment(ArrayPat([BDefault()]), ArrayExpr([])));
      us == [Writes("b", Ident("a"), false), Writes("b", ArrayExpr([]), false), Reads("a")] && Unwritten(us, "a")
  {
    BDefaultArray();
  }

  lemma ForTargetBReadsA()
    ensures var us := StmtUses(ForIn(ForTarget(PatternTarget(Id("b"))), Ident("a"), Empty));
      us == [Writes("b", Ident("a"), false), Reads("a")] && Unwritten(us, "a")
  { }

  lemma ForTargetDefaultBReadsA()
    ensures var us := StmtUses(LoopAssignment(ArrayPat([BDefault()])));
      us == [Writes("b", Ident("a"), false), Writes("b", ArrayExpr([]), false), Reads("a")] && Unwritten(us, "a")
  {
    BDefaultArray();
  }

  /** No statement of the third list writes `a`, and each reads it. */
  lemma ReadOnlyAfterAUnwritten()
    ensures forall s <- ReadOnlyAfterA() :: Unwritten(StmtUses(s), "a") && Reads("a") in StmtUses(s)
  {
    ReadOnlyDeclarationsUnwritten();
    ReadOnlyLoopsUnwritten();
  }

  lemma ReadOnlyDeclarationsUnwritten()
    ensures forall s <- ReadOnlyDeclarationsAfterA() :: Unwritten(StmtUses(s), "a") && Reads("a") in StmtUses(s)
  {
    LetBReadsA();
    LetArrayBReadsA();
    LetDefaultBReadsA();
    MemberWriteReadsA();
  }

  lemma ReadOnlyLoopsUnwritten()
    ensures forall s <- ReadOnlyLoopsAfterA() :: Unwritten(StmtUses(s), "a") && Reads("a") in StmtUses(s)
  {
    ForDeclBReadsA(Var);
    ForDeclDefaultBReadsA(Var);
    ForDeclBReadsA(Let);
    ForDeclDefaultBReadsA(Let);
  }

  lemma ReadOnlyAfterABUnwritten()
    ensures forall s <- ReadOnlyAfterAB() :: Unwritten(StmtUses(s), "a") && Reads("a") in StmtUses(s)
  {
    AssignBReadsA(Ident("a"));
    AssignArrayBReadsA();
    AssignDefaultBReadsA();
    ForTargetBReadsA();
    ForTargetDefaultBReadsA();
    AssignBReadsA(Member(Ident("a"), "foo"));
  }

  /** A declaration without initialisers records nothing, so a two-statement program has
      the uses of its second statement. */
  lemma AfterBareLet(ds: seq<Declarator>, s: Stmt)
    requires forall d <- ds :: d.id.Id? && d.init.None?
    ensures StmtsUses([VarDecl(Let, ds), s]) == StmtUses(s)
  {
    BareDeclaratorsUses(ds);
    assert StmtsUses([s]) == StmtUses(s) + StmtsUses([]);
    assert [VarDecl(Let, ds), s][1..] == [s];
  }

  lemma {:induction false} BareDeclaratorsUses(ds: seq<Declarator>)
    requires forall d <- ds :: d.id.Id? && d.init.None?
    ensures DeclaratorsUses(ds) == []
    decreases ds
  {
    if ds != [] {
      var d := ds[0];
      assert d in ds;
      assert Leaves(d.id, []) == [Leaf(d.id.name, [])];
      assert DeclaredUses([Leaf(d.id.name, [])], None) == DefaultUses(d.id.name, [], true) + DeclaredUses([], None);
      assert DeclaratorUses(d) == [];
      BareDeclaratorsUses(ds[1..]);
    }
  }

  /** `let ...;` without initialisers followed by a statement that never writes `x`: each
      reference bound to a variable named `x` only reads it and has no `init`. */
  lemma AfterBareLetReadOnly(ds: seq<Declarator>, s: Stmt, x: string)
    requires forall d <- ds :: d.id.Id? && d.init.None?
    requires Unwritten(StmtUses(s), x)
    ensures ReadOnlyBindings(Analyze(Program([VarDecl(Let, ds), s])), x)
  {
    AfterBareLet(ds, s);
    UnwrittenReadOnly(Program([VarDecl(Let, ds), s]), x);
  }

  /** No statement of the third list declares `a` or opens a function scope. */
  lemma ReadOnlyAfterAKeepsFirst()
    ensures forall s <- ReadOnlyAfterA() :: KeepsFirst(s, "a")
  {
    ReadOnlyDeclarationsKeepFirst();
    ReadOnlyLoopsKeepFirst();
  }

  lemma ReadOnlyDeclarationsKeepFirst()
    ensures forall s <- ReadOnlyDeclarationsAfterA() :: KeepsFirst(s, "a")
  {
    BDefaultArray();
    assert Leaves(Id("b"), []) == [Leaf("b", [])];
    assert Leaves(ArrayPat([Id("b")]), []) == [Leaf("b", [])];
  }

  lemma ReadOnlyLoopsKeepFirst()
    ensures forall s <- ReadOnlyLoopsAfterA() :: KeepsFirst(s, "a")
  {
    BDefaultArray();
    assert Leaves(Id("b"), []) == [Leaf("b", [])];
  }

  lemma ReadOnlyAfterABKeepsFirst()
    ensures forall s <- ReadOnlyAfterAB() :: KeepsFirst(s, "a")
  {
  }

  /** `let a, ...;` without initialisers and without another `a`, followed by a statement
      that reads `a` and keeps it first: the first global variable is `a` and lists at least
      one reference. */
  lemma AfterBareLetBound(ds: seq<Declarator>, s: Stmt)
    requires forall d <- ds :: d.id.Id? && d.init.None? && QuietDeclarator(d, "a")
    requires KeepsFirst(s, "a") && Reads("a") in StmtUses(s)
    ensures var g := Analyze(Program([VarDecl(Let, [Declarator(Id("a"), None)] + ds), s]));
      |g.scopes[0].variables| >= 1 && g.variables[g.scopes[0].variables[0]].name == "a" &&
      |g.variables[g.scopes[0].variables[0]].references| >= 1
  {
    var all := [Declarator(Id("a"), None)] + ds;
    ProgramFirst("a", ds, s);
    assert forall d <- all :: d.id.Id? && d.init.None?;
    AfterBareLet(all, s);
    ReadBoundGlobal(Program([VarDecl(Let, all), s]), "a");
  }

  /** After `let a;`, each statement of the third list leaves `a` first in the global
      table with at least one reference. */
  lemma ReadOnlyAfterABound()
    ensures forall s <- ReadOnlyAfterA() :: var g := Analyze(Program([LetA(), s]));
      |g.scopes[0].variables| >= 1 && g.variables[g.scopes[0].variables[0]].name == "a" &&
      |g.variables[g.scopes[0].variables[0]].references| >= 1
  {
    ReadOnlyAfterAUnwritten();
    ReadOnlyAfterAKeepsFirst();
    assert [Declarator(Id("a"), None)] + [] == [Declarator(Id("a"), None)];
    forall s <- ReadOnlyAfterA() {
      AfterBareLetBound([], s);
    }
  }

  /** The same after `let a, b;`. */
  lemma ReadOnlyAfterABBound()
    ensures forall s <- ReadOnlyAfterAB() :: var g := Analyze(Program([LetAB(), s]));
      |g.scopes[0].variables| >= 1 && g.variables[g.scopes[0].variables[0]].name == "a" &&
      |g.variables[g.scopes[0].variables[0]].references| >= 1
  {
    ReadOnlyAfterABUnwritten();
    ReadOnlyAfterABKeepsFirst();
    var b := [Declarator(Id("b"), None)];
    assert Leaves(Id("b"), []) == [Leaf("b", [])];
    assert QuietDeclarator(b[0], "a");
    assert [Declarator(Id("a"), None)] + b == [Declarator(Id("a"), None), Declarator(Id("b"), None)];
    forall s <- ReadOnlyAfterAB() {
      AfterBareLetBound(b, s);
    }
  }

  /** Every program of the third list never writes `a`, so each reference bound to a
      variable named `a` only reads it and has no `init`; and each reads `a`, so the global
      variable `a` lists at least one reference. */
  lemma ReadOnlyCodesRead()
    ensures forall s <- ReadOnlyAfterA() :: var g := Analyze(Program([LetA(), s]));
      ReadOnlyBindings(g, "a") &&
      |g.scopes[0].variables| >= 1 && g.variables[g.scopes[0].variables[0]].name == "a" &&
      |g.variables[g.scopes[0].variables[0]].references| >= 1
    ensures forall s <- ReadOnlyAfterAB() :: var g := Analyze(Program([LetAB(), s]));
      ReadOnlyBindings(g, "a") &&
      |g.scopes[0].variables| >= 1 && g.variables[g.scopes[0].variables[0]].name == "a" &&
      |g.variables[g.scopes[0].variables[0]].references| >= 1
  {
    ReadOnlyAfterAUnwritten();
    ReadOnlyAfterABUnwritten();
    forall s <- ReadOnlyAfterA() {
      AfterBareLetReadOnly([Declarator(Id("a"), None)], s, "a");
    }
    forall s <- ReadOnlyAfterAB() {
      AfterBareLetReadOnly([Declarator(Id("a"), None), Declarator(Id("b"), None)], s, "a");
    }
    ReadOnlyAfterABound();
    ReadOnlyAfterABBound();
  }
}
