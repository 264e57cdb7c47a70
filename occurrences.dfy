/** The references of a program as a function of its syntax alone.

    Every identifier occurrence yields exactly one reference, in traversal order, and
    where the identifier stands decides whether it reads or writes, what it writes and
    whether it initialises. A declarator or parameter pattern writes with `init` true,
    once per enclosing default value and once for the declarator's initializer. A for-in
    head with a declaration writes each leaf with `init` true. An assignment target, and a
    for-in head without a declaration, writes with `init` false. An identifier in
    expression position reads. Of a reference, only `from` and `resolved` depend on the
    scopes. */
module Occurrences {
  import opened Ast
  import opened Engine
  import opened Unfolding
  import opened Traversal

  /** A reference without its scope and its binding. */
  datatype Use = Use(name: string, flag: Flag, writeExpr: Option<Expr>, init: Option<bool>)

  function UseOf(ref: Reference): Use {
    Use(ref.name, ref.flag, ref.writeExpr, ref.init)
  }

  function UsesOf(refs: seq<Reference>): (us: seq<Use>)
    ensures |us| == |refs| && forall i | 0 <= i < |refs| :: us[i] == UseOf(refs[i])
  {
    seq(|refs|, i requires 0 <= i < |refs| => UseOf(refs[i]))
  }

  function Reads(x: string): Use {
    Use(x, Read, None, None)
  }

  function Writes(x: string, e: Expr, init: bool): Use {
    Use(x, Write, Some(e), Some(init))
  }

  // ---------------------------------------------------------------------------------
  // The uses each piece of syntax contributes, in traversal order

  function DefaultUses(x: string, defaults: seq<Expr>, init: bool): seq<Use>
    decreases |defaults|
  {
    if defaults == [] then [] else [Writes(x, defaults[0], init)] + DefaultUses(x, defaults[1..], init)
  }

  function DeclaredUses(leaves: seq<Leaf>, init: Option<Expr>): seq<Use>
    decreases |leaves|
  {
    if leaves == [] then []
    else
      DefaultUses(leaves[0].name, leaves[0].defaults, true) +
      (if init.Some? then [Writes(leaves[0].name, init.value, true)] else []) +
      DeclaredUses(leaves[1..], init)
  }

  function ParamUses(leaves: seq<Leaf>): seq<Use>
    decreases |leaves|
  {
    if leaves == [] then []
    else DefaultUses(leaves[0].name, leaves[0].defaults, true) + ParamUses(leaves[1..])
  }

  function AssignedUses(leaves: seq<Leaf>, right: Expr): seq<Use>
    decreases |leaves|
  {
    if leaves == [] then []
    else
      DefaultUses(leaves[0].name, leaves[0].defaults, false) + [Writes(leaves[0].name, right, false)] +
      AssignedUses(leaves[1..], right)
  }

  function LoopUses(leaves: seq<Leaf>, right: Expr): seq<Use>
    decreases |leaves|
  {
    if leaves == [] then [] else [Writes(leaves[0].name, right, true)] + LoopUses(leaves[1..], right)
  }

  function StmtsUses(ss: seq<Stmt>): seq<Use>
    decreases ss
  {
    if ss == [] then [] else StmtUses(ss[0]) + StmtsUses(ss[1..])
  }

  function StmtUses(s: Stmt): seq<Use>
    decreases s
  {
    match s
    case VarDecl(_, ds) => DeclaratorsUses(ds)
    case FunctionDecl(_, f) => FuncUses(f)
    case ClassDecl(_) => []
    case ExprStmt(e) => ExprUses(e)
    case ForIn(left, right, body) =>
      (match left
      case ForDecl(_, id) =>
        DeclaredUses(Leaves(id, []), None) + DefaultsUses(id) + LoopUses(Leaves(id, []), right) +
        ExprUses(right) + StmtUses(body)
      case ForTarget(t) => TargetUses(Plain, t, right) + ExprUses(right) + StmtUses(body))
    case Empty => []
  }

  function DeclaratorsUses(ds: seq<Declarator>): seq<Use>
    decreases ds
  {
    if ds == [] then [] else DeclaratorUses(ds[0]) + DeclaratorsUses(ds[1..])
  }

  function DeclaratorUses(d: Declarator): seq<Use>
    decreases d
  {
    DeclaredUses(Leaves(d.id, []), d.init) + DefaultsUses(d.id) +
    (match d.init
     case Some(e) => ExprUses(e)
     case None => [])
  }

  function FuncUses(f: Func): seq<Use>
    decreases f
  {
    ParamsUses(f.params) + StmtsUses(f.body)
  }

  function ParamsUses(ps: seq<Pattern>): seq<Use>
    decreases ps
  {
    if ps == [] then [] else ParamUses(Leaves(ps[0], [])) + DefaultsUses(ps[0]) + ParamsUses(ps[1..])
  }

  function DefaultsUses(p: Pattern): seq<Use>
    decreases p
  {
    match p
    case Id(_) => []
    case ArrayPat(es) => DefaultsOfSeqUses(es)
    case ObjectPat(ps) => DefaultsOfPropsUses(ps)
    case WithDefault(l, d) => DefaultsUses(l) + ExprUses(d)
  }

  function DefaultsOfSeqUses(ps: seq<Pattern>): seq<Use>
    decreases ps
  {
    if ps == [] then [] else DefaultsUses(ps[0]) + DefaultsOfSeqUses(ps[1..])
  }

  function DefaultsOfPropsUses(ps: seq<PatProperty>): seq<Use>
    decreases ps
  {
    if ps == [] then [] else DefaultsUses(ps[0].value) + DefaultsOfPropsUses(ps[1..])
  }

  function TargetUses(op: AssignOp, t: Target, right: Expr): seq<Use>
    decreases t
  {
    match t
    case MemberTarget(o, _) => ExprUses(o)
    case PatternTarget(p) =>
      if op == Plain then AssignedUses(Leaves(p, []), right) + DefaultsUses(p)
      else if p.Id? then [Use(p.name, ReadWrite, Some(right), Some(false))]
      else []
  }

  function ExprsUses(es: seq<Expr>): seq<Use>
    decreases es
  {
    if es == [] then [] else ExprUses(es[0]) + ExprsUses(es[1..])
  }

  function PropsUses(ps: seq<Property>): seq<Use>
    decreases ps
  {
    if ps == [] then [] else ExprUses(ps[0].value) + PropsUses(ps[1..])
  }

  function ExprUses(e: Expr): seq<Use>
    decreases e
  {
    match e
    case Ident(x) => [Reads(x)]
    case Literal => []
    case ArrayExpr(es) => ExprsUses(es)
    case ObjectExpr(ps) => PropsUses(ps)
    case Member(o, _) => ExprUses(o)
    case Call(c, args) => ExprUses(c) + ExprsUses(args)
    case New(c, args) => ExprUses(c) + ExprsUses(args)
    case Assign(op, left, right) => TargetUses(op, left, right) + ExprUses(right)
    case Function(f) => FuncUses(f)
  }

  // ---------------------------------------------------------------------------------
  // The analyser appends exactly these uses

  /** From `st1` to `st2` the reference list grew by `us`; earlier references kept their
      name, flag, written expression and `init`. */
  ghost predicate Appends(st1: State, st2: State, us: seq<Use>) {
    UsesOf(st2.references) == UsesOf(st1.references) + us
  }

  lemma AppendsTrans(st1: State, st2: State, st3: State, us1: seq<Use>, us2: seq<Use>)
    requires Appends(st1, st2, us1) && Appends(st2, st3, us2)
    ensures Appends(st1, st3, us1 + us2)
  {
    assert UsesOf(st1.references) + us1 + us2 == UsesOf(st1.references) + (us1 + us2);
  }

  lemma ReferencingUses(st: State, name: string, flag: Flag, writeExpr: Option<Expr>, init: bool)
    requires Ready(st)
    ensures Appends(st, Referencing(st, name, flag, writeExpr, init),
                    [Use(name, flag, if flag != Read then writeExpr else None, if flag != Read then Some(init) else None)])
  {
    var st2 := Referencing(st, name, flag, writeExpr, init);
    assert st2.references == st.references + [st2.references[|st.references|]];
  }

  lemma DefineUses(st: State, target: nat, name: string, def: Option<DefKind>)
    requires WF(st) && target < |st.scopes|
    ensures Define(st, target, name, def).references == st.references
  {
  }

  lemma NestUses(st: State, kind: ScopeKind)
    requires Ready(st) && kind != GlobalScope
    ensures NestScope(st, kind).references == st.references
  {
    var n := |st.scopes|;
    var cur := Current(st);
    var vs := if kind == FunctionScope then n else st.scopes[cur].variableScope;
    var entered := st.(scopes := st.scopes + [Scope(kind, Some(cur), vs, [], [], [], [])],
                      stack := st.stack + [n]);
    if kind == FunctionScope {
      DefineUses(entered, n, "arguments", None);
    }
  }

  lemma {:induction false} CloseRefsUses(st: State, s: nat, rs: seq<nat>)
    requires WF(st) && s < |st.scopes| && IdsBelow(rs, |st.references|)
    ensures Appends(st, CloseRefs(st, s, rs), [])
    decreases |rs|
  {
    if rs != [] {
      var st1 := CloseRef(st, s, rs[0]);
      assert UsesOf(st1.references) == UsesOf(st.references);
      CloseRefsUses(st1, s, rs[1..]);
    }
  }

  /** Closing a scope binds references but never changes what they record. */
  lemma CloseUses(st: State)
    requires Ready(st)
    ensures Appends(st, Close(st), [])
  {
    var s := Current(st);
    var popped := st.(stack := st.stack[..|st.stack| - 1]);
    CloseRefsUses(popped, s, st.scopes[s].left);
  }

  lemma {:induction false} WriteDefaultsUses(st: State, name: string, defaults: seq<Expr>, init: bool)
    requires Ready(st)
    ensures Appends(st, WriteDefaults(st, name, defaults, init), DefaultUses(name, defaults, init))
    decreases |defaults|
  {
    if defaults != [] {
      var st1 := Referencing(st, name, Write, Some(defaults[0]), init);
      ReferencingUses(st, name, Write, Some(defaults[0]), init);
      WriteDefaultsUses(st1, name, defaults[1..], init);
      AppendsTrans(st, st1, WriteDefaults(st1, name, defaults[1..], init),
                   [Writes(name, defaults[0], init)], DefaultUses(name, defaults[1..], init));
    }
  }

  lemma {:induction false} DeclareLeavesUses(st: State, target: nat, kind: DeclKind, leaves: seq<Leaf>, init: Option<Expr>)
    requires Ready(st) && target < |st.scopes|
    ensures Appends(st, DeclareLeaves(st, target, kind, leaves, init), DeclaredUses(leaves, init))
    decreases |leaves|
  {
    if leaves != [] {
      var l := leaves[0];
      var defined := Define(st, target, l.name, Some(VariableDef(kind)));
      DefineUses(st, target, l.name, Some(VariableDef(kind)));
      var defaulted := WriteDefaults(defined, l.name, l.defaults, true);
      WriteDefaultsUses(defined, l.name, l.defaults, true);
      var written := if init.Some? then Referencing(defaulted, l.name, Write, init, true) else defaulted;
      var mine := if init.Some? then [Writes(l.name, init.value, true)] else [];
      if init.Some? {
        ReferencingUses(defaulted, l.name, Write, init, true);
      }
      assert Appends(defaulted, written, mine);
      AppendsTrans(st, defaulted, written, DefaultUses(l.name, l.defaults, true), mine);
      DeclareLeavesUses(written, target, kind, leaves[1..], init);
      AppendsTrans(st, written, DeclareLeaves(written, target, kind, leaves[1..], init),
                   DefaultUses(l.name, l.defaults, true) + mine, DeclaredUses(leaves[1..], init));
    }
  }

  lemma {:induction false} BindParamsUses(st: State, leaves: seq<Leaf>)
    requires Ready(st)
    ensures Appends(st, BindParams(st, leaves), ParamUses(leaves))
    decreases |leaves|
  {
    if leaves != [] {
      var defined := Define(st, Current(st), leaves[0].name, Some(ParameterDef));
      DefineUses(st, Current(st), leaves[0].name, Some(ParameterDef));
      var defaulted := WriteDefaults(defined, leaves[0].name, leaves[0].defaults, true);
      WriteDefaultsUses(defined, leaves[0].name, leaves[0].defaults, true);
      BindParamsUses(defaulted, leaves[1..]);
      AppendsTrans(st, defaulted, BindParams(defaulted, leaves[1..]),
                   DefaultUses(leaves[0].name, leaves[0].defaults, true), ParamUses(leaves[1..]));
    }
  }

  lemma {:induction false} AssignLeavesUses(st: State, leaves: seq<Leaf>, right: Expr)
    requires Ready(st)
    ensures Appends(st, AssignLeaves(st, leaves, right), AssignedUses(leaves, right))
    decreases |leaves|
  {
    if leaves != [] {
      var defaulted := WriteDefaults(st, leaves[0].name, leaves[0].defaults, false);
      WriteDefaultsUses(st, leaves[0].name, leaves[0].defaults, false);
      var written := Referencing(defaulted, leaves[0].name, Write, Some(right), false);
      ReferencingUses(defaulted, leaves[0].name, Write, Some(right), false);
      AppendsTrans(st, defaulted, written, DefaultUses(leaves[0].name, leaves[0].defaults, false),
                   [Writes(leaves[0].name, right, false)]);
      AssignLeavesUses(written, leaves[1..], right);
      AppendsTrans(st, written, AssignLeaves(written, leaves[1..], right),
                   DefaultUses(leaves[0].name, leaves[0].defaults, false) + [Writes(leaves[0].name, right, false)],
                   AssignedUses(leaves[1..], right));
    }
  }

  lemma {:induction false} WriteLeavesUses(st: State, leaves: seq<Leaf>, right: Expr)
    requires Ready(st)
    ensures Appends(st, WriteLeaves(st, leaves, right), LoopUses(leaves, right))
    decreases |leaves|
  {
    if leaves != [] {
      var written := Referencing(st, leaves[0].name, Write, Some(right), true);
      ReferencingUses(st, leaves[0].name, Write, Some(right), true);
      WriteLeavesUses(written, leaves[1..], right);
      AppendsTrans(st, written, WriteLeaves(written, leaves[1..], right),
                   [Writes(leaves[0].name, right, true)], LoopUses(leaves[1..], right));
    }
  }

  lemma {:induction false} VisitStmtsUses(st: State, ss: seq<Stmt>)
    requires Ready(st)
    ensures Appends(st, VisitStmts(st, ss), StmtsUses(ss))
    decreases ss
  {
    if ss != [] {
      VisitStmtUses(st, ss[0]);
      VisitStmtsUses(VisitStmt(st, ss[0]), ss[1..]);
      AppendsTrans(st, VisitStmt(st, ss[0]), VisitStmts(VisitStmt(st, ss[0]), ss[1..]),
                   StmtUses(ss[0]), StmtsUses(ss[1..]));
    }
  }

  lemma {:induction false} VisitStmtUses(st: State, s: Stmt)
    requires Ready(st)
    ensures Appends(st, VisitStmt(st, s), StmtUses(s))
    decreases s, 2
  {
    match s
    case VarDecl(kind, ds) =>
      var target := if kind == Var then st.scopes[Current(st)].variableScope else Current(st);
      VisitDeclaratorsUses(st, target, kind, ds);
    case FunctionDecl(name, f) =>
      DefineUses(st, Current(st), name, Some(FunctionNameDef));
      VisitFunctionUses(Define(st, Current(st), name, Some(FunctionNameDef)), f);
    case ClassDecl(name) =>
      ClassDeclUses(st, name);
    case ExprStmt(e) =>
      VisitExprUses(st, e);
    case ForIn(left, right, body) =>
      if left.ForDecl? {
        ForDeclUses(st, s);
      } else {
        var targeted := AssignTo(st, Plain, left.target, right);
        AssignToUses(st, Plain, left.target, right);
        VisitExprUses(targeted, right);
        AppendsTrans(st, targeted, VisitExpr(targeted, right), TargetUses(Plain, left.target, right), ExprUses(right));
        VisitStmtUses(VisitExpr(targeted, right), body);
        AppendsTrans(st, VisitExpr(targeted, right), VisitStmt(VisitExpr(targeted, right), body),
                     TargetUses(Plain, left.target, right) + ExprUses(right), StmtUses(body));
      }
    case Empty =>
  }

  lemma ClassDeclUses(st: State, name: string)
    requires Ready(st)
    ensures Appends(st, VisitStmt(st, ClassDecl(name)), [])
  {
    var named := Define(st, Current(st), name, Some(ClassNameDef));
    var entered := NestScope(named, ClassScope);
    var inner := Define(entered, Current(entered), name, Some(ClassNameDef));
    ClassDeclUnfold(st, name);
    ClassBodyUnfold(st, name);
    DefineUses(st, Current(st), name, Some(ClassNameDef));
    NestUses(named, ClassScope);
    DefineUses(entered, Current(entered), name, Some(ClassNameDef));
    CloseUses(inner);
  }

  lemma {:induction false} ForHeadUses(st: State, s: Stmt)
    requires Ready(st) && s.ForIn? && s.left.ForDecl?
    ensures Appends(st, ForHead(st, s.left.kind, s.left.id, s.right),
                    DeclaredUses(Leaves(s.left.id, []), None) + DefaultsUses(s.left.id) + LoopUses(Leaves(s.left.id, []), s.right))
    decreases s, 0
  {
    var kind, id, right := s.left.kind, s.left.id, s.right;
    var entered := if kind != Var then NestScope(st, ForScope) else st;
    if kind != Var {
      NestUses(st, ForScope);
    }
    var target := if kind == Var then entered.scopes[Current(entered)].variableScope else Current(entered);
    var declared := DeclareLeaves(entered, target, kind, Leaves(id, []), None);
    DeclareLeavesUses(entered, target, kind, Leaves(id, []), None);
    VisitDefaultsUses(declared, id);
    AppendsTrans(entered, declared, VisitDefaults(declared, id), DeclaredUses(Leaves(id, []), None), DefaultsUses(id));
    WriteLeavesUses(VisitDefaults(declared, id), Leaves(id, []), right);
    AppendsTrans(entered, VisitDefaults(declared, id), WriteLeaves(VisitDefaults(declared, id), Leaves(id, []), right),
                 DeclaredUses(Leaves(id, []), None) + DefaultsUses(id), LoopUses(Leaves(id, []), right));
  }

  /** A for-in statement whose head declares its variables. */
  lemma {:induction false} ForDeclUses(st: State, s: Stmt)
    requires Ready(st) && s.ForIn? && s.left.ForDecl?
    ensures Appends(st, VisitStmt(st, s), StmtUses(s))
    decreases s, 1
  {
    var head := ForHead(st, s.left.kind, s.left.id, s.right);
    var headUses := DeclaredUses(Leaves(s.left.id, []), None) + DefaultsUses(s.left.id) + LoopUses(Leaves(s.left.id, []), s.right);
    ForHeadUses(st, s);
    VisitExprUses(head, s.right);
    AppendsTrans(st, head, VisitExpr(head, s.right), headUses, ExprUses(s.right));
    var visited := VisitStmt(VisitExpr(head, s.right), s.loopBody);
    VisitStmtUses(VisitExpr(head, s.right), s.loopBody);
    AppendsTrans(st, VisitExpr(head, s.right), visited, headUses + ExprUses(s.right), StmtUses(s.loopBody));
    ForDeclUnfold(st, s);
    if s.left.kind != Var {
      CloseUses(visited);
      AppendsTrans(st, visited, Close(visited), headUses + ExprUses(s.right) + StmtUses(s.loopBody), []);
    }
    assert StmtUses(s) == headUses + ExprUses(s.right) + StmtUses(s.loopBody) + [];
  }

  lemma {:induction false} VisitDeclaratorsUses(st: State, target: nat, kind: DeclKind, ds: seq<Declarator>)
    requires Ready(st) && target < |st.scopes|
    ensures Appends(st, VisitDeclarators(st, target, kind, ds), DeclaratorsUses(ds))
    decreases ds
  {
    if ds != [] {
      var st1 := VisitDeclarator(st, target, kind, ds[0]);
      VisitDeclaratorUses(st, target, kind, ds[0]);
      VisitDeclaratorsUses(st1, target, kind, ds[1..]);
      AppendsTrans(st, st1, VisitDeclarators(st1, target, kind, ds[1..]), DeclaratorUses(ds[0]), DeclaratorsUses(ds[1..]));
    }
  }

  lemma {:induction false} VisitDeclaratorUses(st: State, target: nat, kind: DeclKind, d: Declarator)
    requires Ready(st) && target < |st.scopes|
    ensures Appends(st, VisitDeclarator(st, target, kind, d), DeclaratorUses(d))
    decreases d
  {
    var declared := DeclareLeaves(st, target, kind, Leaves(d.id, []), d.init);
    DeclareLeavesUses(st, target, kind, Leaves(d.id, []), d.init);
    VisitDefaultsUses(declared, d.id);
    AppendsTrans(st, declared, VisitDefaults(declared, d.id), DeclaredUses(Leaves(d.id, []), d.init), DefaultsUses(d.id));
    var head := DeclaredUses(Leaves(d.id, []), d.init) + DefaultsUses(d.id);
    match d.init {
      case Some(e) =>
        VisitExprUses(VisitDefaults(declared, d.id), e);
        AppendsTrans(st, VisitDefaults(declared, d.id), VisitExpr(VisitDefaults(declared, d.id), e), head, ExprUses(e));
      case None =>
        assert DeclaratorUses(d) == head + [];
    }
  }

  lemma {:induction false} VisitFunctionUses(st: State, f: Func)
    requires Ready(st)
    ensures Appends(st, VisitFunction(st, f), FuncUses(f))
    decreases f
  {
    var entered := NestScope(st, FunctionScope);
    NestUses(st, FunctionScope);
    var bound := VisitParams(entered, f.params);
    VisitParamsUses(entered, f.params);
    var body := VisitStmts(bound, f.body);
    VisitStmtsUses(bound, f.body);
    AppendsTrans(entered, bound, body, ParamsUses(f.params), StmtsUses(f.body));
    CloseUses(body);
    AppendsTrans(entered, body, Close(body), FuncUses(f), []);
    assert FuncUses(f) + [] == FuncUses(f);
  }

  lemma {:induction false} VisitParamsUses(st: State, ps: seq<Pattern>)
    requires Ready(st)
    ensures Appends(st, VisitParams(st, ps), ParamsUses(ps))
    decreases ps
  {
    if ps != [] {
      var bound := BindParams(st, Leaves(ps[0], []));
      BindParamsUses(st, Leaves(ps[0], []));
      VisitDefaultsUses(bound, ps[0]);
      AppendsTrans(st, bound, VisitDefaults(bound, ps[0]), ParamUses(Leaves(ps[0], [])), DefaultsUses(ps[0]));
      VisitParamsUses(VisitDefaults(bound, ps[0]), ps[1..]);
      AppendsTrans(st, VisitDefaults(bound, ps[0]), VisitParams(VisitDefaults(bound, ps[0]), ps[1..]),
                   ParamUses(Leaves(ps[0], [])) + DefaultsUses(ps[0]), ParamsUses(ps[1..]));
    }
  }

  lemma {:induction false} VisitDefaultsUses(st: State, p: Pattern)
    requires Ready(st)
    ensures Appends(st, VisitDefaults(st, p), DefaultsUses(p))
    decreases p
  {
    match p
    case Id(_) =>
    case ArrayPat(es) => VisitDefaultsOfSeqUses(st, es);
    case ObjectPat(ps) => VisitDefaultsOfPropsUses(st, ps);
    case WithDefault(l, d) =>
      VisitDefaultsUses(st, l);
      VisitExprUses(VisitDefaults(st, l), d);
      AppendsTrans(st, VisitDefaults(st, l), VisitExpr(VisitDefaults(st, l), d), DefaultsUses(l), ExprUses(d));
  }

  lemma {:induction false} VisitDefaultsOfSeqUses(st: State, ps: seq<Pattern>)
    requires Ready(st)
    ensures Appends(st, VisitDefaultsOfSeq(st, ps), DefaultsOfSeqUses(ps))
    decreases ps
  {
    if ps != [] {
      VisitDefaultsUses(st, ps[0]);
      VisitDefaultsOfSeqUses(VisitDefaults(st, ps[0]), ps[1..]);
      AppendsTrans(st, VisitDefaults(st, ps[0]), VisitDefaultsOfSeq(VisitDefaults(st, ps[0]), ps[1..]),
                   DefaultsUses(ps[0]), DefaultsOfSeqUses(ps[1..]));
    }
  }

  lemma {:induction false} VisitDefaultsOfPropsUses(st: State, ps: seq<PatProperty>)
    requires Ready(st)
    ensures Appends(st, VisitDefaultsOfProps(st, ps), DefaultsOfPropsUses(ps))
    decreases ps
  {
    if ps != [] {
      VisitDefaultsUses(st, ps[0].value);
      VisitDefaultsOfPropsUses(VisitDefaults(st, ps[0].value), ps[1..]);
      AppendsTrans(st, VisitDefaults(st, ps[0].value), VisitDefaultsOfProps(VisitDefaults(st, ps[0].value), ps[1..]),
                   DefaultsUses(ps[0].value), DefaultsOfPropsUses(ps[1..]));
    }
  }

  lemma {:induction false} AssignToUses(st: State, op: AssignOp, t: Target, right: Expr)
    requires Ready(st)
    ensures Appends(st, AssignTo(st, op, t, right), TargetUses(op, t, right))
    decreases t
  {
    match t
    case MemberTarget(o, _) => VisitExprUses(st, o);
    case PatternTarget(p) =>
      if op == Plain {
        var targeted := AssignLeaves(st, Leaves(p, []), right);
        AssignLeavesUses(st, Leaves(p, []), right);
        VisitDefaultsUses(targeted, p);
        AppendsTrans(st, targeted, VisitDefaults(targeted, p), AssignedUses(Leaves(p, []), right), DefaultsUses(p));
      } else if p.Id? {
        ReferencingUses(st, p.name, ReadWrite, Some(right), false);
      }
  }

  lemma {:induction false} VisitExprsUses(st: State, es: seq<Expr>)
    requires Ready(st)
    ensures Appends(st, VisitExprs(st, es), ExprsUses(es))
    decreases es
  {
    if es != [] {
      VisitExprUses(st, es[0]);
      VisitExprsUses(VisitExpr(st, es[0]), es[1..]);
      AppendsTrans(st, VisitExpr(st, es[0]), VisitExprs(VisitExpr(st, es[0]), es[1..]), ExprUses(es[0]), ExprsUses(es[1..]));
    }
  }

  lemma {:induction false} VisitPropsUses(st: State, ps: seq<Property>)
    requires Ready(st)
    ensures Appends(st, VisitProps(st, ps), PropsUses(ps))
    decreases ps
  {
    if ps != [] {
      VisitExprUses(st, ps[0].value);
      VisitPropsUses(VisitExpr(st, ps[0].value), ps[1..]);
      AppendsTrans(st, VisitExpr(st, ps[0].value), VisitProps(VisitExpr(st, ps[0].value), ps[1..]),
                   ExprUses(ps[0].value), PropsUses(ps[1..]));
    }
  }

  lemma {:induction false} VisitExprUses(st: State, e: Expr)
    requires Ready(st)
    ensures Appends(st, VisitExpr(st, e), ExprUses(e))
    decreases e, 1
  {
    match e
    case Ident(x) => ReferencingUses(st, x, Read, None, false);
    case Literal =>
    case ArrayExpr(es) => VisitExprsUses(st, es);
    case ObjectExpr(ps) => VisitPropsUses(st, ps);
    case Member(o, _) => VisitExprUses(st, o);
    case Call(_, _) => CalleeArgsUses(st, e);
    case New(_, _) => CalleeArgsUses(st, e);
    case Assign(_, _, _) => AssignUses(st, e);
    case Function(f) => VisitFunctionUses(st, f);
  }

  lemma {:induction false} CalleeArgsUses(st: State, e: Expr)
    requires Ready(st) && (e.Call? || e.New?)
    ensures Appends(st, VisitExpr(st, e), ExprUses(e))
    decreases e, 0
  {
    var afterCallee := VisitExpr(st, e.callee);
    VisitExprUses(st, e.callee);
    VisitExprsUses(afterCallee, e.arguments);
    AppendsTrans(st, afterCallee, VisitExprs(afterCallee, e.arguments), ExprUses(e.callee), ExprsUses(e.arguments));
  }

  lemma {:induction false} AssignUses(st: State, e: Expr)
    requires Ready(st) && e.Assign?
    ensures Appends(st, VisitExpr(st, e), ExprUses(e))
    decreases e, 0
  {
    var afterTarget := AssignTo(st, e.op, e.left, e.right);
    AssignToUses(st, e.op, e.left, e.right);
    VisitExprUses(afterTarget, e.right);
    AppendsTrans(st, afterTarget, VisitExpr(afterTarget, e.right), TargetUses(e.op, e.left, e.right), ExprUses(e.right));
  }

  /** The analysis records one reference per identifier occurrence of the program, in
      traversal order, with the flag, written expression and `init` its position decides. */
  lemma AnalyzeUses(p: Program)
    ensures UsesOf(Analyze(p).references) == StmtsUses(p.body)
  {
    VisitStmtsUses(NewGlobal(), p.body);
    CloseUses(VisitStmts(NewGlobal(), p.body));
    AppendsTrans(NewGlobal(), VisitStmts(NewGlobal(), p.body), Analyze(p), StmtsUses(p.body), []);
    assert UsesOf(NewGlobal().references) == [];
    assert StmtsUses(p.body) + [] == StmtsUses(p.body);
  }
}
