/** The scope analyser as a state transformer.

    A State is the arena the analyser fills: every scope, variable and reference it has
    created, addressed by index, plus the stack of scopes that are still open (the global
    scope at the bottom, the current scope on top). Each function below is one step of the
    single depth-first traversal: it opens scopes on entering a function or class (or a
    for-in head with a lexical declaration), defines variables, appends one reference per
    identifier occurrence, and, when a scope closes, resolves the references left pending in
    it against its variable table or hands them on to the enclosing scope. */
module Engine {
  import opened Ast

  datatype ScopeKind = GlobalScope | FunctionScope | ClassScope | ForScope

  /** The kind of one declaring occurrence of a variable. */
  datatype DefKind =
    | VariableDef(declKind: DeclKind)   // a var/let/const declarator
    | ParameterDef
    | FunctionNameDef
    | ClassNameDef

  /** How a reference uses its identifier: `a += 1` is one ReadWrite reference. */
  datatype Flag = Read | Write | ReadWrite

  /** One identifier occurrence. `from` is the scope it occurs in, `resolved` the variable
      it binds to (None is `null`). `writeExpr` and `init` are None (`undefined`) on a
      reference that only reads. */
  datatype Reference = Reference(name: string, from: nat, resolved: Option<nat>, flag: Flag,
                                 writeExpr: Option<Expr>, init: Option<bool>)
  {
    predicate IsRead() { flag != Write }
    predicate IsWrite() { flag != Read }
  }

  /** A named binding of one scope with its definitions and the references resolved to it. */
  datatype Variable = Variable(name: string, scope: nat, defs: seq<DefKind>, references: seq<nat>)

  /** A scope: `variables` and `references` in creation order, `through` the references
      handed on to the enclosing scope (or, in the global scope, left unresolved) and
      `left` the references waiting to be resolved when the scope closes. */
  datatype Scope = Scope(kind: ScopeKind, upper: Option<nat>, variableScope: nat,
                         variables: seq<nat>, references: seq<nat>, through: seq<nat>, left: seq<nat>)

  datatype State = State(scopes: seq<Scope>, variables: seq<Variable>,
                         references: seq<Reference>, stack: seq<nat>)

  /** Every index in `ids` addresses one of `n` entries. */
  ghost predicate IdsBelow(ids: seq<nat>, n: nat) {
    forall k | 0 <= k < |ids| :: ids[k] < n
  }

  /** Every index stored anywhere in the arena is in range, and each scope's enclosing
      scope and variable scope were created before it. */
  ghost predicate WF(st: State) {
    (forall i | 0 <= i < |st.stack| :: st.stack[i] < |st.scopes|) &&
    (forall s | 0 <= s < |st.scopes| ::
       (st.scopes[s].upper.Some? ==> st.scopes[s].upper.value < s) &&
       st.scopes[s].variableScope <= s &&
       IdsBelow(st.scopes[s].variables, |st.variables|) &&
       IdsBelow(st.scopes[s].references, |st.references|) &&
       IdsBelow(st.scopes[s].through, |st.references|) &&
       IdsBelow(st.scopes[s].left, |st.references|)) &&
    (forall v | 0 <= v < |st.variables| ::
       st.variables[v].scope < |st.scopes| &&
       IdsBelow(st.variables[v].references, |st.references|)) &&
    (forall r | 0 <= r < |st.references| ::
       st.references[r].from < |st.scopes| &&
       (st.references[r].resolved.Some? ==> st.references[r].resolved.value < |st.variables|))
  }

  /** A well-formed state in the middle of the traversal: some scope is open. */
  ghost predicate Ready(st: State) {
    WF(st) && |st.stack| > 0
  }

  function Current(st: State): (s: nat)
    requires Ready(st)
    ensures s < |st.scopes| && s in st.stack
  {
    st.stack[|st.stack| - 1]
  }

  /** The first variable among `ids` named `name`: a scope's variable-table lookup. */
  function Lookup(vars: seq<Variable>, ids: seq<nat>, name: string): (r: Option<nat>)
    requires IdsBelow(ids, |vars|)
    ensures r.Some? ==> r.value in ids && vars[r.value].name == name
    ensures r.None? <==> forall k | 0 <= k < |ids| :: vars[ids[k]].name != name
  {
    if ids == [] then None
    else if vars[ids[0]].name == name then Some(ids[0])
    else Lookup(vars, ids[1..], name)
  }

  /** Whether a global variable is resolved by the analyser itself: only bindings all of
      whose definitions are let/const declarators or class names are. */
  predicate StaticForGlobal(v: Variable) {
    |v.defs| > 0 && forall d <- v.defs :: d.ClassNameDef? || (d.VariableDef? && d.declKind != Var)
  }

  // ---------------------------------------------------------------------------------
  // Primitive steps

  /** The state right after entering a Program: the global scope alone, open. */
  function NewGlobal(): (st: State)
    ensures Ready(st) && st.stack == [0] && |st.scopes| == 1
  {
    State([Scope(GlobalScope, None, 0, [], [], [], [])], [], [], [0])
  }

  /** Defines `name` in scope `target`: a new variable at the end of its table, or one more
      definition of the variable already there. `def` is None for the implicit `arguments`. */
  function Define(st: State, target: nat, name: string, def: Option<DefKind>): (r: State)
    requires WF(st) && target < |st.scopes|
    ensures WF(r) && r.stack == st.stack && |r.scopes| == |st.scopes|
  {
    var defs := if def.Some? then [def.value] else [];
    match Lookup(st.variables, st.scopes[target].variables, name)
    case Some(v) =>
      st.(variables := st.variables[v := st.variables[v].(defs := st.variables[v].defs + defs)])
    case None =>
      var v := |st.variables|;
      st.(scopes := st.scopes[target := st.scopes[target].(variables := st.scopes[target].variables + [v])],
          variables := st.variables + [Variable(name, target, defs, [])])
  }

  /** Enters a new scope of `kind` inside the current one. A function scope is its own
      variable scope and starts with the implicit `arguments` variable. */
  function NestScope(st: State, kind: ScopeKind): (r: State)
    requires Ready(st) && kind != GlobalScope
    ensures Ready(r) && r.stack == st.stack + [|st.scopes|] && |r.scopes| == |st.scopes| + 1
  {
    var cur := Current(st);
    var n := |st.scopes|;
    var vs := if kind == FunctionScope then n else st.scopes[cur].variableScope;
    var entered := st.(scopes := st.scopes + [Scope(kind, Some(cur), vs, [], [], [], [])],
                      stack := st.stack + [n]);
    if kind == FunctionScope then Define(entered, n, "arguments", None) else entered
  }

  /** Appends a reference occurring in the current scope to that scope's references and to
      the references it will try to resolve when it closes. */
  function Referencing(st: State, name: string, flag: Flag, writeExpr: Option<Expr>, init: bool): (r: State)
    requires Ready(st)
    ensures Ready(r) && r.stack == st.stack && |r.scopes| == |st.scopes|
  {
    var cur := Current(st);
    var id := |st.references|;
    var isWrite := flag != Read;
    var ref := Reference(name, cur, None, flag,
                         if isWrite then writeExpr else None, if isWrite then Some(init) else None);
    st.(references := st.references + [ref],
        scopes := st.scopes[cur := st.scopes[cur].(references := st.scopes[cur].references + [id],
                                                   left := st.scopes[cur].left + [id])])
  }

  /** Binds reference `r` to variable `v`. */
  function ResolveTo(st: State, r: nat, v: nat): (res: State)
    requires WF(st) && r < |st.references| && v < |st.variables|
    ensures WF(res) && res.stack == st.stack && |res.scopes| == |st.scopes|
  {
    st.(references := st.references[r := st.references[r].(resolved := Some(v))],
        variables := st.variables[v := st.variables[v].(references := st.variables[v].references + [r])])
  }

  /** Hands reference `r` on from closing scope `s`: it goes through `s` and waits in the
      enclosing scope, if there is one. */
  function Delegate(st: State, s: nat, r: nat): (res: State)
    requires WF(st) && s < |st.scopes| && r < |st.references|
    ensures WF(res) && res.stack == st.stack && |res.scopes| == |st.scopes|
  {
    var sc := st.scopes[s];
    var scopes := if sc.upper.Some?
                  then st.scopes[sc.upper.value := st.scopes[sc.upper.value].(left := st.scopes[sc.upper.value].left + [r])]
                  else st.scopes;
    st.(scopes := scopes[s := scopes[s].(through := scopes[s].through + [r])])
  }

  /** What closing scope `s` does with one pending reference: resolve it if the name is in
      the table (in the global scope only for let/const/class bindings), else hand it on. */
  function CloseRef(st: State, s: nat, r: nat): (res: State)
    requires WF(st) && s < |st.scopes| && r < |st.references|
    ensures WF(res) && res.stack == st.stack && |res.scopes| == |st.scopes|
  {
    var sc := st.scopes[s];
    var found := Lookup(st.variables, sc.variables, st.references[r].name);
    if found.Some? && (sc.kind != GlobalScope || StaticForGlobal(st.variables[found.value]))
    then ResolveTo(st, r, found.value)
    else Delegate(st, s, r)
  }

  function CloseRefs(st: State, s: nat, rs: seq<nat>): (res: State)
    requires WF(st) && s < |st.scopes| && IdsBelow(rs, |st.references|)
    ensures WF(res) && res.stack == st.stack && |res.scopes| == |st.scopes|
    decreases |rs|
  {
    if rs == [] then st else CloseRefs(CloseRef(st, s, rs[0]), s, rs[1..])
  }

  /** Leaves the current scope: it is popped and every reference pending in it is settled
      in the order it was registered. */
  function Close(st: State): (r: State)
    requires Ready(st)
    ensures WF(r) && r.stack == st.stack[..|st.stack| - 1] && |r.scopes| == |st.scopes|
  {
    var s := Current(st);
    var popped := st.(stack := st.stack[..|st.stack| - 1]);
    var settled := CloseRefs(popped, s, st.scopes[s].left);
    settled.(scopes := settled.scopes[s := settled.scopes[s].(left := [])])
  }

  // ---------------------------------------------------------------------------------
  // Pattern callbacks

  /** One write reference to `name` per enclosing default value. */
  function WriteDefaults(st: State, name: string, defaults: seq<Expr>, init: bool): (r: State)
    requires Ready(st)
    ensures Ready(r) && r.stack == st.stack && |r.scopes| == |st.scopes|
    decreases |defaults|
  {
    if defaults == [] then st
    else WriteDefaults(Referencing(st, name, Write, Some(defaults[0]), init), name, defaults[1..], init)
  }

  /** The declarator callback: each leaf is defined in `target` and written, with `init`
      true, once per enclosing default and once by the declarator's initializer. */
  function DeclareLeaves(st: State, target: nat, kind: DeclKind, leaves: seq<Leaf>, init: Option<Expr>): (r: State)
    requires Ready(st) && target < |st.scopes|
    ensures Ready(r) && r.stack == st.stack && |r.scopes| == |st.scopes|
    decreases |leaves|
  {
    if leaves == [] then st
    else
      var l := leaves[0];
      var defined := Define(st, target, l.name, Some(VariableDef(kind)));
      var defaulted := WriteDefaults(defined, l.name, l.defaults, true);
      var written := if init.Some? then Referencing(defaulted, l.name, Write, init, true) else defaulted;
      DeclareLeaves(written, target, kind, leaves[1..], init)
  }

  /** The parameter callback: each leaf is a parameter of the current (function) scope,
      written with `init` true once per enclosing default. */
  function BindParams(st: State, leaves: seq<Leaf>): (r: State)
    requires Ready(st)
    ensures Ready(r) && r.stack == st.stack && |r.scopes| == |st.scopes|
    decreases |leaves|
  {
    if leaves == [] then st
    else
      var defined := Define(st, Current(st), leaves[0].name, Some(ParameterDef));
      BindParams(WriteDefaults(defined, leaves[0].name, leaves[0].defaults, true), leaves[1..])
  }

  /** The assignment callback: each leaf is written with `init` false, once per enclosing
      default and once by `right`. Nothing is defined. */
  function AssignLeaves(st: State, leaves: seq<Leaf>, right: Expr): (r: State)
    requires Ready(st)
    ensures Ready(r) && r.stack == st.stack && |r.scopes| == |st.scopes|
    decreases |leaves|
  {
    if leaves == [] then st
    else
      var defaulted := WriteDefaults(st, leaves[0].name, leaves[0].defaults, false);
      AssignLeaves(Referencing(defaulted, leaves[0].name, Write, Some(right), false), leaves[1..], right)
  }

  /** The second pass over a for-in declaration's pattern: each leaf is written by the
      loop's right-hand side, with `init` true. */
  function WriteLeaves(st: State, leaves: seq<Leaf>, right: Expr): (r: State)
    requires Ready(st)
    ensures Ready(r) && r.stack == st.stack && |r.scopes| == |st.scopes|
    decreases |leaves|
  {
    if leaves == [] then st
    else WriteLeaves(Referencing(st, leaves[0].name, Write, Some(right), true), leaves[1..], right)
  }

  // ---------------------------------------------------------------------------------
  // Traversal

  function VisitStmts(st: State, ss: seq<Stmt>): (r: State)
    requires Ready(st)
    ensures Ready(r) && r.stack == st.stack && |r.scopes| >= |st.scopes|
    decreases ss
  {
    if ss == [] then st else VisitStmts(VisitStmt(st, ss[0]), ss[1..])
  }

  function VisitStmt(st: State, s: Stmt): (r: State)
    requires Ready(st)
    ensures Ready(r) && r.stack == st.stack && |r.scopes| >= |st.scopes|
    decreases s, 1
  {
    match s
    case VarDecl(kind, ds) => VarDeclaration(st, kind, ds)
    case FunctionDecl(name, f) => FunctionDeclaration(st, name, f)
    case ClassDecl(name) => ClassDeclaration(st, name)
    case ExprStmt(e) => VisitExpr(st, e)
    case ForIn(left, right, body) =>
      (match left
      case ForDecl(kind, id) => ForInDeclared(st, kind, id, right, body)
      case ForTarget(t) => ForInTarget(st, t, right, body))
    case Empty => st
  }

  function VarDeclaration(st: State, kind: DeclKind, ds: seq<Declarator>): (r: State)
    requires Ready(st)
    ensures Ready(r) && r.stack == st.stack && |r.scopes| >= |st.scopes|
    decreases VarDecl(kind, ds), 0
  {
    var target := if kind == Var then st.scopes[Current(st)].variableScope else Current(st);
    VisitDeclarators(st, target, kind, ds)
  }

  function FunctionDeclaration(st: State, name: string, f: Func): (r: State)
    requires Ready(st)
    ensures Ready(r) && r.stack == st.stack && |r.scopes| >= |st.scopes|
    decreases FunctionDecl(name, f), 0
  {
    VisitFunction(Define(st, Current(st), name, Some(FunctionNameDef)), f)
  }

  function ForInDeclared(st: State, kind: DeclKind, id: Pattern, right: Expr, body: Stmt): (r: State)
    requires Ready(st)
    ensures Ready(r) && r.stack == st.stack && |r.scopes| >= |st.scopes|
    decreases ForIn(ForDecl(kind, id), right, body), 0
  {
    var visited := VisitStmt(VisitExpr(ForHead(st, kind, id, right), right), body);
    if kind != Var then Close(visited) else visited
  }

  function ForInTarget(st: State, t: Target, right: Expr, body: Stmt): (r: State)
    requires Ready(st)
    ensures Ready(r) && r.stack == st.stack && |r.scopes| >= |st.scopes|
    decreases ForIn(ForTarget(t), right, body), 0
  {
    VisitStmt(VisitExpr(AssignTo(st, Plain, t, right), right), body)
  }

  /** A class declaration binds its name in the current scope and again in a class scope
      of its own, which is closed at once. */
  function ClassDeclaration(st: State, name: string): (r: State)
    requires Ready(st)
    ensures Ready(r) && r.stack == st.stack && |r.scopes| >= |st.scopes|
  {
    ClassScopeOf(Define(st, Current(st), name, Some(ClassNameDef)), name)
  }

  /** The class scope of a class declaration: entered, holding the class name, closed. */
  function ClassScopeOf(st: State, name: string): (r: State)
    requires Ready(st)
    ensures Ready(r) && r.stack == st.stack && |r.scopes| > |st.scopes|
  {
    var entered := NestScope(st, ClassScope);
    Close(Define(entered, Current(entered), name, Some(ClassNameDef)))
  }

  function VisitDeclarators(st: State, target: nat, kind: DeclKind, ds: seq<Declarator>): (r: State)
    requires Ready(st) && target < |st.scopes|
    ensures Ready(r) && r.stack == st.stack && |r.scopes| >= |st.scopes|
    decreases ds
  {
    if ds == [] then st else VisitDeclarators(VisitDeclarator(st, target, kind, ds[0]), target, kind, ds[1..])
  }

  /** One declarator: its leaves are declared, then its default values and its initializer
      are visited. */
  function VisitDeclarator(st: State, target: nat, kind: DeclKind, d: Declarator): (r: State)
    requires Ready(st) && target < |st.scopes|
    ensures Ready(r) && r.stack == st.stack && |r.scopes| >= |st.scopes|
    decreases d
  {
    var declared := VisitDefaults(DeclareLeaves(st, target, kind, Leaves(d.id, []), d.init), d.id);
    match d.init
    case Some(e) => VisitExpr(declared, e)
    case None => declared
  }

  /** Opens the function's scope, binds its parameters (each parameter's default values are
      visited right after its leaves), visits its body and closes the scope. */
  function VisitFunction(st: State, f: Func): (r: State)
    requires Ready(st)
    ensures Ready(r) && r.stack == st.stack && |r.scopes| > |st.scopes|
    decreases f
  {
    var entered := NestScope(st, FunctionScope);
    Close(VisitStmts(VisitParams(entered, f.params), f.body))
  }

  function VisitParams(st: State, ps: seq<Pattern>): (r: State)
    requires Ready(st)
    ensures Ready(r) && r.stack == st.stack && |r.scopes| >= |st.scopes|
    decreases ps
  {
    if ps == [] then st
    else VisitParams(VisitDefaults(BindParams(st, Leaves(ps[0], [])), ps[0]), ps[1..])
  }

  /** Visits the default values of a pattern, in the order the pattern visitor collected
      them (those nested in a pattern before the default of the pattern itself). */
  function VisitDefaults(st: State, p: Pattern): (r: State)
    requires Ready(st)
    ensures Ready(r) && r.stack == st.stack && |r.scopes| >= |st.scopes|
    decreases p, 0
  {
    match p
    case Id(_) => st
    case ArrayPat(es) => VisitDefaultsOfSeq(st, es)
    case ObjectPat(ps) => VisitDefaultsOfProps(st, ps)
    case WithDefault(l, d) => VisitExpr(VisitDefaults(st, l), d)
  }

  function VisitDefaultsOfSeq(st: State, ps: seq<Pattern>): (r: State)
    requires Ready(st)
    ensures Ready(r) && r.stack == st.stack && |r.scopes| >= |st.scopes|
    decreases ps
  {
    if ps == [] then st else VisitDefaultsOfSeq(VisitDefaults(st, ps[0]), ps[1..])
  }

  function VisitDefaultsOfProps(st: State, ps: seq<PatProperty>): (r: State)
    requires Ready(st)
    ensures Ready(r) && r.stack == st.stack && |r.scopes| >= |st.scopes|
    decreases ps
  {
    if ps == [] then st else VisitDefaultsOfProps(VisitDefaults(st, ps[0].value), ps[1..])
  }

  /** The left-hand side of a plain or compound assignment (and of a for-in head without a
      declaration, which behaves as a plain assignment). */
  function AssignTo(st: State, op: AssignOp, t: Target, right: Expr): (r: State)
    requires Ready(st)
    ensures Ready(r) && r.stack == st.stack && |r.scopes| >= |st.scopes|
    decreases t
  {
    match t
    case MemberTarget(o, _) => VisitExpr(st, o)
    case PatternTarget(p) =>
      if op == Plain then VisitDefaults(AssignLeaves(st, Leaves(p, []), right), p)
      else if p.Id? then Referencing(st, p.name, ReadWrite, Some(right), false)
      else st
  }

  function VisitExprs(st: State, es: seq<Expr>): (r: State)
    requires Ready(st)
    ensures Ready(r) && r.stack == st.stack && |r.scopes| >= |st.scopes|
    decreases es
  {
    if es == [] then st else VisitExprs(VisitExpr(st, es[0]), es[1..])
  }

  function VisitProps(st: State, ps: seq<Property>): (r: State)
    requires Ready(st)
    ensures Ready(r) && r.stack == st.stack && |r.scopes| >= |st.scopes|
    decreases ps
  {
    if ps == [] then st else VisitProps(VisitExpr(st, ps[0].value), ps[1..])
  }

  function VisitExpr(st: State, e: Expr): (r: State)
    requires Ready(st)
    ensures Ready(r) && r.stack == st.stack && |r.scopes| >= |st.scopes|
    decreases e
  {
    match e
    case Ident(x) => Referencing(st, x, Read, None, false)
    case Literal => st
    case ArrayExpr(es) => VisitExprs(st, es)
    case ObjectExpr(ps) => VisitProps(st, ps)
    case Member(o, _) => VisitExpr(st, o)
    case Call(c, args) => VisitExprs(VisitExpr(st, c), args)
    case New(c, args) => VisitExprs(VisitExpr(st, c), args)
    case Assign(op, left, right) => VisitExpr(AssignTo(st, op, left, right), right)
    case Function(f) => VisitFunction(st, f)
  }

  /** The whole analysis: open the global scope, visit the program, close the global scope. */
  function Analyze(p: Program): (g: State)
    ensures WF(g) && g.stack == [] && |g.scopes| >= 1
  {
    Close(VisitStmts(NewGlobal(), p.body))
  }

  /** The state after a declaring for-in head: the loop scope entered for let/const, the
      leaves declared, their defaults visited and each leaf written by the right-hand side. */
  function ForHead(st: State, kind: DeclKind, id: Pattern, right: Expr): (r: State)
    requires Ready(st)
    ensures Ready(r) && r.stack == (if kind != Var then st.stack + [|st.scopes|] else st.stack)
    ensures |r.scopes| >= |st.scopes|
    decreases id, 1
  {
    var entered := if kind != Var then NestScope(st, ForScope) else st;
    var target := if kind == Var then entered.scopes[Current(entered)].variableScope else Current(entered);
    WriteLeaves(VisitDefaults(DeclareLeaves(entered, target, kind, Leaves(id, []), None), id), Leaves(id, []), right)
  }
}
