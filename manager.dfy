/** The analyser as eslint-scope runs it: one ScopeManager object whose lists of scopes,
    variables and references grow in place while a single traversal walks the tree, each
    scope resolving its pending references in a loop when it closes.

    Every method is proved to leave the object in the state the corresponding function of
    module Engine computes from the state before the call, so what is proved about Engine
    holds for the object after `Analyze`. */
module Manager {
  import opened Ast
  import opened Engine
  import opened Unfolding
  import opened Closing
  import opened Bookkeeping
  import opened Traversal
  import opened ShapeTraversal
  import opened Occurrences

  class ScopeManager {
    var scopes: seq<Scope>
    var variables: seq<Variable>
    var references: seq<Reference>
    /** The open scopes, outermost first; the last one is the current scope. */
    var stack: seq<nat>

    function Snapshot(): State
      reads this
    {
      State(scopes, variables, references, stack)
    }

    /** A manager whose global scope is open and empty. */
    constructor ()
      ensures Snapshot() == NewGlobal()
    {
      scopes := [Scope(GlobalScope, None, 0, [], [], [], [])];
      variables := [];
      references := [];
      stack := [0];
    }

    /** The variable named `name` in a scope table `ids`: the scope's `set.get(name)`. */
    method FindVariable(ids: seq<nat>, name: string) returns (found: Option<nat>)
      requires IdsBelow(ids, |variables|)
      ensures found == Lookup(variables, ids, name)
    {
      var rest := ids;
      while rest != []
        invariant IdsBelow(rest, |variables|)
        invariant Lookup(variables, rest, name) == Lookup(variables, ids, name)
        decreases |rest|
      {
        if variables[rest[0]].name == name {
          return Some(rest[0]);
        }
        rest := rest[1..];
      }
      return None;
    }

    method Define(target: nat, name: string, def: Option<DefKind>)
      requires WF(Snapshot()) && target < |scopes|
      modifies this
      ensures Snapshot() == Engine.Define(old(Snapshot()), target, name, def)
    {
      var defs := if def.Some? then [def.value] else [];
      var found := FindVariable(scopes[target].variables, name);
      match found
      case Some(v) =>
        variables := variables[v := variables[v].(defs := variables[v].defs + defs)];
      case None =>
        var v := |variables|;
        scopes := scopes[target := scopes[target].(variables := scopes[target].variables + [v])];
        variables := variables + [Variable(name, target, defs, [])];
    }

    method NestScope(kind: ScopeKind)
      requires Ready(Snapshot()) && kind != GlobalScope
      modifies this
      ensures Snapshot() == Engine.NestScope(old(Snapshot()), kind)
    {
      var cur := stack[|stack| - 1];
      var n := |scopes|;
      var vs := if kind == FunctionScope then n else scopes[cur].variableScope;
      scopes := scopes + [Scope(kind, Some(cur), vs, [], [], [], [])];
      stack := stack + [n];
      if kind == FunctionScope {
        Define(n, "arguments", None);
      }
    }

    method Referencing(name: string, flag: Flag, writeExpr: Option<Expr>, init: bool)
      requires Ready(Snapshot())
      modifies this
      ensures Snapshot() == Engine.Referencing(old(Snapshot()), name, flag, writeExpr, init)
    {
      var cur := stack[|stack| - 1];
      var id := |references|;
      var isWrite := flag != Read;
      var ref := Reference(name, cur, None, flag, if isWrite then writeExpr else None,
                           if isWrite then Some(init) else None);
      references := references + [ref];
      scopes := scopes[cur := scopes[cur].(references := scopes[cur].references + [id],
                                           left := scopes[cur].left + [id])];
    }

    method CloseRef(s: nat, r: nat)
      requires WF(Snapshot()) && s < |scopes| && r < |references|
      modifies this
      ensures Snapshot() == Engine.CloseRef(old(Snapshot()), s, r)
      ensures |references| == old(|references|)
    {
      var sc := scopes[s];
      var found := FindVariable(sc.variables, references[r].name);
      if found.Some? && (sc.kind != GlobalScope || StaticForGlobal(variables[found.value])) {
        var v := found.value;
        references := references[r := references[r].(resolved := Some(v))];
        variables := variables[v := variables[v].(references := variables[v].references + [r])];
      } else {
        if sc.upper.Some? {
          var u := sc.upper.value;
          scopes := scopes[u := scopes[u].(left := scopes[u].left + [r])];
        }
        scopes := scopes[s := scopes[s].(through := scopes[s].through + [r])];
      }
    }

    /** Settles the references `rs` in scope `s`, one after another. */
    method CloseRefs(s: nat, rs: seq<nat>)
      requires WF(Snapshot()) && s < |scopes| && IdsBelow(rs, |references|)
      modifies this
      ensures Snapshot() == Engine.CloseRefs(old(Snapshot()), s, rs)
    {
      ghost var settled := Engine.CloseRefs(Snapshot(), s, rs);
      var i := 0;
      while i < |rs|
        invariant i <= |rs| && s < |scopes| && IdsBelow(rs, |references|)
        invariant WF(Snapshot())
        invariant Engine.CloseRefs(Snapshot(), s, rs[i..]) == settled
      {
        CloseRefsCons(Snapshot(), s, rs[i..]);
        assert rs[i..][1..] == rs[i + 1..];
        CloseRef(s, rs[i]);
        i := i + 1;
      }
    }

    /** Leaves the current scope, settling its pending references in order. */
    method Close()
      requires Ready(Snapshot())
      modifies this
      ensures Snapshot() == Engine.Close(old(Snapshot()))
    {
      CloseUnfold(Snapshot());
      var s := stack[|stack| - 1];
      var pending := scopes[s].left;
      stack := stack[..|stack| - 1];
      CloseRefs(s, pending);
      scopes := scopes[s := scopes[s].(left := [])];
    }

    // -------------------------------------------------------------------------------
    // Pattern callbacks

    method WriteDefaults(name: string, defaults: seq<Expr>, init: bool)
      requires Ready(Snapshot())
      modifies this
      ensures Snapshot() == Engine.WriteDefaults(old(Snapshot()), name, defaults, init)
    {
      ghost var goal := Engine.WriteDefaults(Snapshot(), name, defaults, init);
      var i := 0;
      while i < |defaults|
        invariant i <= |defaults| && Ready(Snapshot())
        invariant Engine.WriteDefaults(Snapshot(), name, defaults[i..], init) == goal
      {
        WriteDefaultsCons(Snapshot(), name, defaults[i..], init);
        assert defaults[i..][1..] == defaults[i + 1..];
        Referencing(name, Write, Some(defaults[i]), init);
        i := i + 1;
      }
    }

    method DeclareLeaves(target: nat, kind: DeclKind, leaves: seq<Leaf>, init: Option<Expr>)
      requires Ready(Snapshot()) && target < |scopes|
      modifies this
      ensures Snapshot() == Engine.DeclareLeaves(old(Snapshot()), target, kind, leaves, init)
    {
      ghost var goal := Engine.DeclareLeaves(Snapshot(), target, kind, leaves, init);
      var i := 0;
      while i < |leaves|
        invariant i <= |leaves| && Ready(Snapshot()) && target < |scopes|
        invariant Engine.DeclareLeaves(Snapshot(), target, kind, leaves[i..], init) == goal
      {
        DeclareLeavesCons(Snapshot(), target, kind, leaves[i..], init);
        assert leaves[i..][1..] == leaves[i + 1..];
        Define(target, leaves[i].name, Some(VariableDef(kind)));
        WriteDefaults(leaves[i].name, leaves[i].defaults, true);
        if init.Some? {
          Referencing(leaves[i].name, Write, init, true);
        }
        i := i + 1;
      }
    }

    method BindParams(leaves: seq<Leaf>)
      requires Ready(Snapshot())
      modifies this
      ensures Snapshot() == Engine.BindParams(old(Snapshot()), leaves)
    {
      ghost var goal := Engine.BindParams(Snapshot(), leaves);
      var i := 0;
      while i < |leaves|
        invariant i <= |leaves| && Ready(Snapshot())
        invariant Engine.BindParams(Snapshot(), leaves[i..]) == goal
      {
        BindParamsCons(Snapshot(), leaves[i..]);
        assert leaves[i..][1..] == leaves[i + 1..];
        Define(stack[|stack| - 1], leaves[i].name, Some(ParameterDef));
        WriteDefaults(leaves[i].name, leaves[i].defaults, true);
        i := i + 1;
      }
    }

    method AssignLeaves(leaves: seq<Leaf>, right: Expr)
      requires Ready(Snapshot())
      modifies this
      ensures Snapshot() == Engine.AssignLeaves(old(Snapshot()), leaves, right)
    {
      ghost var goal := Engine.AssignLeaves(Snapshot(), leaves, right);
      var i := 0;
      while i < |leaves|
        invariant i <= |leaves| && Ready(Snapshot())
        invariant Engine.AssignLeaves(Snapshot(), leaves[i..], right) == goal
      {
        AssignLeavesCons(Snapshot(), leaves[i..], right);
        assert leaves[i..][1..] == leaves[i + 1..];
        WriteDefaults(leaves[i].name, leaves[i].defaults, false);
        Referencing(leaves[i].name, Write, Some(right), false);
        i := i + 1;
      }
    }

    method WriteLeaves(leaves: seq<Leaf>, right: Expr)
      requires Ready(Snapshot())
      modifies this
      ensures Snapshot() == Engine.WriteLeaves(old(Snapshot()), leaves, right)
    {
      ghost var goal := Engine.WriteLeaves(Snapshot(), leaves, right);
      var i := 0;
      while i < |leaves|
        invariant i <= |leaves| && Ready(Snapshot())
        invariant Engine.WriteLeaves(Snapshot(), leaves[i..], right) == goal
      {
        WriteLeavesCons(Snapshot(), leaves[i..], right);
        assert leaves[i..][1..] == leaves[i + 1..];
        Referencing(leaves[i].name, Write, Some(right), true);
        i := i + 1;
      }
    }

    // -------------------------------------------------------------------------------
    // Traversal

    method VisitStmts(ss: seq<Stmt>)
      requires Ready(Snapshot())
      modifies this
      ensures Snapshot() == Engine.VisitStmts(old(Snapshot()), ss)
      decreases ss
    {
      ghost var goal := Engine.VisitStmts(Snapshot(), ss);
      var i := 0;
      while i < |ss|
        invariant i <= |ss| && Ready(Snapshot())
        invariant Engine.VisitStmts(Snapshot(), ss[i..]) == goal
      {
        VisitStmtsCons(Snapshot(), ss[i..]);
        assert ss[i..][1..] == ss[i + 1..];
        VisitStmt(ss[i]);
        i := i + 1;
      }
    }

    method VisitStmt(s: Stmt)
      requires Ready(Snapshot())
      modifies this
      ensures Snapshot() == Engine.VisitStmt(old(Snapshot()), s)
      decreases s, 1
    {
      ghost var st := Snapshot();
      match s
      case VarDecl(kind, ds) =>
        VarDeclDispatch(st, s);
        VarDeclaration(kind, ds);
      case FunctionDecl(name, f) =>
        FunctionDispatch(st, s);
        FunctionDeclaration(name, f);
      case ClassDecl(name) =>
        ClassDispatch(st, s);
        ClassDeclaration(name);
      case ExprStmt(e) => VisitExpr(e);
      case ForIn(left, right, body) =>
        match left {
          case ForDecl(kind, id) =>
            ForDeclDispatch(st, s);
            ForInDeclared(kind, id, right, body);
          case ForTarget(t) =>
            ForTargetDispatch(st, s);
            ForInTarget(t, right, body);
        }
      case Empty =>
    }

    /** A declaration's leaves go to the variable scope for `var`, to the current scope
        for let and const. */
    method VarDeclaration(kind: DeclKind, ds: seq<Declarator>)
      requires Ready(Snapshot())
      modifies this
      ensures Snapshot() == Engine.VarDeclaration(old(Snapshot()), kind, ds)
      decreases VarDecl(kind, ds), 0
    {
      ghost var st := Snapshot();
      var cur := stack[|stack| - 1];
      var target := if kind == Var then scopes[cur].variableScope else cur;
      assert target == if kind == Var then st.scopes[Current(st)].variableScope else Current(st);
      VisitDeclarators(target, kind, ds);
    }

    /** A function declaration binds its name in the current scope, then visits the
        function. */
    method FunctionDeclaration(name: string, f: Func)
      requires Ready(Snapshot())
      modifies this
      ensures Snapshot() == Engine.FunctionDeclaration(old(Snapshot()), name, f)
      decreases FunctionDecl(name, f), 0
    {
      Define(stack[|stack| - 1], name, Some(FunctionNameDef));
      VisitFunction(f);
    }

    /** A for-in statement whose head is an assignment target. */
    method ForInTarget(t: Target, right: Expr, body: Stmt)
      requires Ready(Snapshot())
      modifies this
      ensures Snapshot() == Engine.ForInTarget(old(Snapshot()), t, right, body)
      decreases ForIn(ForTarget(t), right, body), 0
    {
      AssignTo(Plain, t, right);
      VisitExpr(right);
      VisitStmt(body);
    }

    /** A class declaration binds its name in the current scope and again in a class scope
        of its own. */
    method ClassDeclaration(name: string)
      requires Ready(Snapshot())
      modifies this
      ensures Snapshot() == Engine.ClassDeclaration(old(Snapshot()), name)
    {
      Define(stack[|stack| - 1], name, Some(ClassNameDef));
      ClassScopeOf(name);
    }

    /** The class scope of a class declaration: entered, binding the class name, closed. */
    method ClassScopeOf(name: string)
      requires Ready(Snapshot())
      modifies this
      ensures Snapshot() == Engine.ClassScopeOf(old(Snapshot()), name)
    {
      NestScope(ClassScope);
      Define(stack[|stack| - 1], name, Some(ClassNameDef));
      Close();
    }

    /** A for-in statement whose head declares its variables; a lexical declaration gets a
        scope of its own around the loop. */
    method ForInDeclared(kind: DeclKind, id: Pattern, right: Expr, body: Stmt)
      requires Ready(Snapshot())
      modifies this
      ensures Snapshot() == Engine.ForInDeclared(old(Snapshot()), kind, id, right, body)
      decreases ForIn(ForDecl(kind, id), right, body), 0
    {
      ghost var st := Snapshot();
      ForInDeclaredUnfold(st, kind, id, right, body);
      ForHeadDeclared(kind, id, right);
      VisitExpr(right);
      VisitStmt(body);
      if kind != Var {
        Close();
      }
    }

    /** The head of a declaring for-in: the loop scope entered for let/const, the leaves
        declared, their defaults visited and each leaf written by the right-hand side. */
    method ForHeadDeclared(kind: DeclKind, id: Pattern, right: Expr)
      requires Ready(Snapshot())
      modifies this
      ensures Snapshot() == ForHead(old(Snapshot()), kind, id, right)
      decreases id, 1
    {
      ghost var st := Snapshot();
      ghost var entered := if kind != Var then Engine.NestScope(st, ForScope) else st;
      if kind != Var {
        NestScope(ForScope);
      }
      assert Snapshot() == entered;
      var cur := stack[|stack| - 1];
      var target := if kind == Var then scopes[cur].variableScope else cur;
      assert target == if kind == Var then entered.scopes[Current(entered)].variableScope else Current(entered);
      DeclareLeaves(target, kind, Leaves(id, []), None);
      VisitDefaults(id);
      WriteLeaves(Leaves(id, []), right);
    }

    method VisitDeclarators(target: nat, kind: DeclKind, ds: seq<Declarator>)
      requires Ready(Snapshot()) && target < |scopes|
      modifies this
      ensures Snapshot() == Engine.VisitDeclarators(old(Snapshot()), target, kind, ds)
      decreases ds
    {
      ghost var goal := Engine.VisitDeclarators(Snapshot(), target, kind, ds);
      var i := 0;
      while i < |ds|
        invariant i <= |ds| && Ready(Snapshot()) && target < |scopes|
        invariant Engine.VisitDeclarators(Snapshot(), target, kind, ds[i..]) == goal
      {
        VisitDeclaratorsCons(Snapshot(), target, kind, ds[i..]);
        assert ds[i..][1..] == ds[i + 1..];
        VisitDeclarator(target, kind, ds[i]);
        i := i + 1;
      }
    }

    method VisitDeclarator(target: nat, kind: DeclKind, d: Declarator)
      requires Ready(Snapshot()) && target < |scopes|
      modifies this
      ensures Snapshot() == Engine.VisitDeclarator(old(Snapshot()), target, kind, d)
      ensures target < |scopes|
      decreases d
    {
      DeclareLeaves(target, kind, Leaves(d.id, []), d.init);
      VisitDefaults(d.id);
      match d.init {
        case Some(e) => VisitExpr(e);
        case None =>
      }
    }

    method VisitFunction(f: Func)
      requires Ready(Snapshot())
      modifies this
      ensures Snapshot() == Engine.VisitFunction(old(Snapshot()), f)
      decreases f
    {
      NestScope(FunctionScope);
      VisitParams(f.params);
      VisitStmts(f.body);
      Close();
    }

    method VisitParams(ps: seq<Pattern>)
      requires Ready(Snapshot())
      modifies this
      ensures Snapshot() == Engine.VisitParams(old(Snapshot()), ps)
      decreases ps
    {
      ghost var goal := Engine.VisitParams(Snapshot(), ps);
      var i := 0;
      while i < |ps|
        invariant i <= |ps| && Ready(Snapshot())
        invariant Engine.VisitParams(Snapshot(), ps[i..]) == goal
      {
        VisitParamsCons(Snapshot(), ps[i..]);
        assert ps[i..][1..] == ps[i + 1..];
        VisitParam(ps[i]);
        i := i + 1;
      }
    }

    /** One parameter: its leaves are bound, then its default values are visited. */
    method VisitParam(p: Pattern)
      requires Ready(Snapshot())
      modifies this
      ensures Snapshot() == Engine.VisitDefaults(Engine.BindParams(old(Snapshot()), Leaves(p, [])), p)
      decreases p, 1
    {
      BindParams(Leaves(p, []));
      VisitDefaults(p);
    }

    method VisitDefaults(p: Pattern)
      requires Ready(Snapshot())
      modifies this
      ensures Snapshot() == Engine.VisitDefaults(old(Snapshot()), p)
      decreases p, 0
    {
      match p
      case Id(_) =>
      case ArrayPat(es) => VisitDefaultsOfSeq(es);
      case ObjectPat(ps) => VisitDefaultsOfProps(ps);
      case WithDefault(l, d) =>
        VisitDefaults(l);
        VisitExpr(d);
    }

    method VisitDefaultsOfSeq(ps: seq<Pattern>)
      requires Ready(Snapshot())
      modifies this
      ensures Snapshot() == Engine.VisitDefaultsOfSeq(old(Snapshot()), ps)
      decreases ps
    {
      ghost var goal := Engine.VisitDefaultsOfSeq(Snapshot(), ps);
      var i := 0;
      while i < |ps|
        invariant i <= |ps| && Ready(Snapshot())
        invariant Engine.VisitDefaultsOfSeq(Snapshot(), ps[i..]) == goal
      {
        VisitDefaultsOfSeqCons(Snapshot(), ps[i..]);
        assert ps[i..][1..] == ps[i + 1..];
        VisitDefaults(ps[i]);
        i := i + 1;
      }
    }

    method VisitDefaultsOfProps(ps: seq<PatProperty>)
      requires Ready(Snapshot())
      modifies this
      ensures Snapshot() == Engine.VisitDefaultsOfProps(old(Snapshot()), ps)
      decreases ps
    {
      ghost var goal := Engine.VisitDefaultsOfProps(Snapshot(), ps);
      var i := 0;
      while i < |ps|
        invariant i <= |ps| && Ready(Snapshot())
        invariant Engine.VisitDefaultsOfProps(Snapshot(), ps[i..]) == goal
      {
        VisitDefaultsOfPropsCons(Snapshot(), ps[i..]);
        assert ps[i..][1..] == ps[i + 1..];
        VisitDefaults(ps[i].value);
        i := i + 1;
      }
    }

    method AssignTo(op: AssignOp, t: Target, right: Expr)
      requires Ready(Snapshot())
      modifies this
      ensures Snapshot() == Engine.AssignTo(old(Snapshot()), op, t, right)
      decreases t
    {
      match t
      case MemberTarget(o, _) => VisitExpr(o);
      case PatternTarget(p) =>
        if op == Plain {
          AssignLeaves(Leaves(p, []), right);
          VisitDefaults(p);
        } else if p.Id? {
          Referencing(p.name, ReadWrite, Some(right), false);
        }
    }

    method VisitExprs(es: seq<Expr>)
      requires Ready(Snapshot())
      modifies this
      ensures Snapshot() == Engine.VisitExprs(old(Snapshot()), es)
      decreases es
    {
      ghost var goal := Engine.VisitExprs(Snapshot(), es);
      var i := 0;
      while i < |es|
        invariant i <= |es| && Ready(Snapshot())
        invariant Engine.VisitExprs(Snapshot(), es[i..]) == goal
      {
        VisitExprsCons(Snapshot(), es[i..]);
        assert es[i..][1..] == es[i + 1..];
        VisitExpr(es[i]);
        i := i + 1;
      }
    }

    method VisitProps(ps: seq<Property>)
      requires Ready(Snapshot())
      modifies this
      ensures Snapshot() == Engine.VisitProps(old(Snapshot()), ps)
      decreases ps
    {
      ghost var goal := Engine.VisitProps(Snapshot(), ps);
      var i := 0;
      while i < |ps|
        invariant i <= |ps| && Ready(Snapshot())
        invariant Engine.VisitProps(Snapshot(), ps[i..]) == goal
      {
        VisitPropsCons(Snapshot(), ps[i..]);
        assert ps[i..][1..] == ps[i + 1..];
        VisitExpr(ps[i].value);
        i := i + 1;
      }
    }

    method VisitExpr(e: Expr)
      requires Ready(Snapshot())
      modifies this
      ensures Snapshot() == Engine.VisitExpr(old(Snapshot()), e)
      decreases e, 1
    {
      match e
      case Ident(x) => Referencing(x, Read, None, false);
      case Literal =>
      case ArrayExpr(es) => VisitExprs(es);
      case ObjectExpr(ps) => VisitProps(ps);
      case Member(o, _) => VisitExpr(o);
      case Call(_, _) => VisitCalleeArgs(e);
      case New(_, _) => VisitCalleeArgs(e);
      case Assign(_, _, _) => VisitAssign(e);
      case Function(f) => VisitFunction(f);
    }

    /** A call or `new`: the callee, then the arguments. */
    method VisitCalleeArgs(e: Expr)
      requires Ready(Snapshot()) && (e.Call? || e.New?)
      modifies this
      ensures Snapshot() == Engine.VisitExpr(old(Snapshot()), e)
      decreases e, 0
    {
      VisitExpr(e.callee);
      VisitExprs(e.arguments);
    }

    /** An assignment: the target's references, then the right-hand side. */
    method VisitAssign(e: Expr)
      requires Ready(Snapshot()) && e.Assign?
      modifies this
      ensures Snapshot() == Engine.VisitExpr(old(Snapshot()), e)
      decreases e, 0
    {
      AssignTo(e.op, e.left, e.right);
      VisitExpr(e.right);
    }
  }

  /** `analyze(ast)`: a fresh manager opens the global scope, visits the program and closes
      the global scope. Every reference ends bound to its lexical answer or in the global
      `through`, the bookkeeping lists are exact, and the references are the program's
      identifier occurrences in traversal order. */
  method Analyze(p: Program) returns (m: ScopeManager)
    ensures m.Snapshot() == Engine.Analyze(p)
    ensures Final(m.Snapshot()) && Shape(m.Snapshot())
    ensures UsesOf(m.references) == StmtsUses(p.body)
  {
    m := new ScopeManager();
    m.VisitStmts(p.body);
    m.Close();
    AnalyzeResolves(p);
    AnalyzeShape(p);
    AnalyzeUses(p);
  }
}
