/** The primitive steps of the analyser preserve the resolution invariant. */
module Steps {
  import opened Ast
  import opened Engine
  import opened Resolution

  lemma DefineFrame(st: State, target: nat, name: string, def: Option<DefKind>)
    requires WF(st) && Owned(st) && target < |st.scopes| && target in st.stack
    ensures ClosedFrame(st, Define(st, target, name, def))
  {
    var st2 := Define(st, target, name, def);
    var found := Lookup(st.variables, st.scopes[target].variables, name);
    if found.Some? {
      var k :| 0 <= k < |st.scopes[target].variables| && st.scopes[target].variables[k] == found.value;
      assert st.variables[found.value].scope == target;
    }
  }

  /** Defining a name changes one scope's variable table and the variables, nothing else. */
  lemma DefineKeeps(st: State, target: nat, name: string, def: Option<DefKind>)
    requires WF(st) && target < |st.scopes|
    ensures var st2 := Define(st, target, name, def);
      st2.references == st.references && st2.stack == st.stack && |st2.scopes| == |st.scopes| &&
      forall s | 0 <= s < |st.scopes| :: st2.scopes[s].(variables := st.scopes[s].variables) == st.scopes[s]
  {
  }

  /** Scopes that keep their kinds, links and pending lists keep the tree shape. */
  lemma TreeKept(st: State, st2: State)
    requires WF(st) && WF(st2) && Rooted(st) && OpenVarScopes(st)
    requires st2.stack == st.stack && |st2.scopes| == |st.scopes|
    requires forall s | 0 <= s < |st.scopes| :: st2.scopes[s].(variables := st.scopes[s].variables) == st.scopes[s]
    ensures Rooted(st2) && OpenVarScopes(st2) && st2.scopes[0].through == st.scopes[0].through &&
      forall s | 0 <= s < |st.scopes| :: st2.scopes[s].left == st.scopes[s].left
  {
    assert forall s | 0 <= s < |st.scopes| ::
      st2.scopes[s].kind == st.scopes[s].kind && st2.scopes[s].upper == st.scopes[s].upper &&
      st2.scopes[s].variableScope == st.scopes[s].variableScope;
  }

  lemma DefineTree(st: State, target: nat, name: string, def: Option<DefKind>)
    requires WF(st) && Rooted(st) && OpenVarScopes(st) && st.scopes[0].through == []
    requires target < |st.scopes| && target in st.stack
    ensures var st2 := Define(st, target, name, def);
      Rooted(st2) && OpenVarScopes(st2) && st2.scopes[0].through == [] &&
      st2.references == st.references && st2.stack == st.stack &&
      forall s | 0 <= s < |st.scopes| :: st2.scopes[s].left == st.scopes[s].left
  {
    DefineKeeps(st, target, name, def);
    TreeKept(st, Define(st, target, name, def));
  }

  lemma DefineOwned(st: State, target: nat, name: string, def: Option<DefKind>)
    requires WF(st) && Owned(st) && target < |st.scopes|
    ensures Owned(Define(st, target, name, def))
  {
    var st2 := Define(st, target, name, def);
    match Lookup(st.variables, st.scopes[target].variables, name)
    case Some(v) =>
      assert st2.scopes == st.scopes;
      assert forall u | 0 <= u < |st.variables| :: st2.variables[u].scope == st.variables[u].scope;
    case None =>
      var v := |st.variables|;
      assert forall s | 0 <= s < |st.scopes| && s != target :: st2.scopes[s] == st.scopes[s];
      assert st2.scopes[target].variables == st.scopes[target].variables + [v];
      assert forall u | 0 <= u < v :: st2.variables[u] == st.variables[u];
      assert st2.variables[v].scope == target;
  }

  lemma DefineVarRefs(st: State, target: nat, name: string, def: Option<DefKind>)
    requires WF(st) && VarRefsExact(st) && target < |st.scopes|
    ensures VarRefsExact(Define(st, target, name, def))
  {
    var st2 := Define(st, target, name, def);
    assert st2.references == st.references;
    assert forall u | 0 <= u < |st2.variables| ::
      st2.variables[u].references == if u < |st.variables| then st.variables[u].references else [];
  }

  lemma DefinePreserves(st: State, target: nat, name: string, def: Option<DefKind>)
    requires Inv(st) && target < |st.scopes| && target in st.stack
    ensures Inv(Define(st, target, name, def))
  {
    var st2 := Define(st, target, name, def);
    DefineFrame(st, target, name, def);
    DefineTree(st, target, name, def);
    DefineOwned(st, target, name, def);
    DefineVarRefs(st, target, name, def);
    forall i, k | 0 <= i < |st2.stack| && 0 <= k < |st2.scopes[st2.stack[i]].left|
      ensures var r := st2.scopes[st2.stack[i]].left[k];
        st2.references[r].resolved.None? && ChainClear(st2, st2.references[r].from, st2.stack[i], st2.references[r].name)
    {
      var r := st.scopes[st.stack[i]].left[k];
      FrameChain(st, st2, st.references[r].from, st.stack[i], st.references[r].name);
    }
    forall r | 0 <= r < |st2.references| && st2.references[r].resolved.None?
      ensures r in st2.scopes[FirstOpen(st2, st2.references[r].from)].left
    {
      FrameFirstOpen(st, st2, st.references[r].from);
    }
    TransferSettled(st, st2);
  }

  /** A step that keeps every scope's kind, links and table, the open scopes and the
      variables keeps the structural part of the invariant. */
  lemma SkeletonKept(st: State, st2: State)
    requires Inv(st) && WF(st2)
    requires |st2.scopes| == |st.scopes| && st2.stack == st.stack && st2.variables == st.variables
    requires forall s | 0 <= s < |st.scopes| ::
      st2.scopes[s].kind == st.scopes[s].kind && st2.scopes[s].upper == st.scopes[s].upper &&
      st2.scopes[s].variableScope == st.scopes[s].variableScope && st2.scopes[s].variables == st.scopes[s].variables
    ensures ClosedFrame(st, st2) && Rooted(st2) && OpenVarScopes(st2) && Owned(st2)
  {
  }

  lemma ReferencingVarRefs(st: State, name: string, flag: Flag, writeExpr: Option<Expr>, init: bool)
    requires Inv(st)
    ensures VarRefsExact(Referencing(st, name, flag, writeExpr, init))
  {
    var st2 := Referencing(st, name, flag, writeExpr, init);
    forall v, r | 0 <= v < |st2.variables| && 0 <= r < |st2.references|
      ensures r in st2.variables[v].references <==> st2.references[r].resolved == Some(v)
    {
      if r == |st.references| {
        assert r !in st.variables[v].references;
      }
    }
  }

  /** Adding one unbound reference that waits in the current scope: waiting references stay clear. */
  lemma AddWaitingPending(st: State, st2: State)
    requires Inv(st) && WF(st2)
    requires |st2.scopes| == |st.scopes| && st2.stack == st.stack && st2.variables == st.variables
    requires forall s | 0 <= s < |st.scopes| ::
      st2.scopes[s].kind == st.scopes[s].kind && st2.scopes[s].upper == st.scopes[s].upper &&
      st2.scopes[s].variableScope == st.scopes[s].variableScope && st2.scopes[s].variables == st.scopes[s].variables
    requires |st2.references| == |st.references| + 1
    requires forall r | 0 <= r < |st.references| :: st2.references[r] == st.references[r]
    requires st2.references[|st.references|].resolved.None? && st2.references[|st.references|].from == Current(st)
    requires forall s | 0 <= s < |st.scopes| && s != Current(st) :: st2.scopes[s].left == st.scopes[s].left
    requires st2.scopes[Current(st)].left == st.scopes[Current(st)].left + [|st.references|]
    ensures PendingClear(st2)
  {
    var cur := Current(st);
    var id := |st.references|;
    SkeletonKept(st, st2);
    forall i, k | 0 <= i < |st2.stack| && 0 <= k < |st2.scopes[st2.stack[i]].left|
      ensures var r := st2.scopes[st2.stack[i]].left[k];
        st2.references[r].resolved.None? && ChainClear(st2, st2.references[r].from, st2.stack[i], st2.references[r].name)
    {
      var s := st.stack[i];
      var r := st2.scopes[s].left[k];
      if k < |st.scopes[s].left| {
        assert r == st.scopes[s].left[k];
        FrameChain(st, st2, st.references[r].from, s, st.references[r].name);
      } else {
        assert s == cur && r == id;
      }
    }
  }

  /** Adding one unbound reference that waits in the current scope: every unbound reference is covered. */
  lemma AddWaitingCovered(st: State, st2: State)
    requires Inv(st) && WF(st2)
    requires |st2.scopes| == |st.scopes| && st2.stack == st.stack && st2.variables == st.variables
    requires forall s | 0 <= s < |st.scopes| ::
      st2.scopes[s].kind == st.scopes[s].kind && st2.scopes[s].upper == st.scopes[s].upper &&
      st2.scopes[s].variableScope == st.scopes[s].variableScope && st2.scopes[s].variables == st.scopes[s].variables
    requires |st2.references| == |st.references| + 1
    requires forall r | 0 <= r < |st.references| :: st2.references[r] == st.references[r]
    requires st2.references[|st.references|].resolved.None? && st2.references[|st.references|].from == Current(st)
    requires forall s | 0 <= s < |st.scopes| && s != Current(st) :: st2.scopes[s].left == st.scopes[s].left
    requires st2.scopes[Current(st)].left == st.scopes[Current(st)].left + [|st.references|]
    requires Rooted(st2)
    ensures Covered(st2)
  {
    var cur := Current(st);
    var id := |st.references|;
    forall r | 0 <= r < |st2.references| && st2.references[r].resolved.None?
      ensures r in st2.scopes[FirstOpen(st2, st2.references[r].from)].left
    {
      if r < id {
        FrameFirstOpen(st, st2, st.references[r].from);
      } else {
        assert st2.references[r].from == cur;
      }
    }
  }

  lemma AddWaitingPreserves(st: State, st2: State)
    requires Inv(st) && WF(st2)
    requires |st2.scopes| == |st.scopes| && st2.stack == st.stack && st2.variables == st.variables
    requires forall s | 0 <= s < |st.scopes| ::
      st2.scopes[s].kind == st.scopes[s].kind && st2.scopes[s].upper == st.scopes[s].upper &&
      st2.scopes[s].variableScope == st.scopes[s].variableScope && st2.scopes[s].variables == st.scopes[s].variables
    requires |st2.references| == |st.references| + 1
    requires forall r | 0 <= r < |st.references| :: st2.references[r] == st.references[r]
    requires st2.references[|st.references|].resolved.None? && st2.references[|st.references|].from == Current(st)
    requires forall s | 0 <= s < |st.scopes| && s != Current(st) :: st2.scopes[s].left == st.scopes[s].left
    requires st2.scopes[Current(st)].left == st.scopes[Current(st)].left + [|st.references|]
    requires st2.scopes[0].through == st.scopes[0].through
    requires VarRefsExact(st2)
    ensures Inv(st2)
  {
    SkeletonKept(st, st2);
    AddWaitingPending(st, st2);
    AddWaitingCovered(st, st2);
    TransferSettled(st, st2);
  }

  lemma ReferencingPreserves(st: State, name: string, flag: Flag, writeExpr: Option<Expr>, init: bool)
    requires Inv(st)
    ensures Inv(Referencing(st, name, flag, writeExpr, init))
  {
    ReferencingVarRefs(st, name, flag, writeExpr, init);
    AddWaitingPreserves(st, Referencing(st, name, flag, writeExpr, init));
  }

  /** The state right after a new scope is pushed, before `arguments` is defined in it. */
  lemma PushPreserves(st: State, kind: ScopeKind, vs: nat)
    requires Inv(st) && kind != GlobalScope
    requires vs == |st.scopes| || vs == st.scopes[Current(st)].variableScope
    ensures var st2 := st.(scopes := st.scopes + [Scope(kind, Some(Current(st)), vs, [], [], [], [])],
                           stack := st.stack + [|st.scopes|]);
      Inv(st2)
  {
    var cur := Current(st);
    var n := |st.scopes|;
    var st2 := st.(scopes := st.scopes + [Scope(kind, Some(cur), vs, [], [], [], [])],
                   stack := st.stack + [n]);
    PushTree(st, kind, vs);
    forall i, k | 0 <= i < |st2.stack| && 0 <= k < |st2.scopes[st2.stack[i]].left|
      ensures var r := st2.scopes[st2.stack[i]].left[k];
        st2.references[r].resolved.None? && ChainClear(st2, st2.references[r].from, st2.stack[i], st2.references[r].name)
    {
      var s := st2.stack[i];
      if i < |st.stack| {
        var r := st.scopes[s].left[k];
        FrameChain(st, st2, st.references[r].from, s, st.references[r].name);
      }
    }
    forall r | 0 <= r < |st2.references| && st2.references[r].resolved.None?
      ensures r in st2.scopes[FirstOpen(st2, st2.references[r].from)].left
    {
      FrameFirstOpen(st, st2, st.references[r].from);
    }
    TransferSettled(st, st2);
  }

  lemma PushWF(st: State, kind: ScopeKind, vs: nat, st2: State)
    requires Ready(st)
    requires vs == |st.scopes| || vs == st.scopes[Current(st)].variableScope
    requires st2 == st.(scopes := st.scopes + [Scope(kind, Some(Current(st)), vs, [], [], [], [])],
                        stack := st.stack + [|st.scopes|])
    ensures WF(st2) && |st2.scopes| == |st.scopes| + 1 && |st2.stack| == |st.stack| + 1
    ensures forall s | 0 <= s < |st.scopes| :: st2.scopes[s] == st.scopes[s]
  {
    var n := |st.scopes|;
    assert forall s | 0 <= s < n :: st2.scopes[s] == st.scopes[s];
    assert st2.scopes[n].variableScope <= n && st2.scopes[n].upper.value < n;
    assert forall i | 0 <= i < |st2.stack| :: st2.stack[i] < |st2.scopes| by {
      forall i | 0 <= i < |st2.stack| ensures st2.stack[i] < |st2.scopes| {
        if i < |st.stack| { assert st2.stack[i] == st.stack[i]; }
      }
    }
  }

  lemma PushFrame(st: State, kind: ScopeKind, vs: nat, st2: State)
    requires Ready(st)
    requires vs == |st.scopes| || vs == st.scopes[Current(st)].variableScope
    requires st2 == st.(scopes := st.scopes + [Scope(kind, Some(Current(st)), vs, [], [], [], [])],
                        stack := st.stack + [|st.scopes|])
    ensures WF(st2) && ClosedFrame(st, st2)
  {
    PushWF(st, kind, vs, st2);
    forall s | 0 <= s < |st.scopes| && s !in st.stack
      ensures s !in st2.stack
    {
      assert s != |st.scopes|;
    }
  }

  lemma PushRooted(st: State, kind: ScopeKind, vs: nat, st2: State)
    requires Ready(st) && Rooted(st) && kind != GlobalScope
    requires vs == |st.scopes| || vs == st.scopes[Current(st)].variableScope
    requires st2 == st.(scopes := st.scopes + [Scope(kind, Some(Current(st)), vs, [], [], [], [])],
                        stack := st.stack + [|st.scopes|])
    ensures WF(st2) && Rooted(st2)
  {
    PushWF(st, kind, vs, st2);
    var n := |st.scopes|;
    assert st2.stack[0] == st.stack[0];
    forall i | 0 < i < |st2.stack|
      ensures st2.scopes[st2.stack[i]].upper == Some(st2.stack[i - 1])
    {
      if i < |st.stack| {
        assert st2.stack[i] == st.stack[i] && st2.stack[i - 1] == st.stack[i - 1];
      } else {
        assert st2.stack[i] == n && st2.stack[i - 1] == Current(st);
      }
    }
    forall i, j | 0 <= i < j < |st2.stack|
      ensures st2.stack[i] < st2.stack[j]
    {
      assert st2.stack[i] == st.stack[i];
      if j < |st.stack| {
        assert st2.stack[j] == st.stack[j];
      }
    }
  }

  lemma PushOwned(st: State, kind: ScopeKind, vs: nat, st2: State)
    requires Ready(st) && Owned(st) && VarRefsExact(st)
    requires vs == |st.scopes| || vs == st.scopes[Current(st)].variableScope
    requires st2 == st.(scopes := st.scopes + [Scope(kind, Some(Current(st)), vs, [], [], [], [])],
                        stack := st.stack + [|st.scopes|])
    ensures WF(st2) && Owned(st2) && VarRefsExact(st2)
  {
    PushWF(st, kind, vs, st2);
    assert st2.variables == st.variables && st2.references == st.references;
  }

  lemma CurrentVarScopeOpen(st: State)
    requires Ready(st) && OpenVarScopes(st)
    ensures st.scopes[Current(st)].variableScope in st.stack
  {
    assert Current(st) == st.stack[|st.stack| - 1];
  }

  lemma PushOpenVar(st: State, kind: ScopeKind, vs: nat, st2: State)
    requires Ready(st) && OpenVarScopes(st)
    requires vs == |st.scopes| || vs == st.scopes[Current(st)].variableScope
    requires st2 == st.(scopes := st.scopes + [Scope(kind, Some(Current(st)), vs, [], [], [], [])],
                        stack := st.stack + [|st.scopes|])
    ensures WF(st2) && OpenVarScopes(st2)
  {
    var n := |st.scopes|;
    var m := |st.stack|;
    assert st2.stack[m] == n;
    if vs != n {
      CurrentVarScopeOpen(st);
      var j :| 0 <= j < m && st.stack[j] == vs;
      assert st2.stack[j] == vs;
    }
    PushWF(st, kind, vs, st2);
    forall i | 0 <= i < m
      ensures st2.scopes[st2.stack[i]].variableScope in st2.stack
    {
      assert st2.stack[i] == st.stack[i];
      var j :| 0 <= j < m && st.stack[j] == st.scopes[st.stack[i]].variableScope;
      assert st2.stack[j] == st.stack[j];
    }
    assert st2.scopes[st2.stack[m]].variableScope == vs;
  }

  lemma PushOpenSame(st: State, kind: ScopeKind, vs: nat, st2: State)
    requires Ready(st)
    requires vs == |st.scopes| || vs == st.scopes[Current(st)].variableScope
    requires st2 == st.(scopes := st.scopes + [Scope(kind, Some(Current(st)), vs, [], [], [], [])],
                        stack := st.stack + [|st.scopes|])
    ensures forall s | 0 <= s < |st.scopes| :: s in st.stack <==> s in st2.stack
  {
    forall s | 0 <= s < |st.scopes|
      ensures s in st.stack <==> s in st2.stack
    {
      assert s != |st.scopes|;
    }
  }

  lemma PushTree(st: State, kind: ScopeKind, vs: nat)
    requires Inv(st) && kind != GlobalScope
    requires vs == |st.scopes| || vs == st.scopes[Current(st)].variableScope
    ensures var st2 := st.(scopes := st.scopes + [Scope(kind, Some(Current(st)), vs, [], [], [], [])],
                           stack := st.stack + [|st.scopes|]);
      WF(st2) && ClosedFrame(st, st2) && Rooted(st2) && Owned(st2) && OpenVarScopes(st2) && VarRefsExact(st2) &&
      (forall s | 0 <= s < |st.scopes| :: s in st.stack <==> s in st2.stack)
  {
    var st2 := st.(scopes := st.scopes + [Scope(kind, Some(Current(st)), vs, [], [], [], [])],
                   stack := st.stack + [|st.scopes|]);
    PushFrame(st, kind, vs, st2);
    PushRooted(st, kind, vs, st2);
    PushOwned(st, kind, vs, st2);
    PushOpenVar(st, kind, vs, st2);
    PushOpenSame(st, kind, vs, st2);
  }

  lemma NestPreserves(st: State, kind: ScopeKind)
    requires Inv(st) && kind != GlobalScope
    ensures Inv(NestScope(st, kind))
  {
    var cur := Current(st);
    var n := |st.scopes|;
    var vs := if kind == FunctionScope then n else st.scopes[cur].variableScope;
    PushPreserves(st, kind, vs);
    if kind == FunctionScope {
      var st2 := st.(scopes := st.scopes + [Scope(kind, Some(cur), vs, [], [], [], [])],
                     stack := st.stack + [n]);
      DefinePreserves(st2, n, "arguments", None);
    }
  }
}
