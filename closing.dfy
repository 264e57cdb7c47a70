/** Closing a scope keeps the resolution invariant: a reference settled when a scope closes
    is bound exactly to its lexical answer, and one handed outwards waits in the enclosing
    scope with a longer cleared chain. Closing the global scope leaves every reference
    either bound to its lexical answer or, when there is none, in the global `through`. */
module Closing {
  import opened Ast
  import opened Engine
  import opened Resolution

  /** What closing scope `s` binds a reference to `name` to, if anything. */
  ghost function LocalBind(st: State, s: nat, name: string): (r: Option<nat>)
    requires WF(st) && s < |st.scopes|
    ensures r.Some? ==> r.value < |st.variables|
  {
    var found := Lookup(st.variables, st.scopes[s].variables, name);
    if found.Some? && (st.scopes[s].kind != GlobalScope || StaticForGlobal(st.variables[found.value]))
    then found else None
  }

  lemma CloseRefCases(st: State, s: nat, r: nat)
    requires WF(st) && s < |st.scopes| && r < |st.references|
    ensures var b := LocalBind(st, s, st.references[r].name);
      CloseRef(st, s, r) == if b.Some? then ResolveTo(st, r, b.value) else Delegate(st, s, r)
  {
  }

  // ---------------------------------------------------------------------------------
  // Chains

  /** A cleared chain from `t` to `s` means lookup from `t` gives what lookup from `s` gives. */
  lemma {:induction false} ChainResolve(st: State, t: nat, s: nat, name: string)
    requires WF(st) && t < |st.scopes| && s < |st.scopes| && ChainClear(st, t, s, name)
    ensures Resolve(st, t, name) == Resolve(st, s, name)
    ensures WalkClosed(st, s, name) ==> WalkClosed(st, t, name)
    decreases t
  {
    if t != s {
      ChainResolve(st, st.scopes[t].upper.value, s, name);
    }
  }

  /** A cleared chain ending at an open scope ends at the innermost open scope around `t`. */
  lemma {:induction false} ChainFirstOpen(st: State, t: nat, s: nat, name: string)
    requires WF(st) && Rooted(st) && |st.stack| > 0 && t < |st.scopes| && s in st.stack
    requires ChainClear(st, t, s, name)
    ensures FirstOpen(st, t) == s
    decreases t
  {
    if t != s {
      ChainFirstOpen(st, st.scopes[t].upper.value, s, name);
    }
  }

  /** A chain extends past a closed scope that does not have the name. */
  lemma {:induction false} ChainExtend(st: State, t: nat, s: nat, p: nat, name: string)
    requires WF(st) && t < |st.scopes| && s < |st.scopes| && ChainClear(st, t, s, name)
    requires s !in st.stack && Lookup(st.variables, st.scopes[s].variables, name).None?
    requires st.scopes[s].upper == Some(p)
    ensures ChainClear(st, t, p, name)
    decreases t
  {
    if t != s {
      ChainExtend(st, st.scopes[t].upper.value, s, p, name);
    }
  }

  /** Lookup from a closed scope that binds the name locally. */
  lemma LocalResolve(st: State, s: nat, name: string)
    requires WF(st) && s < |st.scopes| && s !in st.stack && LocalBind(st, s, name).Some?
    ensures WalkClosed(st, s, name) && Resolve(st, s, name) == LocalBind(st, s, name)
  {
  }

  /** Popping the current scope moves the innermost open scope of its members to its parent. */
  lemma {:induction false} FirstOpenPop(st: State, st2: State, t: nat)
    requires WF(st) && Rooted(st) && |st.stack| > 1 && t < |st.scopes|
    requires WF(st2) && Rooted(st2) && st2.scopes == st.scopes && st2.stack == st.stack[..|st.stack| - 1]
    ensures FirstOpen(st2, t) ==
      if FirstOpen(st, t) == Current(st) then st.scopes[Current(st)].upper.value else FirstOpen(st, t)
    decreases t
  {
    var s := Current(st);
    assert s == st.stack[|st.stack| - 1];
    assert st.scopes[s].upper == Some(st.stack[|st.stack| - 2]);
    assert st.stack[|st.stack| - 2] in st2.stack;
    if t in st.stack {
      if t != s {
        assert t in st2.stack;
      }
    } else {
      assert t !in st2.stack;
      FirstOpenPop(st, st2, st.scopes[t].upper.value);
    }
  }

  // ---------------------------------------------------------------------------------
  // Shape frames

  /** A step that keeps every scope's kind, links and table, the open scopes, and every
      variable's name, scope and definitions keeps the structural part of the invariant. */
  lemma ShapeKept(st: State, st2: State)
    requires WF(st) && WF(st2) && Rooted(st) && Owned(st) && OpenVarScopes(st)
    requires |st2.scopes| == |st.scopes| && st2.stack == st.stack && |st2.variables| == |st.variables|
    requires forall s | 0 <= s < |st.scopes| ::
      st2.scopes[s].kind == st.scopes[s].kind && st2.scopes[s].upper == st.scopes[s].upper &&
      st2.scopes[s].variableScope == st.scopes[s].variableScope && st2.scopes[s].variables == st.scopes[s].variables
    requires forall v | 0 <= v < |st.variables| ::
      st2.variables[v].name == st.variables[v].name && st2.variables[v].scope == st.variables[v].scope &&
      st2.variables[v].defs == st.variables[v].defs
    ensures ClosedFrame(st, st2) && Rooted(st2) && Owned(st2) && OpenVarScopes(st2)
  {
  }

  /** Binding a reference changes only that reference's target and that variable's list. */
  lemma ResolveToFrame(st: State, r: nat, v: nat)
    requires WF(st) && r < |st.references| && v < |st.variables|
    ensures var res := ResolveTo(st, r, v);
      res.scopes == st.scopes && res.stack == st.stack &&
      |res.variables| == |st.variables| && |res.references| == |st.references| &&
      forall u | 0 <= u < |st.variables| ::
        res.variables[u].name == st.variables[u].name && res.variables[u].scope == st.variables[u].scope &&
        res.variables[u].defs == st.variables[u].defs
  {
  }

  /** Handing `r` on from a scope with an enclosing scope: `r` joins the closing scope's
      `through` and the enclosing scope's pending list, and nothing else changes. */
  lemma DelegateFrame(st: State, s: nat, r: nat)
    requires WF(st) && s < |st.scopes| && r < |st.references| && st.scopes[s].upper.Some?
    ensures var d := Delegate(st, s, r);
      var u := st.scopes[s].upper.value;
      d.stack == st.stack && d.references == st.references && d.variables == st.variables &&
      |d.scopes| == |st.scopes| &&
      d.scopes[u].left == st.scopes[u].left + [r] && d.scopes[s].through == st.scopes[s].through + [r] &&
      (forall t | 0 <= t < |st.scopes| && t != u :: d.scopes[t].left == st.scopes[t].left) &&
      (forall t | 0 <= t < |st.scopes| && t != s :: d.scopes[t].through == st.scopes[t].through) &&
      (forall t | 0 <= t < |st.scopes| ::
        d.scopes[t].kind == st.scopes[t].kind && d.scopes[t].upper == st.scopes[t].upper &&
        d.scopes[t].variableScope == st.scopes[t].variableScope && d.scopes[t].variables == st.scopes[t].variables &&
        d.scopes[t].references == st.scopes[t].references)
  {
    var u := st.scopes[s].upper.value;
    var scopes := st.scopes[u := st.scopes[u].(left := st.scopes[u].left + [r])];
    assert Delegate(st, s, r).scopes == scopes[s := scopes[s].(through := scopes[s].through + [r])];
  }

  /** LocalBind reads only tables, names and definitions. */
  lemma LocalBindKept(st: State, st2: State, s: nat, name: string)
    requires WF(st) && WF(st2) && s < |st.scopes| && |st.scopes| <= |st2.scopes| && |st.variables| <= |st2.variables|
    requires st2.scopes[s].kind == st.scopes[s].kind && st2.scopes[s].variables == st.scopes[s].variables
    requires forall v | 0 <= v < |st.variables| ::
      st2.variables[v].name == st.variables[v].name && st2.variables[v].defs == st.variables[v].defs
    ensures LocalBind(st2, s, name) == LocalBind(st, s, name)
  {
    LookupFrame(st.variables, st2.variables, st.scopes[s].variables, name);
  }

  // ---------------------------------------------------------------------------------
  // Closing a scope other than the global one

  /** `r` waits in no open scope. */
  ghost predicate NotWaiting(st: State, r: nat)
    requires WF(st)
  {
    forall i | 0 <= i < |st.stack| :: r !in st.scopes[st.stack[i]].left
  }

  /** Every unbound reference is still to be settled or waits in its innermost open scope. */
  ghost predicate RestCovered(st: State, rest: seq<nat>)
    requires WF(st) && Rooted(st) && |st.stack| > 0
  {
    forall r | 0 <= r < |st.references| && st.references[r].resolved.None? ::
      r in rest || r in st.scopes[FirstOpen(st, st.references[r].from)].left
  }

  /** The references still to be settled by closing `s` reach `s` through a cleared chain;
      one that `s` binds waits nowhere else and is unbound or already bound there. */
  ghost predicate RestClear(st: State, s: nat, rest: seq<nat>)
    requires WF(st) && s < |st.scopes| && IdsBelow(rest, |st.references|)
  {
    forall k | 0 <= k < |rest| ::
      var ref := st.references[rest[k]];
      ChainClear(st, ref.from, s, ref.name) &&
      (LocalBind(st, s, ref.name).None? ==> ref.resolved.None?) &&
      (LocalBind(st, s, ref.name).Some? ==>
         (ref.resolved.None? || ref.resolved == LocalBind(st, s, ref.name)) && NotWaiting(st, rest[k]))
  }

  /** The state while the popped scope `s` settles the references in `rest`. */
  ghost predicate ClosingScope(st: State, s: nat, rest: seq<nat>) {
    WF(st) && |st.stack| > 0 && s < |st.scopes| && s !in st.stack && IdsBelow(rest, |st.references|) &&
    Rooted(st) && Owned(st) && OpenVarScopes(st) && VarRefsExact(st) && st.scopes[0].through == [] &&
    st.scopes[s].upper == Some(Current(st)) && st.scopes[s].kind != GlobalScope &&
    PendingClear(st) && ResolvedLexically(st) && RestCovered(st, rest) && RestClear(st, s, rest)
  }

  lemma CloseStartRooted(st: State, popped: State)
    requires Inv(st) && |st.stack| > 1
    requires popped == st.(stack := st.stack[..|st.stack| - 1])
    ensures WF(popped) && |popped.stack| > 0 && Current(st) !in popped.stack && Rooted(popped) &&
      popped.scopes[Current(st)].upper == Some(Current(popped)) && popped.scopes[Current(st)].kind != GlobalScope
  {
    var n := |st.stack|;
    assert st.stack[n - 1] == Current(st);
    assert st.stack[0] < st.stack[n - 1];
    assert Current(popped) == st.stack[n - 2];
  }

  lemma CloseStartVarScopes(st: State, popped: State)
    requires Inv(st) && |st.stack| > 1
    requires popped == st.(stack := st.stack[..|st.stack| - 1])
    requires WF(popped)
    ensures OpenVarScopes(popped)
  {
    var n := |st.stack|;
    forall i | 0 <= i < n - 1
      ensures popped.scopes[popped.stack[i]].variableScope in popped.stack
    {
      var w := st.scopes[st.stack[i]].variableScope;
      assert w in st.stack;
      var j :| 0 <= j < n && st.stack[j] == w;
      assert j < n - 1;
      assert popped.stack[j] == w;
    }
  }

  lemma CloseStartShape(st: State, popped: State)
    requires Inv(st) && |st.stack| > 1
    requires popped == st.(stack := st.stack[..|st.stack| - 1])
    ensures WF(popped) && |popped.stack| > 0 && Current(st) !in popped.stack &&
      Rooted(popped) && Owned(popped) && OpenVarScopes(popped) && VarRefsExact(popped) &&
      popped.scopes[Current(st)].upper == Some(Current(popped)) && popped.scopes[Current(st)].kind != GlobalScope &&
      ClosedFrame(st, popped)
  {
    CloseStartRooted(st, popped);
    CloseStartVarScopes(st, popped);
  }

  lemma CloseStartPending(st: State, popped: State)
    requires Inv(st) && |st.stack| > 1
    requires popped == st.(stack := st.stack[..|st.stack| - 1])
    requires WF(popped) && ClosedFrame(st, popped)
    ensures PendingClear(popped) && ResolvedLexically(popped)
  {
    forall i, k | 0 <= i < |popped.stack| && 0 <= k < |popped.scopes[popped.stack[i]].left|
      ensures var r := popped.scopes[popped.stack[i]].left[k];
        popped.references[r].resolved.None? && ChainClear(popped, popped.references[r].from, popped.stack[i], popped.references[r].name)
    {
      var r := st.scopes[st.stack[i]].left[k];
      FrameChain(st, popped, st.references[r].from, st.stack[i], st.references[r].name);
    }
    TransferSettled(st, popped);
  }

  lemma CloseStartCovered(st: State, popped: State)
    requires Inv(st) && |st.stack| > 1
    requires popped == st.(stack := st.stack[..|st.stack| - 1])
    requires WF(popped) && Rooted(popped) && |popped.stack| > 0
    ensures RestCovered(popped, st.scopes[Current(st)].left)
  {
    forall r | 0 <= r < |popped.references| && popped.references[r].resolved.None?
      ensures r in st.scopes[Current(st)].left || r in popped.scopes[FirstOpen(popped, popped.references[r].from)].left
    {
      FirstOpenPop(st, popped, st.references[r].from);
    }
  }

  lemma CloseStartRest(st: State, popped: State)
    requires Inv(st) && |st.stack| > 1
    requires popped == st.(stack := st.stack[..|st.stack| - 1])
    requires WF(popped) && ClosedFrame(st, popped)
    ensures RestClear(popped, Current(st), st.scopes[Current(st)].left)
  {
    var s := Current(st);
    var n := |st.stack|;
    var rest := st.scopes[s].left;
    assert st.stack[n - 1] == s;
    forall k | 0 <= k < |rest|
      ensures var ref := popped.references[rest[k]];
        ChainClear(popped, ref.from, s, ref.name) && ref.resolved.None? && NotWaiting(popped, rest[k])
    {
      var ref := st.references[rest[k]];
      assert ChainClear(st, ref.from, s, ref.name);
      FrameChain(st, popped, ref.from, s, ref.name);
      ChainFirstOpen(st, ref.from, s, ref.name);
      forall i | 0 <= i < |popped.stack|
        ensures rest[k] !in popped.scopes[popped.stack[i]].left
      {
        if rest[k] in popped.scopes[popped.stack[i]].left {
          var j :| 0 <= j < |st.scopes[st.stack[i]].left| && st.scopes[st.stack[i]].left[j] == rest[k];
          ChainFirstOpen(st, ref.from, st.stack[i], ref.name);
          assert false;
        }
      }
    }
  }

  lemma CloseStart(st: State)
    requires Inv(st) && |st.stack| > 1
    ensures ClosingScope(st.(stack := st.stack[..|st.stack| - 1]), Current(st), st.scopes[Current(st)].left)
  {
    var popped := st.(stack := st.stack[..|st.stack| - 1]);
    CloseStartShape(st, popped);
    CloseStartPending(st, popped);
    CloseStartCovered(st, popped);
    CloseStartRest(st, popped);
  }

  // One reference bound by the closing scope

  lemma BindStepShape(cs: State, s: nat, rest: seq<nat>, st2: State)
    requires WF(cs) && |cs.stack| > 0 && s < |cs.scopes| && s !in cs.stack && IdsBelow(rest, |cs.references|) && rest != []
    requires Rooted(cs) && Owned(cs) && OpenVarScopes(cs) && cs.scopes[0].through == []
    requires cs.scopes[s].upper == Some(Current(cs)) && cs.scopes[s].kind != GlobalScope
    requires LocalBind(cs, s, cs.references[rest[0]].name).Some?
    requires st2 == ResolveTo(cs, rest[0], LocalBind(cs, s, cs.references[rest[0]].name).value)
    ensures WF(st2) && |st2.stack| > 0 && s < |st2.scopes| && s !in st2.stack && IdsBelow(rest[1..], |st2.references|) &&
      ClosedFrame(cs, st2) && Rooted(st2) && Owned(st2) && OpenVarScopes(st2) && st2.scopes[0].through == [] &&
      st2.scopes[s].upper == Some(Current(st2)) && st2.scopes[s].kind != GlobalScope &&
      st2.scopes == cs.scopes && st2.stack == cs.stack
  {
    ResolveToFrame(cs, rest[0], LocalBind(cs, s, cs.references[rest[0]].name).value);
    ShapeKept(cs, st2);
  }

  lemma BindStepVarRefs(cs: State, s: nat, rest: seq<nat>, st2: State)
    requires ClosingScope(cs, s, rest) && rest != []
    requires LocalBind(cs, s, cs.references[rest[0]].name).Some?
    requires st2 == ResolveTo(cs, rest[0], LocalBind(cs, s, cs.references[rest[0]].name).value)
    ensures VarRefsExact(st2)
  {
  }

  lemma BindStepPending(cs: State, s: nat, rest: seq<nat>, st2: State)
    requires ClosingScope(cs, s, rest) && rest != []
    requires LocalBind(cs, s, cs.references[rest[0]].name).Some?
    requires st2 == ResolveTo(cs, rest[0], LocalBind(cs, s, cs.references[rest[0]].name).value)
    requires WF(st2) && ClosedFrame(cs, st2) && st2.scopes == cs.scopes && st2.stack == cs.stack
    ensures PendingClear(st2)
  {
    var r0 := rest[0];
    assert NotWaiting(cs, r0);
    forall i, k | 0 <= i < |st2.stack| && 0 <= k < |st2.scopes[st2.stack[i]].left|
      ensures var r := st2.scopes[st2.stack[i]].left[k];
        st2.references[r].resolved.None? && ChainClear(st2, st2.references[r].from, st2.stack[i], st2.references[r].name)
    {
      var r := cs.scopes[cs.stack[i]].left[k];
      assert r != r0;
      FrameChain(cs, st2, cs.references[r].from, cs.stack[i], cs.references[r].name);
    }
  }

  lemma BindStepLex(cs: State, s: nat, rest: seq<nat>, st2: State)
    requires ClosingScope(cs, s, rest) && rest != []
    requires LocalBind(cs, s, cs.references[rest[0]].name).Some?
    requires st2 == ResolveTo(cs, rest[0], LocalBind(cs, s, cs.references[rest[0]].name).value)
    requires WF(st2) && ClosedFrame(cs, st2) && st2.scopes == cs.scopes && st2.stack == cs.stack
    ensures ResolvedLexically(st2)
  {
    var r0 := rest[0];
    var ref := cs.references[r0];
    forall r | 0 <= r < |st2.references| && st2.references[r].resolved.Some?
      ensures WalkClosed(st2, st2.references[r].from, st2.references[r].name) &&
              Resolve(st2, st2.references[r].from, st2.references[r].name) == st2.references[r].resolved
    {
      if r == r0 {
        assert ChainClear(cs, ref.from, s, ref.name);
        FrameChain(cs, st2, ref.from, s, ref.name);
        LocalBindKept(cs, st2, s, ref.name);
        LocalResolve(st2, s, ref.name);
        ChainResolve(st2, ref.from, s, ref.name);
      } else {
        FrameResolve(cs, st2, cs.references[r].from, cs.references[r].name);
      }
    }
  }

  lemma BindStepCovered(cs: State, s: nat, rest: seq<nat>, st2: State)
    requires ClosingScope(cs, s, rest) && rest != []
    requires LocalBind(cs, s, cs.references[rest[0]].name).Some?
    requires st2 == ResolveTo(cs, rest[0], LocalBind(cs, s, cs.references[rest[0]].name).value)
    requires WF(st2) && Rooted(st2) && st2.scopes == cs.scopes && st2.stack == cs.stack
    ensures RestCovered(st2, rest[1..])
  {
    forall r | 0 <= r < |st2.references| && st2.references[r].resolved.None?
      ensures r in rest[1..] || r in st2.scopes[FirstOpen(st2, st2.references[r].from)].left
    {
      FrameFirstOpen(cs, st2, cs.references[r].from);
      assert r in rest ==> r == rest[0] || r in rest[1..];
    }
  }

  lemma BindStepRest(cs: State, s: nat, rest: seq<nat>, st2: State)
    requires WF(cs) && |cs.stack| > 0 && s < |cs.scopes| && IdsBelow(rest, |cs.references|) && rest != []
    requires RestClear(cs, s, rest)
    requires LocalBind(cs, s, cs.references[rest[0]].name).Some?
    requires st2 == ResolveTo(cs, rest[0], LocalBind(cs, s, cs.references[rest[0]].name).value)
    requires WF(st2) && ClosedFrame(cs, st2) && st2.scopes == cs.scopes && st2.stack == cs.stack
    ensures RestClear(st2, s, rest[1..])
  {
    var rest2 := rest[1..];
    forall k | 0 <= k < |rest2|
      ensures var ref := st2.references[rest2[k]];
        ChainClear(st2, ref.from, s, ref.name) &&
        (LocalBind(st2, s, ref.name).None? ==> ref.resolved.None?) &&
        (LocalBind(st2, s, ref.name).Some? ==>
           (ref.resolved.None? || ref.resolved == LocalBind(st2, s, ref.name)) && NotWaiting(st2, rest2[k]))
    {
      var ref := cs.references[rest[k + 1]];
      FrameChain(cs, st2, ref.from, s, ref.name);
      LocalBindKept(cs, st2, s, ref.name);
      LocalBindKept(cs, st2, s, cs.references[rest[0]].name);
    }
  }

  lemma BindStep(cs: State, s: nat, rest: seq<nat>)
    requires ClosingScope(cs, s, rest) && rest != []
    requires LocalBind(cs, s, cs.references[rest[0]].name).Some?
    ensures ClosingScope(ResolveTo(cs, rest[0], LocalBind(cs, s, cs.references[rest[0]].name).value), s, rest[1..])
  {
    var st2 := ResolveTo(cs, rest[0], LocalBind(cs, s, cs.references[rest[0]].name).value);
    BindStepShape(cs, s, rest, st2);
    BindStepVarRefs(cs, s, rest, st2);
    BindStepPending(cs, s, rest, st2);
    BindStepLex(cs, s, rest, st2);
    BindStepCovered(cs, s, rest, st2);
    BindStepRest(cs, s, rest, st2);
  }

  // One reference handed to the enclosing scope

  lemma PassStepLefts(cs: State, s: nat, rest: seq<nat>, st2: State)
    requires WF(cs) && |cs.stack| > 0 && s < |cs.scopes| && s !in cs.stack && IdsBelow(rest, |cs.references|) && rest != []
    requires Rooted(cs) && Owned(cs) && OpenVarScopes(cs) && cs.scopes[0].through == []
    requires cs.scopes[s].upper == Some(Current(cs)) && cs.scopes[s].kind != GlobalScope
    requires LocalBind(cs, s, cs.references[rest[0]].name).None?
    requires st2 == Delegate(cs, s, rest[0])
    ensures WF(st2) && |st2.scopes| == |cs.scopes| &&
      st2.stack == cs.stack && st2.references == cs.references && st2.variables == cs.variables &&
      st2.scopes[Current(cs)].left == cs.scopes[Current(cs)].left + [rest[0]] &&
      (forall t | 0 <= t < |cs.scopes| && t != Current(cs) :: st2.scopes[t].left == cs.scopes[t].left) &&
      (forall t | 0 <= t < |cs.scopes| ::
        st2.scopes[t].kind == cs.scopes[t].kind && st2.scopes[t].upper == cs.scopes[t].upper &&
        st2.scopes[t].variableScope == cs.scopes[t].variableScope && st2.scopes[t].variables == cs.scopes[t].variables) &&
      (forall t | 0 <= t < |cs.scopes| && t != s :: st2.scopes[t].through == cs.scopes[t].through)
  {
    DelegateFrame(cs, s, rest[0]);
  }

  lemma PassStepShape(cs: State, s: nat, rest: seq<nat>, st2: State)
    requires WF(cs) && |cs.stack| > 0 && s < |cs.scopes| && s !in cs.stack && IdsBelow(rest, |cs.references|) && rest != []
    requires Rooted(cs) && Owned(cs) && OpenVarScopes(cs) && VarRefsExact(cs) && cs.scopes[0].through == []
    requires cs.scopes[s].upper == Some(Current(cs)) && cs.scopes[s].kind != GlobalScope
    requires LocalBind(cs, s, cs.references[rest[0]].name).None?
    requires st2 == Delegate(cs, s, rest[0])
    ensures WF(st2) && |st2.stack| > 0 && s < |st2.scopes| && s !in st2.stack && IdsBelow(rest[1..], |st2.references|) &&
      ClosedFrame(cs, st2) && Rooted(st2) && Owned(st2) && OpenVarScopes(st2) && VarRefsExact(st2) &&
      st2.scopes[0].through == [] &&
      st2.scopes[s].upper == Some(Current(st2)) && st2.scopes[s].kind != GlobalScope &&
      st2.stack == cs.stack && st2.references == cs.references && st2.variables == cs.variables &&
      st2.scopes[Current(cs)].left == cs.scopes[Current(cs)].left + [rest[0]] &&
      (forall t | 0 <= t < |cs.scopes| && t != Current(cs) :: st2.scopes[t].left == cs.scopes[t].left)
  {
    PassStepLefts(cs, s, rest, st2);
    assert s != 0;
    ShapeKept(cs, st2);
  }

  lemma PassStepPending(cs: State, s: nat, rest: seq<nat>, st2: State)
    requires ClosingScope(cs, s, rest) && rest != []
    requires LocalBind(cs, s, cs.references[rest[0]].name).None?
    requires st2 == Delegate(cs, s, rest[0])
    requires WF(st2) && ClosedFrame(cs, st2) && st2.stack == cs.stack && st2.references == cs.references
    requires st2.scopes[Current(cs)].left == cs.scopes[Current(cs)].left + [rest[0]]
    requires forall t | 0 <= t < |cs.scopes| && t != Current(cs) :: st2.scopes[t].left == cs.scopes[t].left
    ensures PendingClear(st2)
  {
    var r0 := rest[0];
    var p := Current(cs);
    var ref := cs.references[r0];
    assert ChainClear(cs, ref.from, s, ref.name);
    ChainExtend(cs, ref.from, s, p, ref.name);
    forall i, k | 0 <= i < |st2.stack| && 0 <= k < |st2.scopes[st2.stack[i]].left|
      ensures var r := st2.scopes[st2.stack[i]].left[k];
        st2.references[r].resolved.None? && ChainClear(st2, st2.references[r].from, st2.stack[i], st2.references[r].name)
    {
      var t := cs.stack[i];
      var r := st2.scopes[t].left[k];
      if k < |cs.scopes[t].left| {
        assert r == cs.scopes[t].left[k];
        FrameChain(cs, st2, cs.references[r].from, t, cs.references[r].name);
      } else {
        assert t == p && r == r0;
        FrameChain(cs, st2, ref.from, p, ref.name);
      }
    }
  }

  lemma PassStepCovered(cs: State, s: nat, rest: seq<nat>, st2: State)
    requires ClosingScope(cs, s, rest) && rest != []
    requires LocalBind(cs, s, cs.references[rest[0]].name).None?
    requires st2 == Delegate(cs, s, rest[0])
    requires WF(st2) && Rooted(st2) && ClosedFrame(cs, st2) && st2.stack == cs.stack && st2.references == cs.references
    requires st2.scopes[Current(cs)].left == cs.scopes[Current(cs)].left + [rest[0]]
    requires forall t | 0 <= t < |cs.scopes| && t != Current(cs) :: st2.scopes[t].left == cs.scopes[t].left
    ensures RestCovered(st2, rest[1..])
  {
    var r0 := rest[0];
    var p := Current(cs);
    var ref := cs.references[r0];
    assert ChainClear(cs, ref.from, s, ref.name);
    ChainExtend(cs, ref.from, s, p, ref.name);
    FrameChain(cs, st2, ref.from, p, ref.name);
    ChainFirstOpen(st2, ref.from, p, ref.name);
    forall r | 0 <= r < |st2.references| && st2.references[r].resolved.None?
      ensures r in rest[1..] || r in st2.scopes[FirstOpen(st2, st2.references[r].from)].left
    {
      FrameFirstOpen(cs, st2, cs.references[r].from);
      assert r in rest ==> r == rest[0] || r in rest[1..];
    }
  }

  lemma PassStepRest(cs: State, s: nat, rest: seq<nat>, st2: State)
    requires WF(cs) && |cs.stack| > 0 && s < |cs.scopes| && IdsBelow(rest, |cs.references|) && rest != []
    requires RestClear(cs, s, rest)
    requires LocalBind(cs, s, cs.references[rest[0]].name).None?
    requires st2 == Delegate(cs, s, rest[0])
    requires WF(st2) && ClosedFrame(cs, st2) && st2.stack == cs.stack && st2.references == cs.references
    requires st2.scopes[s].kind == cs.scopes[s].kind && st2.scopes[s].variables == cs.scopes[s].variables
    requires st2.variables == cs.variables
    requires st2.scopes[Current(cs)].left == cs.scopes[Current(cs)].left + [rest[0]]
    requires forall t | 0 <= t < |cs.scopes| && t != Current(cs) :: st2.scopes[t].left == cs.scopes[t].left
    ensures RestClear(st2, s, rest[1..])
  {
    var rest2 := rest[1..];
    forall k | 0 <= k < |rest2|
      ensures var ref := st2.references[rest2[k]];
        ChainClear(st2, ref.from, s, ref.name) &&
        (LocalBind(st2, s, ref.name).None? ==> ref.resolved.None?) &&
        (LocalBind(st2, s, ref.name).Some? ==>
           (ref.resolved.None? || ref.resolved == LocalBind(st2, s, ref.name)) && NotWaiting(st2, rest2[k]))
    {
      var ref := cs.references[rest[k + 1]];
      FrameChain(cs, st2, ref.from, s, ref.name);
      LocalBindKept(cs, st2, s, ref.name);
      if LocalBind(cs, s, ref.name).Some? {
        assert rest[k + 1] != rest[0];
      }
    }
  }

  lemma PassStep(cs: State, s: nat, rest: seq<nat>)
    requires ClosingScope(cs, s, rest) && rest != []
    requires LocalBind(cs, s, cs.references[rest[0]].name).None?
    ensures ClosingScope(Delegate(cs, s, rest[0]), s, rest[1..])
  {
    var st2 := Delegate(cs, s, rest[0]);
    PassStepShape(cs, s, rest, st2);
    PassStepPending(cs, s, rest, st2);
    PassStepCovered(cs, s, rest, st2);
    PassStepRest(cs, s, rest, st2);
    TransferSettled(cs, st2);
  }

  lemma {:induction false} CloseRefsScope(cs: State, s: nat, rest: seq<nat>)
    requires ClosingScope(cs, s, rest)
    ensures ClosingScope(CloseRefs(cs, s, rest), s, [])
    decreases |rest|
  {
    if rest != [] {
      var r0 := rest[0];
      CloseRefCases(cs, s, r0);
      if LocalBind(cs, s, cs.references[r0].name).Some? {
        BindStep(cs, s, rest);
      } else {
        PassStep(cs, s, rest);
      }
      CloseRefsScope(CloseRef(cs, s, r0), s, rest[1..]);
    }
  }

  lemma CloseEndShape(cs: State, s: nat, st2: State)
    requires ClosingScope(cs, s, [])
    requires st2 == cs.(scopes := cs.scopes[s := cs.scopes[s].(left := [])])
    ensures WF(st2) && Ready(st2) && ClosedFrame(cs, st2) && Rooted(st2) && Owned(st2) && OpenVarScopes(st2) &&
      VarRefsExact(st2) && st2.scopes[0].through == [] && st2.references == cs.references && st2.stack == cs.stack &&
      forall t | 0 <= t < |cs.scopes| && t != s :: st2.scopes[t].left == cs.scopes[t].left
  {
    ShapeKept(cs, st2);
  }

  lemma CloseEndPending(cs: State, s: nat, st2: State)
    requires WF(cs) && WF(st2) && PendingClear(cs) && ClosedFrame(cs, st2) && s !in cs.stack
    requires st2.references == cs.references && st2.stack == cs.stack
    requires forall t | 0 <= t < |cs.scopes| && t != s :: st2.scopes[t].left == cs.scopes[t].left
    ensures PendingClear(st2)
  {
    forall i, k | 0 <= i < |st2.stack| && 0 <= k < |st2.scopes[st2.stack[i]].left|
      ensures var r := st2.scopes[st2.stack[i]].left[k];
        st2.references[r].resolved.None? && ChainClear(st2, st2.references[r].from, st2.stack[i], st2.references[r].name)
    {
      var r := cs.scopes[cs.stack[i]].left[k];
      FrameChain(cs, st2, cs.references[r].from, cs.stack[i], cs.references[r].name);
    }
  }

  lemma CloseEndCovered(cs: State, s: nat, st2: State)
    requires WF(cs) && Rooted(cs) && |cs.stack| > 0 && RestCovered(cs, []) && s !in cs.stack
    requires WF(st2) && Rooted(st2) && ClosedFrame(cs, st2)
    requires st2.references == cs.references && st2.stack == cs.stack
    requires forall t | 0 <= t < |cs.scopes| && t != s :: st2.scopes[t].left == cs.scopes[t].left
    ensures Covered(st2)
  {
    forall r | 0 <= r < |st2.references| && st2.references[r].resolved.None?
      ensures r in st2.scopes[FirstOpen(st2, st2.references[r].from)].left
    {
      FrameFirstOpen(cs, st2, cs.references[r].from);
    }
  }

  lemma CloseEndKept(cs: State, s: nat, st2: State)
    requires ClosingScope(cs, s, [])
    requires WF(st2) && Ready(st2) && ClosedFrame(cs, st2) && Rooted(st2) && Owned(st2) && OpenVarScopes(st2) &&
      VarRefsExact(st2) && st2.scopes[0].through == [] && st2.references == cs.references && st2.stack == cs.stack &&
      forall t | 0 <= t < |cs.scopes| && t != s :: st2.scopes[t].left == cs.scopes[t].left
    ensures Inv(st2)
  {
    CloseEndPending(cs, s, st2);
    CloseEndCovered(cs, s, st2);
    TransferSettled(cs, st2);
  }

  lemma CloseEnd(cs: State, s: nat)
    requires ClosingScope(cs, s, [])
    ensures Inv(cs.(scopes := cs.scopes[s := cs.scopes[s].(left := [])]))
  {
    var st2 := cs.(scopes := cs.scopes[s := cs.scopes[s].(left := [])]);
    CloseEndShape(cs, s, st2);
    CloseEndKept(cs, s, st2);
  }

  /** Closing any scope but the global one keeps the invariant. */
  lemma ClosePreserves(st: State)
    requires Inv(st) && |st.stack| > 1
    ensures Inv(Close(st))
  {
    var s := Current(st);
    var popped := st.(stack := st.stack[..|st.stack| - 1]);
    CloseStart(st);
    CloseRefsScope(popped, s, st.scopes[s].left);
    CloseEnd(CloseRefs(popped, s, st.scopes[s].left), s);
  }

  // ---------------------------------------------------------------------------------
  // Closing the global scope

  /** With no scope open, every lookup consults closed scopes only. */
  lemma {:induction false} AllClosed(st: State, t: nat, name: string)
    requires WF(st) && st.stack == [] && t < |st.scopes|
    ensures WalkClosed(st, t, name)
    decreases t
  {
    if st.scopes[t].upper.Some? {
      AllClosed(st, st.scopes[t].upper.value, name);
    }
  }

  /** Lookup from the outermost scope is what that scope binds. */
  lemma ResolveRoot(st: State, name: string)
    requires WF(st) && Rooted(st)
    ensures Resolve(st, 0, name) == LocalBind(st, 0, name)
  {
  }

  /** The analysis is complete: every reference is bound to its lexical answer, and exactly
      those without one are in the global scope's `through`. */
  ghost predicate Final(st: State) {
    WF(st) && st.stack == [] && Rooted(st) && Owned(st) && VarRefsExact(st) &&
    (forall r | 0 <= r < |st.references| ::
       st.references[r].resolved == Resolve(st, st.references[r].from, st.references[r].name)) &&
    (forall r | 0 <= r < |st.references| :: st.references[r].resolved.None? <==> r in st.scopes[0].through)
  }

  /** The state while the global scope settles the references in `rest`. */
  ghost predicate ClosingGlobal(st: State, rest: seq<nat>) {
    WF(st) && st.stack == [] && IdsBelow(rest, |st.references|) &&
    Rooted(st) && Owned(st) && VarRefsExact(st) && ResolvedLexically(st) &&
    (forall r | 0 <= r < |st.references| && st.references[r].resolved.None? :: r in rest || r in st.scopes[0].through) &&
    (forall k | 0 <= k < |st.scopes[0].through| ::
       var ref := st.references[st.scopes[0].through[k]];
       ref.resolved.None? && Resolve(st, ref.from, ref.name).None?) &&
    (forall k | 0 <= k < |rest| ::
       var ref := st.references[rest[k]];
       ChainClear(st, ref.from, 0, ref.name) && (ref.resolved.None? || ref.resolved == LocalBind(st, 0, ref.name)))
  }

  lemma GlobalStart(st: State)
    requires Inv(st) && |st.stack| == 1
    ensures ClosingGlobal(st.(stack := []), st.scopes[0].left)
  {
    var popped := st.(stack := []);
    assert st.stack[0] == 0;
    ShapeKept(st, st.(stack := st.stack));
    forall r | 0 <= r < |popped.references| && popped.references[r].resolved.None?
      ensures r in st.scopes[0].left
    {
      assert FirstOpen(st, st.references[r].from) in st.stack;
    }
    var rest := st.scopes[0].left;
    forall k | 0 <= k < |rest|
      ensures var ref := popped.references[rest[k]];
        ChainClear(popped, ref.from, 0, ref.name) && ref.resolved.None?
    {
      var ref := st.references[rest[k]];
      assert ChainClear(st, ref.from, st.stack[0], ref.name);
      FrameChain(st, popped, ref.from, 0, ref.name);
    }
    TransferSettled(st, popped);
  }

  lemma GlobalBindShape(cs: State, rest: seq<nat>, st2: State)
    requires ClosingGlobal(cs, rest) && rest != []
    requires LocalBind(cs, 0, cs.references[rest[0]].name).Some?
    requires st2 == ResolveTo(cs, rest[0], LocalBind(cs, 0, cs.references[rest[0]].name).value)
    ensures WF(st2) && st2.stack == [] && IdsBelow(rest[1..], |st2.references|) && ClosedFrame(cs, st2) &&
      Rooted(st2) && Owned(st2) && VarRefsExact(st2) && st2.scopes == cs.scopes &&
      |st2.references| == |cs.references| &&
      (forall r | 0 <= r < |cs.references| && r != rest[0] :: st2.references[r] == cs.references[r]) &&
      st2.references[rest[0]].resolved == LocalBind(st2, 0, cs.references[rest[0]].name) &&
      st2.references[rest[0]].from == cs.references[rest[0]].from &&
      st2.references[rest[0]].name == cs.references[rest[0]].name
  {
    ShapeKept(cs, st2);
    LocalBindKept(cs, st2, 0, cs.references[rest[0]].name);
  }

  lemma GlobalBindLex(cs: State, rest: seq<nat>, st2: State)
    requires ClosingGlobal(cs, rest) && rest != []
    requires LocalBind(cs, 0, cs.references[rest[0]].name).Some?
    requires st2 == ResolveTo(cs, rest[0], LocalBind(cs, 0, cs.references[rest[0]].name).value)
    requires WF(st2) && st2.stack == [] && ClosedFrame(cs, st2) && Rooted(st2) && st2.scopes == cs.scopes
    requires |st2.references| == |cs.references|
    requires forall r | 0 <= r < |cs.references| && r != rest[0] :: st2.references[r] == cs.references[r]
    requires st2.references[rest[0]].resolved == LocalBind(st2, 0, cs.references[rest[0]].name)
    requires st2.references[rest[0]].from == cs.references[rest[0]].from
    requires st2.references[rest[0]].name == cs.references[rest[0]].name
    ensures ResolvedLexically(st2)
  {
    var r0 := rest[0];
    var ref := cs.references[r0];
    FrameChain(cs, st2, ref.from, 0, ref.name);
    ResolveRoot(st2, ref.name);
    ChainResolve(st2, ref.from, 0, ref.name);
    AllClosed(st2, ref.from, ref.name);
    forall r | 0 <= r < |st2.references| && st2.references[r].resolved.Some?
      ensures WalkClosed(st2, st2.references[r].from, st2.references[r].name) &&
              Resolve(st2, st2.references[r].from, st2.references[r].name) == st2.references[r].resolved
    {
      if r != r0 {
        FrameResolve(cs, st2, cs.references[r].from, cs.references[r].name);
      }
    }
  }

  lemma GlobalBindThrough(cs: State, rest: seq<nat>, st2: State)
    requires ClosingGlobal(cs, rest) && rest != []
    requires LocalBind(cs, 0, cs.references[rest[0]].name).Some?
    requires WF(st2) && st2.stack == [] && ClosedFrame(cs, st2) && Rooted(st2) && st2.scopes == cs.scopes
    requires |st2.references| == |cs.references|
    requires forall r | 0 <= r < |cs.references| && r != rest[0] :: st2.references[r] == cs.references[r]
    requires st2.references[rest[0]].resolved == LocalBind(st2, 0, cs.references[rest[0]].name)
    requires st2.references[rest[0]].from == cs.references[rest[0]].from
    requires st2.references[rest[0]].name == cs.references[rest[0]].name
    ensures forall k | 0 <= k < |st2.scopes[0].through| ::
       var ref := st2.references[st2.scopes[0].through[k]];
       ref.resolved.None? && Resolve(st2, ref.from, ref.name).None?
  {
    var r0 := rest[0];
    var ref := cs.references[r0];
    forall k | 0 <= k < |st2.scopes[0].through|
      ensures var ref2 := st2.references[st2.scopes[0].through[k]];
        ref2.resolved.None? && Resolve(st2, ref2.from, ref2.name).None?
    {
      var t := cs.scopes[0].through[k];
      if t == r0 {
        ResolveRoot(cs, ref.name);
        ChainResolve(cs, ref.from, 0, ref.name);
        assert false;
      }
      AllClosed(cs, cs.references[t].from, cs.references[t].name);
      FrameResolve(cs, st2, cs.references[t].from, cs.references[t].name);
    }
  }

  lemma GlobalBindRest(cs: State, rest: seq<nat>, st2: State)
    requires ClosingGlobal(cs, rest) && rest != []
    requires LocalBind(cs, 0, cs.references[rest[0]].name).Some?
    requires WF(st2) && st2.stack == [] && ClosedFrame(cs, st2) && Rooted(st2) && st2.scopes == cs.scopes
    requires |st2.references| == |cs.references|
    requires forall r | 0 <= r < |cs.references| && r != rest[0] :: st2.references[r] == cs.references[r]
    requires st2.references[rest[0]].resolved == LocalBind(st2, 0, cs.references[rest[0]].name)
    requires st2.references[rest[0]].from == cs.references[rest[0]].from
    requires st2.references[rest[0]].name == cs.references[rest[0]].name
    ensures forall k | 0 <= k < |rest[1..]| ::
       var ref := st2.references[rest[1..][k]];
       ChainClear(st2, ref.from, 0, ref.name) && (ref.resolved.None? || ref.resolved == LocalBind(st2, 0, ref.name))
    ensures forall r | 0 <= r < |st2.references| && st2.references[r].resolved.None? ::
       r in rest[1..] || r in st2.scopes[0].through
  {
    LocalBindKept(cs, st2, 0, cs.references[rest[0]].name);
    forall k | 0 <= k < |rest| - 1
      ensures var ref2 := st2.references[rest[1..][k]];
        ChainClear(st2, ref2.from, 0, ref2.name) && (ref2.resolved.None? || ref2.resolved == LocalBind(st2, 0, ref2.name))
    {
      var ref2 := cs.references[rest[k + 1]];
      FrameChain(cs, st2, ref2.from, 0, ref2.name);
      LocalBindKept(cs, st2, 0, ref2.name);
    }
    forall r | 0 <= r < |st2.references| && st2.references[r].resolved.None?
      ensures r in rest[1..] || r in st2.scopes[0].through
    {
      assert r in rest ==> r == rest[0] || r in rest[1..];
    }
  }

  lemma GlobalBindStep(cs: State, rest: seq<nat>)
    requires ClosingGlobal(cs, rest) && rest != []
    requires LocalBind(cs, 0, cs.references[rest[0]].name).Some?
    ensures ClosingGlobal(ResolveTo(cs, rest[0], LocalBind(cs, 0, cs.references[rest[0]].name).value), rest[1..])
  {
    var st2 := ResolveTo(cs, rest[0], LocalBind(cs, 0, cs.references[rest[0]].name).value);
    GlobalBindShape(cs, rest, st2);
    GlobalBindLex(cs, rest, st2);
    GlobalBindThrough(cs, rest, st2);
    GlobalBindRest(cs, rest, st2);
  }

  /** At the global scope `r0` goes through: every reference in `through` stays unresolvable. */
  lemma GlobalPassThrough(cs: State, rest: seq<nat>, st2: State)
    requires ClosingGlobal(cs, rest) && rest != []
    requires LocalBind(cs, 0, cs.references[rest[0]].name).None?
    requires st2 == Delegate(cs, 0, rest[0])
    requires st2.scopes == cs.scopes[0 := cs.scopes[0].(through := cs.scopes[0].through + [rest[0]])]
    ensures forall k | 0 <= k < |st2.scopes[0].through| ::
      var ref2 := st2.references[st2.scopes[0].through[k]];
      ref2.resolved.None? && Resolve(st2, ref2.from, ref2.name).None?
  {
    var ref := cs.references[rest[0]];
    ResolveRoot(cs, ref.name);
    ChainResolve(cs, ref.from, 0, ref.name);
    forall k | 0 <= k < |st2.scopes[0].through|
      ensures var ref2 := st2.references[st2.scopes[0].through[k]];
        ref2.resolved.None? && Resolve(st2, ref2.from, ref2.name).None?
    {
      var t := st2.scopes[0].through[k];
      AllClosed(cs, cs.references[t].from, cs.references[t].name);
      FrameResolve(cs, st2, cs.references[t].from, cs.references[t].name);
    }
  }

  /** ... and the references still to be handled keep their chains clear. */
  lemma GlobalPassRest(cs: State, rest: seq<nat>, st2: State)
    requires ClosingGlobal(cs, rest) && rest != []
    requires st2 == Delegate(cs, 0, rest[0])
    requires st2.scopes == cs.scopes[0 := cs.scopes[0].(through := cs.scopes[0].through + [rest[0]])]
    ensures forall k | 0 <= k < |rest| - 1 ::
      var ref2 := st2.references[rest[1..][k]];
      ChainClear(st2, ref2.from, 0, ref2.name) && (ref2.resolved.None? || ref2.resolved == LocalBind(st2, 0, ref2.name))
  {
    forall k | 0 <= k < |rest| - 1
      ensures var ref2 := st2.references[rest[1..][k]];
        ChainClear(st2, ref2.from, 0, ref2.name) && (ref2.resolved.None? || ref2.resolved == LocalBind(st2, 0, ref2.name))
    {
      var ref2 := cs.references[rest[k + 1]];
      FrameChain(cs, st2, ref2.from, 0, ref2.name);
      LocalBindKept(cs, st2, 0, ref2.name);
    }
  }

  lemma GlobalPassStep(cs: State, rest: seq<nat>)
    requires ClosingGlobal(cs, rest) && rest != []
    requires LocalBind(cs, 0, cs.references[rest[0]].name).None?
    ensures ClosingGlobal(Delegate(cs, 0, rest[0]), rest[1..])
  {
    var r0 := rest[0];
    var st2 := Delegate(cs, 0, r0);
    assert st2.scopes == cs.scopes[0 := cs.scopes[0].(through := cs.scopes[0].through + [r0])];
    ShapeKept(cs, st2);
    GlobalPassThrough(cs, rest, st2);
    GlobalPassRest(cs, rest, st2);
    forall r | 0 <= r < |st2.references| && st2.references[r].resolved.None?
      ensures r in rest[1..] || r in st2.scopes[0].through
    {
      assert r in rest ==> r == rest[0] || r in rest[1..];
    }
    TransferSettled(cs, st2);
  }

  lemma {:induction false} CloseRefsGlobal(cs: State, rest: seq<nat>)
    requires ClosingGlobal(cs, rest)
    ensures ClosingGlobal(CloseRefs(cs, 0, rest), [])
    decreases |rest|
  {
    if rest != [] {
      var r0 := rest[0];
      CloseRefCases(cs, 0, r0);
      if LocalBind(cs, 0, cs.references[r0].name).Some? {
        GlobalBindStep(cs, rest);
      } else {
        GlobalPassStep(cs, rest);
      }
      CloseRefsGlobal(CloseRef(cs, 0, r0), rest[1..]);
    }
  }

  lemma GlobalEndKept(cs: State, st2: State)
    requires ClosingGlobal(cs, [])
    requires WF(st2) && st2.stack == [] && Rooted(st2) && Owned(st2) && VarRefsExact(st2) && ClosedFrame(cs, st2)
    requires st2.references == cs.references && st2.scopes[0].through == cs.scopes[0].through
    ensures Final(st2)
  {
    forall r | 0 <= r < |st2.references|
      ensures st2.references[r].resolved == Resolve(st2, st2.references[r].from, st2.references[r].name)
    {
      AllClosed(cs, cs.references[r].from, cs.references[r].name);
      FrameResolve(cs, st2, cs.references[r].from, cs.references[r].name);
      if cs.references[r].resolved.None? {
        var k :| 0 <= k < |cs.scopes[0].through| && cs.scopes[0].through[k] == r;
      }
    }
    forall r | 0 <= r < |st2.references| && r in st2.scopes[0].through
      ensures st2.references[r].resolved.None?
    {
      var k :| 0 <= k < |cs.scopes[0].through| && cs.scopes[0].through[k] == r;
    }
  }

  lemma GlobalEnd(cs: State)
    requires ClosingGlobal(cs, [])
    ensures Final(cs.(scopes := cs.scopes[0 := cs.scopes[0].(left := [])]))
  {
    var st2 := cs.(scopes := cs.scopes[0 := cs.scopes[0].(left := [])]);
    ShapeKept(cs, st2);
    GlobalEndKept(cs, st2);
  }

  /** Closing the global scope completes the analysis. */
  lemma GlobalClose(st: State)
    requires Inv(st) && |st.stack| == 1
    ensures Final(Close(st))
  {
    assert Current(st) == 0 by {
      assert st.stack[0] == 0;
    }
    var popped := st.(stack := st.stack[..0]);
    assert popped == st.(stack := []);
    GlobalStart(st);
    CloseRefsGlobal(popped, st.scopes[0].left);
    GlobalEnd(CloseRefs(popped, 0, st.scopes[0].left));
  }
}
