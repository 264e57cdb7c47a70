/** What resolution means, independently of how the analyser performs it: a reference
    binds to the variable of its name in the nearest scope, from the one it occurs in
    outwards, whose table holds that name; a global variable is bound only when every one
    of its definitions is a let/const declarator or a class name.

    Invariant `Inv` below holds between any two steps of the traversal; it says that every
    reference bound so far is bound to the lexical answer and will stay so (all scopes that
    answer depends on are closed and closed scopes never change), and that every reference
    not yet bound waits in the innermost open scope around it, no closed scope on its way
    having its name. */
module Resolution {
  import opened Ast
  import opened Engine

  /** Lexical lookup from scope `t` outwards, with the global open-world exception. */
  ghost function Resolve(st: State, t: nat, name: string): (r: Option<nat>)
    requires WF(st) && t < |st.scopes|
    ensures r.Some? ==> r.value < |st.variables| && st.variables[r.value].name == name
    decreases t
  {
    var sc := st.scopes[t];
    var found := Lookup(st.variables, sc.variables, name);
    if found.Some? then
      if sc.kind == GlobalScope && !StaticForGlobal(st.variables[found.value]) then None else found
    else if sc.upper.Some? then Resolve(st, sc.upper.value, name)
    else None
  }

  /** Every scope the lookup of `name` from `t` consults is closed. */
  ghost predicate WalkClosed(st: State, t: nat, name: string)
    requires WF(st) && t < |st.scopes|
    decreases t
  {
    var sc := st.scopes[t];
    t !in st.stack &&
    (Lookup(st.variables, sc.variables, name).None? && sc.upper.Some? ==> WalkClosed(st, sc.upper.value, name))
  }

  /** The scopes from `t` outwards up to, not including, `s` are closed and none has `name`. */
  ghost predicate ChainClear(st: State, t: nat, s: nat, name: string)
    requires WF(st) && t < |st.scopes|
    decreases t
  {
    t == s ||
    (t !in st.stack && Lookup(st.variables, st.scopes[t].variables, name).None? &&
     st.scopes[t].upper.Some? && ChainClear(st, st.scopes[t].upper.value, s, name))
  }

  /** Scope 0 is the global scope and the only one without an enclosing scope; the open
      scopes form the chain of enclosing scopes of the current one, outermost first. */
  ghost predicate Rooted(st: State)
    requires WF(st)
  {
    |st.scopes| > 0 && st.scopes[0].kind == GlobalScope && st.scopes[0].upper.None? &&
    (forall s | 0 < s < |st.scopes| :: st.scopes[s].upper.Some? && st.scopes[s].kind != GlobalScope) &&
    (|st.stack| > 0 ==> st.stack[0] == 0) &&
    (forall i | 0 < i < |st.stack| :: st.scopes[st.stack[i]].upper == Some(st.stack[i - 1])) &&
    (forall i, j | 0 <= i < j < |st.stack| :: st.stack[i] < st.stack[j])
  }

  /** The innermost open scope enclosing (or equal to) `t`. */
  ghost function FirstOpen(st: State, t: nat): (s: nat)
    requires WF(st) && Rooted(st) && |st.stack| > 0 && t < |st.scopes|
    ensures s in st.stack && s <= t
    decreases t
  {
    assert st.stack[0] in st.stack;
    if t in st.stack then t else FirstOpen(st, st.scopes[t].upper.value)
  }

  /** Each variable listed in a scope's table belongs to that scope. */
  ghost predicate Owned(st: State)
    requires WF(st)
  {
    forall s, k | 0 <= s < |st.scopes| && 0 <= k < |st.scopes[s].variables| ::
      st.variables[st.scopes[s].variables[k]].scope == s
  }

  /** The scope that receives an open scope's `var` declarations is open too. */
  ghost predicate OpenVarScopes(st: State)
    requires WF(st)
  {
    forall i {:trigger st.scopes[st.stack[i]]} | 0 <= i < |st.stack| :: st.scopes[st.stack[i]].variableScope in st.stack
  }

  /** A reference waiting in an open scope is unbound and nothing closed below that scope binds it. */
  ghost predicate PendingClear(st: State)
    requires WF(st)
  {
    forall i, k | 0 <= i < |st.stack| && 0 <= k < |st.scopes[st.stack[i]].left| ::
      var r := st.scopes[st.stack[i]].left[k];
      st.references[r].resolved.None? && ChainClear(st, st.references[r].from, st.stack[i], st.references[r].name)
  }

  /** Every unbound reference waits in the innermost open scope around it. */
  ghost predicate Covered(st: State)
    requires WF(st) && Rooted(st) && |st.stack| > 0
  {
    forall r | 0 <= r < |st.references| && st.references[r].resolved.None? ::
      r in st.scopes[FirstOpen(st, st.references[r].from)].left
  }

  /** Every bound reference is bound to the lexical answer, which can no longer change. */
  ghost predicate ResolvedLexically(st: State)
    requires WF(st)
  {
    forall r | 0 <= r < |st.references| && st.references[r].resolved.Some? ::
      WalkClosed(st, st.references[r].from, st.references[r].name) &&
      Resolve(st, st.references[r].from, st.references[r].name) == st.references[r].resolved
  }

  /** A variable's reference list holds exactly the references bound to it. */
  ghost predicate VarRefsExact(st: State)
    requires WF(st)
  {
    forall v, r | 0 <= v < |st.variables| && 0 <= r < |st.references| ::
      r in st.variables[v].references <==> st.references[r].resolved == Some(v)
  }

  ghost predicate Inv(st: State) {
    Ready(st) && Rooted(st) && Owned(st) && OpenVarScopes(st) && PendingClear(st) &&
    Covered(st) && ResolvedLexically(st) && VarRefsExact(st) && st.scopes[0].through == []
  }

  // ---------------------------------------------------------------------------------
  // Frames: what a step may change without disturbing settled lookups

  /** `st2` extends `st1`: no scope loses its enclosing scope or kind, closed scopes stay
      closed with the same table, and variables keep their names (and, in closed scopes,
      their definitions). */
  ghost predicate ClosedFrame(st1: State, st2: State)
    requires WF(st1) && WF(st2)
  {
    |st1.scopes| <= |st2.scopes| && |st1.variables| <= |st2.variables| &&
    (forall s | 0 <= s < |st1.scopes| ::
       st2.scopes[s].upper == st1.scopes[s].upper && st2.scopes[s].kind == st1.scopes[s].kind) &&
    (forall s | 0 <= s < |st1.scopes| && s !in st1.stack ::
       s !in st2.stack && st2.scopes[s].variables == st1.scopes[s].variables) &&
    (forall v | 0 <= v < |st1.variables| ::
       st2.variables[v].name == st1.variables[v].name &&
       (st1.variables[v].scope !in st1.stack ==> st2.variables[v].defs == st1.variables[v].defs))
  }

  lemma {:induction false} LookupFrame(vars1: seq<Variable>, vars2: seq<Variable>, ids: seq<nat>, name: string)
    requires IdsBelow(ids, |vars1|) && |vars1| <= |vars2|
    requires forall v | 0 <= v < |vars1| :: vars2[v].name == vars1[v].name
    ensures Lookup(vars2, ids, name) == Lookup(vars1, ids, name)
    decreases |ids|
  {
    if ids != [] {
      LookupFrame(vars1, vars2, ids[1..], name);
    }
  }

  lemma {:induction false} FrameResolve(st1: State, st2: State, t: nat, name: string)
    requires WF(st1) && WF(st2) && Owned(st1) && ClosedFrame(st1, st2)
    requires t < |st1.scopes| && WalkClosed(st1, t, name)
    ensures WalkClosed(st2, t, name) && Resolve(st2, t, name) == Resolve(st1, t, name)
    decreases t
  {
    var ids := st1.scopes[t].variables;
    LookupFrame(st1.variables, st2.variables, ids, name);
    var found := Lookup(st1.variables, ids, name);
    if found.Some? {
      var k :| 0 <= k < |ids| && ids[k] == found.value;
      assert st1.variables[found.value].scope == t;
    } else if st1.scopes[t].upper.Some? {
      FrameResolve(st1, st2, st1.scopes[t].upper.value, name);
    }
  }

  lemma {:induction false} FrameChain(st1: State, st2: State, t: nat, s: nat, name: string)
    requires WF(st1) && WF(st2) && ClosedFrame(st1, st2)
    requires t < |st1.scopes| && ChainClear(st1, t, s, name)
    ensures ChainClear(st2, t, s, name)
    decreases t
  {
    if t != s {
      LookupFrame(st1.variables, st2.variables, st1.scopes[t].variables, name);
      FrameChain(st1, st2, st1.scopes[t].upper.value, s, name);
    }
  }

  /** FirstOpen reads only the enclosing-scope links and which scopes are open. */
  lemma {:induction false} FrameFirstOpen(st1: State, st2: State, t: nat)
    requires WF(st1) && Rooted(st1) && |st1.stack| > 0
    requires WF(st2) && Rooted(st2) && |st2.stack| > 0
    requires |st1.scopes| <= |st2.scopes|
    requires forall s | 0 <= s < |st1.scopes| :: st2.scopes[s].upper == st1.scopes[s].upper
    requires forall s | 0 <= s < |st1.scopes| :: s in st1.stack <==> s in st2.stack
    requires t < |st1.scopes|
    ensures FirstOpen(st2, t) == FirstOpen(st1, t)
    decreases t
  {
    if t !in st1.stack {
      FrameFirstOpen(st1, st2, st1.scopes[t].upper.value);
    }
  }

  /** Transfers the settled part of the invariant (bound references, waiting references'
      cleared chains) from `st1` to a state `st2` that frames it. */
  lemma {:induction false} TransferSettled(st1: State, st2: State)
    requires WF(st1) && WF(st2) && Owned(st1) && ClosedFrame(st1, st2)
    requires ResolvedLexically(st1)
    requires |st1.references| <= |st2.references|
    requires forall r | 0 <= r < |st1.references| ::
      st2.references[r].from == st1.references[r].from && st2.references[r].name == st1.references[r].name &&
      st2.references[r].resolved == st1.references[r].resolved
    requires forall r | |st1.references| <= r < |st2.references| :: st2.references[r].resolved.None?
    ensures ResolvedLexically(st2)
  {
    forall r | 0 <= r < |st2.references| && st2.references[r].resolved.Some?
      ensures WalkClosed(st2, st2.references[r].from, st2.references[r].name) &&
              Resolve(st2, st2.references[r].from, st2.references[r].name) == st2.references[r].resolved
    {
      FrameResolve(st1, st2, st1.references[r].from, st1.references[r].name);
    }
  }
}
