/** What the finished analysis binds, stated the way the reference tests look at it: a
    reference with no declaration of its name between the scope it occurs in and a scope
    `s` binds to the variable of that name in `s`. When `s` is the global scope, this holds
    for let/const/class bindings, while a var or function binding is never bound and the
    reference stays in the global `through`. */
module Bindings {
  import opened Ast
  import opened Engine
  import opened Resolution
  import opened Closing
  import opened Bookkeeping
  import opened Traversal
  import opened ShapeTraversal

  /** In a table without two variables of one name, lookup finds the one named `x`. */
  lemma {:induction false} LookupUnique(vars: seq<Variable>, ids: seq<nat>, v: nat, x: string)
    requires IdsBelow(ids, |vars|) && v in ids && vars[v].name == x
    requires forall i, j | 0 <= i < j < |ids| :: vars[ids[i]].name != vars[ids[j]].name
    ensures Lookup(vars, ids, x) == Some(v)
    decreases |ids|
  {
    if ids[0] != v {
      var j :| 0 <= j < |ids| && ids[j] == v;
      assert vars[ids[0]].name != vars[ids[j]].name;
      LookupUnique(vars, ids[1..], v, x);
    }
  }

  /** Lookup never yields a global variable that the global scope does not bind itself. */
  lemma {:induction false} ResolveOwner(st: State, t: nat, x: string)
    requires WF(st) && Rooted(st) && Owned(st) && t < |st.scopes|
    ensures var b := Resolve(st, t, x);
      b.Some? ==> st.variables[b.value].scope != 0 || StaticForGlobal(st.variables[b.value])
    decreases t
  {
    var found := Lookup(st.variables, st.scopes[t].variables, x);
    if found.Some? {
      var k :| 0 <= k < |st.scopes[t].variables| && st.scopes[t].variables[k] == found.value;
      assert st.variables[found.value].scope == t;
    } else if st.scopes[t].upper.Some? {
      ResolveOwner(st, st.scopes[t].upper.value, x);
    }
  }

  /** The facts about the finished analysis that the lemmas below use. */
  lemma Finished(p: Program)
    ensures var g := Analyze(p);
      Final(g) && Shape(g) && |g.scopes| > 0 && g.scopes[0].kind == GlobalScope
  {
    AnalyzeResolves(p);
    AnalyzeShape(p);
  }

  /** A reference that no declaration shadows on its way out to the variable `v` of scope
      `s` binds to `v`, provided `s` is not the global scope or `v` is a let/const/class
      binding; `v` then lists it and the global scope does not pass it through. */
  lemma BoundWhenVisible(p: Program, r: nat, s: nat, v: nat)
    requires var g := Analyze(p);
      r < |g.references| && s < |g.scopes| && v in g.scopes[s].variables &&
      g.variables[v].name == g.references[r].name &&
      ChainClear(g, g.references[r].from, s, g.references[r].name)
    requires var g := Analyze(p); s != 0 || StaticForGlobal(g.variables[v])
    ensures var g := Analyze(p);
      g.references[r].resolved == Some(v) && r in g.variables[v].references && r !in g.scopes[0].through
  {
    var g := Analyze(p);
    var ref := g.references[r];
    Finished(p);
    ChainResolve(g, ref.from, s, ref.name);
    LookupUnique(g.variables, g.scopes[s].variables, v, ref.name);
    assert s != 0 ==> g.scopes[s].kind != GlobalScope;
  }

  /** A reference that no declaration shadows on its way out to a global var or function
      binding is left unbound and is passed through the global scope. */
  lemma UnboundWhenDynamicGlobal(p: Program, r: nat, v: nat)
    requires var g := Analyze(p);
      r < |g.references| && v in g.scopes[0].variables &&
      g.variables[v].name == g.references[r].name && !StaticForGlobal(g.variables[v]) &&
      ChainClear(g, g.references[r].from, 0, g.references[r].name)
    ensures var g := Analyze(p);
      g.references[r].resolved.None? && r in g.scopes[0].through
  {
    var g := Analyze(p);
    var ref := g.references[r];
    Finished(p);
    ChainResolve(g, ref.from, 0, ref.name);
    LookupUnique(g.variables, g.scopes[0].variables, v, ref.name);
  }

  /** No reference is ever bound to a global var or function binding. */
  lemma DynamicGlobalsUnreferenced(p: Program)
    ensures var g := Analyze(p);
      forall v | 0 <= v < |g.variables| && g.variables[v].scope == 0 && !StaticForGlobal(g.variables[v]) ::
        g.variables[v].references == []
  {
    Finished(p);
    FinalDynamicUnreferenced(Analyze(p));
  }

  lemma FinalDynamicUnreferenced(g: State)
    requires Final(g)
    ensures forall v | 0 <= v < |g.variables| && g.variables[v].scope == 0 && !StaticForGlobal(g.variables[v]) ::
      g.variables[v].references == []
  {
    forall v | 0 <= v < |g.variables| && g.variables[v].scope == 0 && !StaticForGlobal(g.variables[v])
      ensures g.variables[v].references == []
    {
      if g.variables[v].references != [] {
        var r := g.variables[v].references[0];
        assert g.references[r].resolved == Some(v);
        ResolveOwner(g, g.references[r].from, g.references[r].name);
        assert false;
      }
    }
  }

  /** Every reference is bound to a variable of its own name, which lists it. */
  lemma BoundToOwnName(p: Program)
    ensures var g := Analyze(p);
      forall r | 0 <= r < |g.references| && g.references[r].resolved.Some? ::
        var v := g.references[r].resolved.value;
        v < |g.variables| && g.variables[v].name == g.references[r].name && r in g.variables[v].references
  {
    Finished(p);
  }
}
