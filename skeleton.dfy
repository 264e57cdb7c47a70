/** Closing a scope settles references (their `resolved`, the variables' reference lists,
    `through` and `left`) and changes nothing else: which scopes exist and how they nest,
    which variables each scope holds with their names and definitions, and which
    references each scope records with their names, flags and write expressions. So the
    answer the lexical lookup gives is already fixed before any scope closes. */
module Skeletons {
  import opened Ast
  import opened Engine
  import opened Resolution

  /** `a` and `b` agree on everything closing a scope does not touch. */
  ghost predicate SameSkeleton(a: State, b: State) {
    |a.scopes| == |b.scopes| && |a.variables| == |b.variables| && |a.references| == |b.references| &&
    (forall s | 0 <= s < |a.scopes| ::
       a.scopes[s].kind == b.scopes[s].kind && a.scopes[s].upper == b.scopes[s].upper &&
       a.scopes[s].variables == b.scopes[s].variables && a.scopes[s].references == b.scopes[s].references) &&
    (forall v | 0 <= v < |a.variables| ::
       a.variables[v].name == b.variables[v].name && a.variables[v].defs == b.variables[v].defs) &&
    (forall r | 0 <= r < |a.references| ::
       a.references[r].name == b.references[r].name && a.references[r].from == b.references[r].from &&
       a.references[r].flag == b.references[r].flag && a.references[r].writeExpr == b.references[r].writeExpr &&
       a.references[r].init == b.references[r].init)
  }

  lemma SkeletonTrans(a: State, b: State, c: State)
    requires SameSkeleton(a, b) && SameSkeleton(b, c)
    ensures SameSkeleton(a, c)
  {
  }

  lemma CloseRefSkeleton(st: State, s: nat, r: nat)
    requires WF(st) && s < |st.scopes| && r < |st.references|
    ensures SameSkeleton(st, CloseRef(st, s, r))
  {
  }

  lemma {:induction false} CloseRefsSkeleton(st: State, s: nat, rs: seq<nat>)
    requires WF(st) && s < |st.scopes| && IdsBelow(rs, |st.references|)
    ensures SameSkeleton(st, CloseRefs(st, s, rs))
    decreases |rs|
  {
    if rs != [] {
      var next := CloseRef(st, s, rs[0]);
      CloseRefSkeleton(st, s, rs[0]);
      CloseRefsSkeleton(next, s, rs[1..]);
      SkeletonTrans(st, next, CloseRefs(next, s, rs[1..]));
    }
  }

  /** Closing the current scope keeps the skeleton and pops the scope. */
  lemma CloseSkeleton(st: State)
    requires Ready(st)
    ensures SameSkeleton(st, Close(st)) && Close(st).stack == st.stack[..|st.stack| - 1]
  {
    var s := Current(st);
    var popped := st.(stack := st.stack[..|st.stack| - 1]);
    var settled := CloseRefs(popped, s, st.scopes[s].left);
    assert Close(st) == settled.(scopes := settled.scopes[s := settled.scopes[s].(left := [])]);
    CloseRefsSkeleton(popped, s, st.scopes[s].left);
    SkeletonTrans(st, popped, settled);
    ClearLeftSkeleton(settled, s);
    SkeletonTrans(st, settled, Close(st));
  }

  lemma ClearLeftSkeleton(st: State, s: nat)
    requires s < |st.scopes|
    ensures SameSkeleton(st, st.(scopes := st.scopes[s := st.scopes[s].(left := [])]))
  {
  }

  lemma {:induction false} LookupSkeleton(a: State, b: State, ids: seq<nat>, x: string)
    requires SameSkeleton(a, b) && IdsBelow(ids, |a.variables|)
    ensures Lookup(a.variables, ids, x) == Lookup(b.variables, ids, x)
    decreases |ids|
  {
    if ids != [] {
      LookupSkeleton(a, b, ids[1..], x);
    }
  }

  /** The lexical lookup depends only on the skeleton. */
  lemma {:induction false} ResolveSkeleton(a: State, b: State, t: nat, x: string)
    requires WF(a) && WF(b) && SameSkeleton(a, b) && t < |a.scopes|
    ensures Resolve(a, t, x) == Resolve(b, t, x)
    decreases t
  {
    LookupSkeleton(a, b, a.scopes[t].variables, x);
    var found := Lookup(a.variables, a.scopes[t].variables, x);
    if found.Some? {
      assert StaticForGlobal(a.variables[found.value]) == StaticForGlobal(b.variables[found.value]);
    } else if a.scopes[t].upper.Some? {
      ResolveSkeleton(a, b, a.scopes[t].upper.value, x);
    }
  }
}
