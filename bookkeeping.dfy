/** Bookkeeping facts the analyser keeps besides resolution: each scope's reference list
    holds exactly the references occurring in it, in creation order, and its variable table
    exactly its variables, in definition order, without two of the same name; a function
    scope's table starts with `arguments`; a read-only reference has neither a write
    expression nor an `init` flag, and a write has both. */
module Bookkeeping {
  import opened Ast
  import opened Engine

  /** The indices of the references occurring in scope `s`, in creation order. */
  function RefsFrom(refs: seq<Reference>, s: nat): (ids: seq<nat>)
    ensures forall k | 0 <= k < |ids| :: ids[k] < |refs| && refs[ids[k]].from == s
    ensures forall r | 0 <= r < |refs| && refs[r].from == s :: r in ids
  {
    if refs == [] then []
    else RefsFrom(refs[..|refs| - 1], s) + (if refs[|refs| - 1].from == s then [|refs| - 1] else [])
  }

  /** The indices of the variables of scope `s`, in definition order. */
  function VarsOf(vars: seq<Variable>, s: nat): (ids: seq<nat>)
    ensures forall k | 0 <= k < |ids| :: ids[k] < |vars| && vars[ids[k]].scope == s
    ensures forall v | 0 <= v < |vars| && vars[v].scope == s :: v in ids
  {
    if vars == [] then []
    else VarsOf(vars[..|vars| - 1], s) + (if vars[|vars| - 1].scope == s then [|vars| - 1] else [])
  }

  /** A reference's write expression and `init` flag are present exactly when it writes. */
  predicate FlagsAgree(ref: Reference) {
    if ref.flag == Read then ref.writeExpr.None? && ref.init.None?
    else ref.writeExpr.Some? && ref.init.Some?
  }

  /** Each scope's lists hold exactly its references and its variables, in order. */
  ghost predicate ListsExact(st: State)
    requires WF(st)
  {
    forall s | 0 <= s < |st.scopes| ::
      st.scopes[s].references == RefsFrom(st.references, s) && st.scopes[s].variables == VarsOf(st.variables, s)
  }

  ghost predicate AllFlagsAgree(st: State) {
    forall r | 0 <= r < |st.references| :: FlagsAgree(st.references[r])
  }

  /** A function scope's table starts with `arguments`. */
  ghost predicate ArgumentsFirst(st: State)
    requires WF(st)
  {
    forall s | 0 <= s < |st.scopes| && st.scopes[s].kind == FunctionScope ::
      |st.scopes[s].variables| > 0 && st.variables[st.scopes[s].variables[0]].name == "arguments"
  }

  /** No scope's table lists two variables of the same name. */
  ghost predicate NamesUnique(st: State)
    requires WF(st)
  {
    forall s, i, j | 0 <= s < |st.scopes| && 0 <= i < j < |st.scopes[s].variables| ::
      st.variables[st.scopes[s].variables[i]].name != st.variables[st.scopes[s].variables[j]].name
  }

  ghost predicate Shape(st: State)
    requires WF(st)
  {
    ListsExact(st) && AllFlagsAgree(st) && ArgumentsFirst(st) && NamesUnique(st)
  }

  // ---------------------------------------------------------------------------------
  // The orderings read one field only

  lemma {:induction false} RefsFromFrame(refs1: seq<Reference>, refs2: seq<Reference>, s: nat)
    requires |refs1| == |refs2| && forall r | 0 <= r < |refs1| :: refs2[r].from == refs1[r].from
    ensures RefsFrom(refs2, s) == RefsFrom(refs1, s)
    decreases |refs1|
  {
    if refs1 != [] {
      RefsFromFrame(refs1[..|refs1| - 1], refs2[..|refs2| - 1], s);
    }
  }

  lemma {:induction false} VarsOfFrame(vars1: seq<Variable>, vars2: seq<Variable>, s: nat)
    requires |vars1| == |vars2| && forall v | 0 <= v < |vars1| :: vars2[v].scope == vars1[v].scope
    ensures VarsOf(vars2, s) == VarsOf(vars1, s)
    decreases |vars1|
  {
    if vars1 != [] {
      VarsOfFrame(vars1[..|vars1| - 1], vars2[..|vars2| - 1], s);
    }
  }

  lemma {:induction false} RefsFromNone(refs: seq<Reference>, s: nat)
    requires forall r | 0 <= r < |refs| :: refs[r].from != s
    ensures RefsFrom(refs, s) == []
    decreases |refs|
  {
    if refs != [] {
      RefsFromNone(refs[..|refs| - 1], s);
    }
  }

  lemma {:induction false} VarsOfNone(vars: seq<Variable>, s: nat)
    requires forall v | 0 <= v < |vars| :: vars[v].scope != s
    ensures VarsOf(vars, s) == []
    decreases |vars|
  {
    if vars != [] {
      VarsOfNone(vars[..|vars| - 1], s);
    }
  }

  lemma RefsFromAppend(refs: seq<Reference>, ref: Reference, s: nat)
    ensures RefsFrom(refs + [ref], s) == RefsFrom(refs, s) + (if ref.from == s then [|refs|] else [])
  {
    assert (refs + [ref])[..|refs|] == refs;
  }

  lemma VarsOfAppend(vars: seq<Variable>, v: Variable, s: nat)
    ensures VarsOf(vars + [v], s) == VarsOf(vars, s) + (if v.scope == s then [|vars|] else [])
  {
    assert (vars + [v])[..|vars|] == vars;
  }

  // ---------------------------------------------------------------------------------
  // The primitive steps keep the bookkeeping

  /** Defining a name keeps the lists, flags and unique names. */
  lemma DefineLists(st: State, target: nat, name: string, def: Option<DefKind>)
    requires WF(st) && ListsExact(st) && AllFlagsAgree(st) && NamesUnique(st) && target < |st.scopes|
    ensures var st2 := Define(st, target, name, def);
      ListsExact(st2) && AllFlagsAgree(st2) && NamesUnique(st2)
  {
    var st2 := Define(st, target, name, def);
    match Lookup(st.variables, st.scopes[target].variables, name)
    case Some(v) =>
      DefineOldShape(st, v, if def.Some? then [def.value] else [], st2);
    case None =>
      var x := Variable(name, target, if def.Some? then [def.value] else [], []);
      DefineNewShape(st, target, x, st2);
  }

  /** Defining a name already in the table adds to its definitions only. */
  lemma DefineOldShape(st: State, v: nat, defs: seq<DefKind>, st2: State)
    requires WF(st) && ListsExact(st) && AllFlagsAgree(st) && NamesUnique(st) && v < |st.variables|
    requires st2 == st.(variables := st.variables[v := st.variables[v].(defs := st.variables[v].defs + defs)])
    requires WF(st2)
    ensures ListsExact(st2) && AllFlagsAgree(st2) && NamesUnique(st2)
  {
    VarsOfFrameAll(st.variables, st2.variables);
  }

  /** Define changes no table but the target's, and that one only by appending. */
  lemma DefineTables(st: State, target: nat, name: string, def: Option<DefKind>)
    requires WF(st) && target < |st.scopes|
    ensures var st2 := Define(st, target, name, def);
      |st2.variables| >= |st.variables| &&
      (forall v | 0 <= v < |st.variables| :: st2.variables[v].name == st.variables[v].name) &&
      (forall s | 0 <= s < |st.scopes| && s != target :: st2.scopes[s] == st.scopes[s]) &&
      st2.scopes[target].kind == st.scopes[target].kind &&
      |st2.scopes[target].variables| >= |st.scopes[target].variables| &&
      st2.scopes[target].variables[..|st.scopes[target].variables|] == st.scopes[target].variables
  {
  }

  lemma DefineShape(st: State, target: nat, name: string, def: Option<DefKind>)
    requires WF(st) && Shape(st) && target < |st.scopes|
    ensures Shape(Define(st, target, name, def))
  {
    DefineLists(st, target, name, def);
    DefineTables(st, target, name, def);
    DefineArgs(st, target, Define(st, target, name, def));
  }

  lemma DefineArgs(st: State, target: nat, st2: State)
    requires WF(st) && ArgumentsFirst(st) && target < |st.scopes| && WF(st2) && |st2.scopes| == |st.scopes|
    requires |st2.variables| >= |st.variables|
    requires forall v | 0 <= v < |st.variables| :: st2.variables[v].name == st.variables[v].name
    requires forall s | 0 <= s < |st.scopes| && s != target :: st2.scopes[s] == st.scopes[s]
    requires st2.scopes[target].kind == st.scopes[target].kind
    requires |st2.scopes[target].variables| >= |st.scopes[target].variables|
    requires st2.scopes[target].variables[..|st.scopes[target].variables|] == st.scopes[target].variables
    ensures ArgumentsFirst(st2)
  {
    forall s | 0 <= s < |st2.scopes| && st2.scopes[s].kind == FunctionScope
      ensures |st2.scopes[s].variables| > 0 && st2.variables[st2.scopes[s].variables[0]].name == "arguments"
    {
      if s == target {
        assert st2.scopes[s].variables[0] == st2.scopes[target].variables[..|st.scopes[target].variables|][0];
      }
    }
  }

  /** Defining a name not yet in the table appends a variable to it. */
  lemma DefineNewShape(st: State, target: nat, x: Variable, st2: State)
    requires WF(st) && ListsExact(st) && NamesUnique(st) && target < |st.scopes| && x.scope == target
    requires Lookup(st.variables, st.scopes[target].variables, x.name).None?
    requires st2 == st.(scopes := st.scopes[target := st.scopes[target].(variables := st.scopes[target].variables + [|st.variables|])],
                        variables := st.variables + [x])
    requires WF(st2)
    ensures ListsExact(st2) && NamesUnique(st2)
  {
    forall s | 0 <= s < |st.scopes|
      ensures st2.scopes[s].variables == VarsOf(st2.variables, s)
    {
      VarsOfAppend(st.variables, x, s);
    }
    forall s, i, j | 0 <= s < |st2.scopes| && 0 <= i < j < |st2.scopes[s].variables|
      ensures st2.variables[st2.scopes[s].variables[i]].name != st2.variables[st2.scopes[s].variables[j]].name
    {
      if s == target && j == |st.scopes[s].variables| {
        assert st2.scopes[s].variables[i] == st.scopes[s].variables[i];
      }
    }
  }

  lemma VarsOfFrameAll(vars1: seq<Variable>, vars2: seq<Variable>)
    requires |vars1| == |vars2| && forall v | 0 <= v < |vars1| :: vars2[v].scope == vars1[v].scope
    ensures forall s: nat :: VarsOf(vars2, s) == VarsOf(vars1, s)
  {
    forall s: nat
      ensures VarsOf(vars2, s) == VarsOf(vars1, s)
    {
      VarsOfFrame(vars1, vars2, s);
    }
  }

  lemma RefsFromFrameAll(refs1: seq<Reference>, refs2: seq<Reference>)
    requires |refs1| == |refs2| && forall r | 0 <= r < |refs1| :: refs2[r].from == refs1[r].from
    ensures forall s: nat :: RefsFrom(refs2, s) == RefsFrom(refs1, s)
  {
    forall s: nat
      ensures RefsFrom(refs2, s) == RefsFrom(refs1, s)
    {
      RefsFromFrame(refs1, refs2, s);
    }
  }

  lemma PushShape(st: State, kind: ScopeKind, st2: State)
    requires Ready(st) && Shape(st) && kind != GlobalScope
    requires st2 == st.(scopes := st.scopes + [Scope(kind, Some(Current(st)), if kind == FunctionScope then |st.scopes| else st.scopes[Current(st)].variableScope, [], [], [], [])],
                        stack := st.stack + [|st.scopes|])
    ensures WF(st2) && ListsExact(st2) && AllFlagsAgree(st2) && NamesUnique(st2)
    ensures kind != FunctionScope ==> ArgumentsFirst(st2)
  {
    PushSame(st, st2);
    PushLists(st, st2);
    PushNames(st, st2);
    if kind != FunctionScope {
      PushArgs(st, st2);
    }
  }

  lemma PushSame(st: State, st2: State)
    requires WF(st) && WF(st2) && |st2.scopes| == |st.scopes| + 1 && st2.scopes[..|st.scopes|] == st.scopes
    ensures forall s | 0 <= s < |st.scopes| :: st2.scopes[s] == st.scopes[s]
  {
    forall s | 0 <= s < |st.scopes|
      ensures st2.scopes[s] == st.scopes[s]
    {
      assert st2.scopes[..|st.scopes|][s] == st2.scopes[s];
    }
  }

  lemma PushLists(st: State, st2: State)
    requires WF(st) && ListsExact(st) && WF(st2)
    requires |st2.scopes| == |st.scopes| + 1 && st2.references == st.references && st2.variables == st.variables
    requires forall s | 0 <= s < |st.scopes| :: st2.scopes[s] == st.scopes[s]
    requires st2.scopes[|st.scopes|].variables == [] && st2.scopes[|st.scopes|].references == []
    ensures ListsExact(st2)
  {
    forall s | 0 <= s < |st2.scopes|
      ensures st2.scopes[s].references == RefsFrom(st2.references, s)
      ensures st2.scopes[s].variables == VarsOf(st2.variables, s)
    {
      if s < |st.scopes| {
        assert st2.scopes[s] == st.scopes[s];
      } else {
        RefsFromNone(st.references, |st.scopes|);
        VarsOfNone(st.variables, |st.scopes|);
      }
    }
  }

  lemma PushNames(st: State, st2: State)
    requires WF(st) && NamesUnique(st) && WF(st2)
    requires |st2.scopes| == |st.scopes| + 1 && st2.variables == st.variables
    requires forall s | 0 <= s < |st.scopes| :: st2.scopes[s] == st.scopes[s]
    requires st2.scopes[|st.scopes|].variables == []
    ensures NamesUnique(st2)
  {
  }

  lemma PushArgs(st: State, st2: State)
    requires WF(st) && ArgumentsFirst(st) && WF(st2)
    requires |st2.scopes| == |st.scopes| + 1 && st2.variables == st.variables
    requires forall s | 0 <= s < |st.scopes| :: st2.scopes[s] == st.scopes[s]
    requires st2.scopes[|st.scopes|].kind != FunctionScope
    ensures ArgumentsFirst(st2)
  {
  }

  lemma NestShape(st: State, kind: ScopeKind)
    requires Ready(st) && Shape(st) && kind != GlobalScope
    ensures Shape(NestScope(st, kind))
  {
    var cur := Current(st);
    var n := |st.scopes|;
    var vs := if kind == FunctionScope then n else st.scopes[cur].variableScope;
    var entered := st.(scopes := st.scopes + [Scope(kind, Some(cur), vs, [], [], [], [])], stack := st.stack + [n]);
    PushShape(st, kind, entered);
    if kind == FunctionScope {
      ArgumentsShape(st, entered);
    }
  }

  /** Defining `arguments` in a freshly pushed function scope. */
  lemma ArgumentsShape(st: State, entered: State)
    requires Ready(st) && Shape(st)
    requires entered == st.(scopes := st.scopes + [Scope(FunctionScope, Some(Current(st)), |st.scopes|, [], [], [], [])],
                            stack := st.stack + [|st.scopes|])
    ensures WF(entered) && Shape(Define(entered, |st.scopes|, "arguments", None))
  {
    var n := |st.scopes|;
    PushShape(st, FunctionScope, entered);
    PushSame(st, entered);
    var st2 := Define(entered, n, "arguments", None);
    DefineLists(entered, n, "arguments", None);
    ArgumentsDefined(st, entered, st2);
  }

  lemma ArgumentsDefined(st: State, entered: State, st2: State)
    requires Ready(st) && ArgumentsFirst(st) && WF(entered) && WF(st2)
    requires |entered.scopes| == |st.scopes| + 1 && entered.variables == st.variables
    requires forall s | 0 <= s < |st.scopes| :: entered.scopes[s] == st.scopes[s]
    requires entered.scopes[|st.scopes|].variables == []
    requires st2 == Define(entered, |st.scopes|, "arguments", None)
    ensures ArgumentsFirst(st2)
  {
    var n := |st.scopes|;
    assert Lookup(entered.variables, [], "arguments").None?;
    assert st2.scopes[n].variables == [|st.variables|];
    assert st2.variables[|st.variables|].name == "arguments";
  }

  lemma ReferencingShape(st: State, name: string, flag: Flag, writeExpr: Option<Expr>, init: bool)
    requires Ready(st) && Shape(st) && (flag != Read ==> writeExpr.Some?)
    ensures Shape(Referencing(st, name, flag, writeExpr, init))
  {
    var st2 := Referencing(st, name, flag, writeExpr, init);
    var ref := st2.references[|st.references|];
    assert st2.references == st.references + [ref];
    forall s | 0 <= s < |st.scopes|
      ensures st2.scopes[s].references == RefsFrom(st2.references, s)
    {
      RefsFromAppend(st.references, ref, s);
    }
  }

  lemma ResolveToShape(st: State, r: nat, v: nat)
    requires WF(st) && Shape(st) && r < |st.references| && v < |st.variables|
    ensures Shape(ResolveTo(st, r, v))
  {
    var st2 := ResolveTo(st, r, v);
    RefsFromFrameAll(st.references, st2.references);
    VarsOfFrameAll(st.variables, st2.variables);
  }

  /** A step that changes only the pending and passed-on lists of scopes keeps the bookkeeping. */
  lemma TablesKept(st: State, st2: State)
    requires WF(st) && Shape(st) && WF(st2)
    requires st2.references == st.references && st2.variables == st.variables && |st2.scopes| == |st.scopes|
    requires forall s | 0 <= s < |st.scopes| ::
      st2.scopes[s].kind == st.scopes[s].kind && st2.scopes[s].references == st.scopes[s].references &&
      st2.scopes[s].variables == st.scopes[s].variables
    ensures Shape(st2)
  {
  }

  /** Handing a reference on touches only the `through` and `left` lists. */
  lemma DelegateTables(st: State, s: nat, r: nat)
    requires WF(st) && s < |st.scopes| && r < |st.references|
    ensures var d := Delegate(st, s, r);
      d.references == st.references && d.variables == st.variables && |d.scopes| == |st.scopes| &&
      forall t | 0 <= t < |st.scopes| ::
        d.scopes[t].kind == st.scopes[t].kind && d.scopes[t].references == st.scopes[t].references &&
        d.scopes[t].variables == st.scopes[t].variables
  {
    var sc := st.scopes[s];
    var scopes := if sc.upper.Some?
                  then st.scopes[sc.upper.value := st.scopes[sc.upper.value].(left := st.scopes[sc.upper.value].left + [r])]
                  else st.scopes;
    assert Delegate(st, s, r).scopes == scopes[s := scopes[s].(through := scopes[s].through + [r])];
  }

  lemma DelegateShape(st: State, s: nat, r: nat)
    requires WF(st) && Shape(st) && s < |st.scopes| && r < |st.references|
    ensures Shape(Delegate(st, s, r))
  {
    DelegateTables(st, s, r);
    TablesKept(st, Delegate(st, s, r));
  }

  lemma {:induction false} CloseRefsShape(st: State, s: nat, rs: seq<nat>)
    requires WF(st) && Shape(st) && s < |st.scopes| && IdsBelow(rs, |st.references|)
    ensures Shape(CloseRefs(st, s, rs))
    decreases |rs|
  {
    if rs != [] {
      var st1 := CloseRef(st, s, rs[0]);
      var found := Lookup(st.variables, st.scopes[s].variables, st.references[rs[0]].name);
      if found.Some? && (st.scopes[s].kind != GlobalScope || StaticForGlobal(st.variables[found.value])) {
        ResolveToShape(st, rs[0], found.value);
      } else {
        DelegateShape(st, s, rs[0]);
      }
      CloseRefsShape(st1, s, rs[1..]);
    }
  }

  lemma CloseShape(st: State)
    requires Ready(st) && Shape(st)
    ensures Shape(Close(st))
  {
    var s := Current(st);
    var popped := st.(stack := st.stack[..|st.stack| - 1]);
    TablesKept(st, popped);
    CloseRefsShape(popped, s, st.scopes[s].left);
    var settled := CloseRefs(popped, s, st.scopes[s].left);
    LeftCleared(settled, s);
  }

  lemma LeftCleared(st: State, s: nat)
    requires WF(st) && Shape(st) && s < |st.scopes|
    ensures var st2 := st.(scopes := st.scopes[s := st.scopes[s].(left := [])]);
      WF(st2) && Shape(st2)
  {
    TablesKept(st, st.(scopes := st.scopes[s := st.scopes[s].(left := [])]));
  }
}
