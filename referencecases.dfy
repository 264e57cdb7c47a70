/** The fifteen programs of the reference-resolution cases, each with the scope, variable
    and reference counts and the binding of the reference the case inspects. Every lemma
    instantiates one of the families proved in `ReferenceTests`. */
module ReferenceCases {
  import opened Ast
  import opened Engine
  import opened ReferenceTests

  // `let`, `const` and `var` declarations on global

  /** `let a = 0;` */
  lemma LetOnGlobal()
    ensures var g := Analyze(Program([VarDecl(Let, [Declarator(Id("a"), Some(Literal))])]));
      Counts(g, 1, 0, 1, 1) && Expected(g, 0, 0, "a", Some((0, 0)), true)
  {
    DeclarationOnGlobal(Let, Id("a"), Literal);
  }

  /** `let a = 0; function foo() { let b = a; }` */
  lemma LetReadInFunction()
    ensures var g := Analyze(Program([
        VarDecl(Let, [Declarator(Id("a"), Some(Literal))]),
        FunctionDecl("foo", Func([], [VarDecl(Let, [Declarator(Id("b"), Some(Ident("a")))])]))]));
      Counts(g, 2, 1, 2, 2) && Expected(g, 1, 1, "a", Some((0, 0)), false)
  {
    ReadInFunction(Let);
  }

  /** `let a = 0; function foo(b = a) {}` */
  lemma LetReadInDefaultParameter()
    ensures var g := Analyze(Program([
        VarDecl(Let, [Declarator(Id("a"), Some(Literal))]),
        FunctionDecl("foo", Func([WithDefault(Id("b"), Ident("a"))], []))]));
      Counts(g, 2, 1, 2, 2) && Expected(g, 1, 1, "a", Some((0, 0)), false)
  {
    ReadInDefaultParameter(Let);
  }

  /** `const a = 0;` */
  lemma ConstOnGlobal()
    ensures var g := Analyze(Program([VarDecl(Const, [Declarator(Id("a"), Some(Literal))])]));
      Counts(g, 1, 0, 1, 1) && Expected(g, 0, 0, "a", Some((0, 0)), true)
  {
    DeclarationOnGlobal(Const, Id("a"), Literal);
  }

  /** `const a = 0; function foo() { const b = a; }` */
  lemma ConstReadInFunction()
    ensures var g := Analyze(Program([
        VarDecl(Const, [Declarator(Id("a"), Some(Literal))]),
        FunctionDecl("foo", Func([], [VarDecl(Const, [Declarator(Id("b"), Some(Ident("a")))])]))]));
      Counts(g, 2, 1, 2, 2) && Expected(g, 1, 1, "a", Some((0, 0)), false)
  {
    ReadInFunction(Const);
  }

  /** `var a = 0;`: the write is left unbound. */
  lemma VarOnGlobal()
    ensures var g := Analyze(Program([VarDecl(Var, [Declarator(Id("a"), Some(Literal))])]));
      Counts(g, 1, 0, 1, 1) && Expected(g, 0, 0, "a", None, true)
  {
    DeclarationOnGlobal(Var, Id("a"), Literal);
  }

  /** `var a = 0; function foo() { var b = a; }`: the read is left unbound. */
  lemma VarReadInFunction()
    ensures var g := Analyze(Program([
        VarDecl(Var, [Declarator(Id("a"), Some(Literal))]),
        FunctionDecl("foo", Func([], [VarDecl(Var, [Declarator(Id("b"), Some(Ident("a")))])]))]));
      Counts(g, 2, 1, 2, 2) && Expected(g, 1, 1, "a", None, false)
  {
    ReadInFunction(Var);
  }

  // `function` and `class` declarations on global

  /** `function a() {} a();`: the read is left unbound. */
  lemma FunctionCalledOnGlobal()
    ensures var g := Analyze(Program([FunctionDecl("a", Func([], [])), ExprStmt(Call(Ident("a"), []))]));
      Counts(g, 2, 0, 1, 1) && Expected(g, 0, 0, "a", None, false)
  {
    CallOfGlobalFunction("a");
  }

  /** `function a() {} function foo() { let b = a(); }`: the read is left unbound. */
  lemma FunctionCalledInFunction()
    ensures var g := Analyze(Program([FunctionDecl("a", Func([], [])),
        FunctionDecl("foo", Func([], [VarDecl(Let, [Declarator(Id("b"), Some(Call(Ident("a"), [])))])]))]));
      Counts(g, 3, 2, 2, 2) && Expected(g, 2, 1, "a", None, false)
  {
    CallInFunction(Let);
  }

  /** `class A {} let b = new A();` */
  lemma ClassReadOnGlobal()
    ensures var g := Analyze(Program([ClassDecl("A"), VarDecl(Let, [Declarator(Id("b"), Some(New(Ident("A"), [])))])]));
      Counts(g, 2, 0, 2, 2) && Expected(g, 0, 1, "A", Some((0, 0)), false)
  {
    ClassOnGlobal(Let);
  }

  /** `class A {} function foo() { let b = new A(); }` */
  lemma ClassReadInFunction()
    ensures var g := Analyze(Program([ClassDecl("A"),
        FunctionDecl("foo", Func([], [VarDecl(Let, [Declarator(Id("b"), Some(New(Ident("A"), [])))])]))]));
      Counts(g, 3, 2, 2, 2) && Expected(g, 2, 1, "A", Some((0, 0)), false)
  {
    ClassInFunction(Let);
  }

  // `let` and `var` declarations in functions

  /** `function foo() { let a = 0; }` */
  lemma LetInFunction()
    ensures var g := Analyze(Program([FunctionDecl("foo", Func([], [VarDecl(Let, [Declarator(Id("a"), Some(Literal))])]))]));
      Counts(g, 2, 1, 2, 1) && Expected(g, 1, 0, "a", Some((1, 1)), true)
  {
    DeclarationInFunction(Let);
  }

  /** `function foo() { let a = 0; function bar() { let b = a; } }` */
  lemma LetInNestedFunction()
    ensures var g := Analyze(Program([FunctionDecl("foo", Func([], [
        VarDecl(Let, [Declarator(Id("a"), Some(Literal))]),
        FunctionDecl("bar", Func([], [VarDecl(Let, [Declarator(Id("b"), Some(Ident("a")))])]))]))]));
      Counts(g, 3, 2, 2, 2) && Expected(g, 2, 1, "a", Some((1, 1)), false)
  {
    ReadInNestedFunction(Let);
  }

  /** `function foo() { var a = 0; }` */
  lemma VarInFunction()
    ensures var g := Analyze(Program([FunctionDecl("foo", Func([], [VarDecl(Var, [Declarator(Id("a"), Some(Literal))])]))]));
      Counts(g, 2, 1, 2, 1) && Expected(g, 1, 0, "a", Some((1, 1)), true)
  {
    DeclarationInFunction(Var);
  }

  /** `function foo() { var a = 0; function bar() { var b = a; } }` */
  lemma VarInNestedFunction()
    ensures var g := Analyze(Program([FunctionDecl("foo", Func([], [
        VarDecl(Var, [Declarator(Id("a"), Some(Literal))]),
        FunctionDecl("bar", Func([], [VarDecl(Var, [Declarator(Id("b"), Some(Ident("a")))])]))]))]));
      Counts(g, 3, 2, 2, 2) && Expected(g, 2, 1, "a", Some((1, 1)), false)
  {
    ReadInNestedFunction(Var);
  }

  // `let` declarations with destructuring

  /** `let [a] = [1];` */
  lemma LetArrayOnGlobal()
    ensures var g := Analyze(Program([VarDecl(Let, [Declarator(ArrayPat([Id("a")]), Some(ArrayExpr([Literal])))])]));
      Counts(g, 1, 0, 1, 1) && Expected(g, 0, 0, "a", Some((0, 0)), true)
  {
    var p := ArrayPat([Id("a")]);
    assert Leaves(p, []) == [Leaf("a", [])];
    DeclarationOnGlobal(Let, p, ArrayExpr([Literal]));
  }

  /** `let {a} = {a: 1};` */
  lemma LetObjectOnGlobal()
    ensures var g := Analyze(Program([VarDecl(Let, [Declarator(ObjectPat([PatProperty("a", Id("a"))]),
        Some(ObjectExpr([Property("a", Literal)])))])]));
      Counts(g, 1, 0, 1, 1) && Expected(g, 0, 0, "a", Some((0, 0)), true)
  {
    var p := ObjectPat([PatProperty("a", Id("a"))]);
    assert Leaves(p, []) == [Leaf("a", [])];
    DeclarationOnGlobal(Let, p, ObjectExpr([Property("a", Literal)]));
  }

  /** `let {a: {a}} = {a: {a: 1}};` */
  lemma LetNestedObjectOnGlobal()
    ensures var g := Analyze(Program([VarDecl(Let, [Declarator(ObjectPat([PatProperty("a", ObjectPat([PatProperty("a", Id("a"))]))]),
        Some(ObjectExpr([Property("a", ObjectExpr([Property("a", Literal)]))])))])]));
      Counts(g, 1, 0, 1, 1) && Expected(g, 0, 0, "a", Some((0, 0)), true)
  {
    var p := ObjectPat([PatProperty("a", ObjectPat([PatProperty("a", Id("a"))]))]);
    assert Leaves(p, []) == [Leaf("a", [])];
    DeclarationOnGlobal(Let, p, ObjectExpr([Property("a", ObjectExpr([Property("a", Literal)]))]));
  }
}
