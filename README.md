# eslint-scope reference resolution, modelled in Dafny

This project models the part of eslint-scope that `analyze(ast, { ecmaVersion: 6 })`
performs for the reference tests of `packages/eslint-scope/tests/references.js`: one
traversal of a parsed program that

- opens a scope per program, function and class (and per `let`/`const` for-in head), in
  the order they are entered, each with its table of variables (a function scope starts
  with the implicit `arguments`);
- records one reference per identifier occurrence, in traversal order, with its scope
  (`from`), its read/write flag, its write expression and its `init` flag;
- when a scope closes, binds each of its pending references to the variable of that name
  in its table, or hands it on to the enclosing scope (`through`). The global scope binds
  only `let`/`const`/`class` bindings: a reference to a global `var` or `function` stays
  unresolved.

The model has three layers.

- `Ast` is a closed syntax tree for the constructs the tests use.
- `Engine` is the analyser as functions over a `State`. The state is an arena of scopes,
  variables and references addressed by index, plus the stack of open scopes.
- `Manager.ScopeManager` is the same analyser as a class. Its sequences grow in place,
  and each scope resolves its pending references in a loop when it closes. Every method
  is proved to leave the object in exactly the state the matching `Engine` function
  computes, so everything proved about `Engine.Analyze` holds for `Manager.Analyze`.

The main theorems are about `Engine.Analyze(p)` for every program `p`:

- every reference is bound to the answer of the lexical lookup `Resolution.Resolve`, and
  it is unbound exactly when it is in the global scope's `through`;
- each scope's lists hold exactly its own variables and references in creation order;
- the references are the program's identifier occurrences in traversal order.

Each reference test is then a lemma about its program's result.

`packages/eslint-scope/lib/index.js`, the analyser itself, is not part of this model. The
analyser's behaviour is taken from what the tests assert about it.

## Model

| member | source | states |
|---|---|---|
| Engine.Lookup | packages/eslint-scope/tests/references.js:317-341 | the variable a scope table holds under a name: the result is in the table and has that name, and it is None exactly when no entry has that name |
| Resolution.Resolve | packages/eslint-scope/tests/references.js:157-259 | the lexical lookup with the global exception; a variable it returns has the looked-up name |
| Steps.DefinePreserves | packages/eslint-scope/tests/references.js:38-39 | defining a name keeps the resolution invariant |
| Steps.ReferencingPreserves | packages/eslint-scope/tests/references.js:66-75 | recording a reference keeps the resolution invariant |
| Steps.NestPreserves | packages/eslint-scope/tests/references.js:62-66 | entering a scope keeps the resolution invariant |
| Closing.ClosePreserves | packages/eslint-scope/tests/references.js:72 | closing an inner scope keeps the invariant: each bound reference is bound to its lexical answer, and each unbound one waits in its innermost open scope |
| Closing.GlobalClose | packages/eslint-scope/tests/references.js:157-259 | closing the global scope leaves every reference bound to its lexical answer; a reference is unbound exactly when it is in the global `through` |
| Traversal.VisitStmtInv | packages/eslint-scope/tests/references.js:52-77 | visiting any statement keeps the resolution invariant |
| Traversal.AnalyzeResolves | packages/eslint-scope/tests/references.js:42-48 | for every program, every reference's `resolved` is the lexical answer, unbound exactly when in global `through`, and each variable lists exactly the references bound to it |
| ShapeTraversal.AnalyzeShape | packages/eslint-scope/tests/references.js:62-66 | for every program, each scope lists exactly its own references and variables in creation order; a reference has a write expression and `init` exactly when it writes; function scopes list `arguments` first; no scope has two variables of one name |
| Occurrences.AnalyzeUses | packages/eslint-scope/tests/references.js:62-73 | for every program, the references are the identifier occurrences in traversal order (declared leaf, defaults, initializer), with their names, flags, write expressions and `init` |
| Skeletons.CloseSkeleton | packages/eslint-scope/tests/references.js:62-73 | closing a scope changes only bindings: scopes, their tables and lists, variable names and definitions, and reference names, flags and write expressions stay the same |
| Bindings.BoundWhenVisible | packages/eslint-scope/tests/references.js:52-77 | a reference that no declaration shadows on its way out to variable `v` of a non-global scope, or to a global let/const/class binding, is bound to `v`, listed by `v`, and not passed through |
| Bindings.UnboundWhenDynamicGlobal | packages/eslint-scope/tests/references.js:180-205 | a reference that reaches a global var or function binding is unbound and passed through the global scope |
| Bindings.DynamicGlobalsUnreferenced | packages/eslint-scope/tests/references.js:158-259 | a global var or function variable lists no references |
| Bindings.BoundToOwnName | packages/eslint-scope/tests/references.js:42-48 | a bound reference is bound to a variable of its own name, which lists it |
| ReferenceTests.DeclarationOnGlobal | packages/eslint-scope/tests/references.js:30-50 | one declarator `kind p = e` with one leaf `a`: 1 scope, 1 variable, 1 reference that writes `a` from global, bound to `variables[0]` unless `kind` is var |
| ReferenceTests.ReadInFunction | packages/eslint-scope/tests/references.js:52-77 | `kind a = 0; function foo() { kind b = a; }`: 2 scopes, foo has 2 variables and 2 references, the second reads `a` and is bound to global `variables[0]` unless `kind` is var |
| ReferenceTests.ReadInDefaultParameter | packages/eslint-scope/tests/references.js:79-103 | the same with the read in the default parameter `b = a` |
| ReferenceTests.CallOfGlobalFunction | packages/eslint-scope/tests/references.js:209-232 | `function x() {} x();`: 2 scopes, global has 1 variable and 1 reference, which reads `x` and is unbound |
| ReferenceTests.CallInFunction | packages/eslint-scope/tests/references.js:234-259 | `function a() {} function foo() { kind b = a(); }`: 3 scopes, foo has 2 variables and 2 references, the second reads `a` and is unbound |
| ReferenceTests.ClassOnGlobal | packages/eslint-scope/tests/references.js:263-286 | `class A {} kind b = new A();`: 2 scopes, global has 2 variables and 2 references, the second reads `A` and is bound to `variables[0]` |
| ReferenceTests.ClassInFunction | packages/eslint-scope/tests/references.js:288-313 | `class A {} function foo() { kind b = new A(); }`: 3 scopes, the read of `A` in foo is bound to global `variables[0]` |
| ReferenceTests.DeclarationInFunction | packages/eslint-scope/tests/references.js:317-341 | `function foo() { kind a = 0; }`: foo has 2 variables and 1 reference, which writes `a` and is bound to foo's `variables[1]` |
| ReferenceTests.ReadInNestedFunction | packages/eslint-scope/tests/references.js:343-370 | `function foo() { kind a = 0; function bar() { kind b = a; } }`: 3 scopes, the read of `a` in bar is bound to foo's `variables[1]` |
| ReferenceCases.LetOnGlobal | packages/eslint-scope/tests/references.js:30-50 | `let a = 0;`: the test's counts, and the write is bound to `variables[0]` |
| ReferenceCases.LetReadInFunction | packages/eslint-scope/tests/references.js:52-77 | `let a = 0; function foo() { let b = a; }`: the test's counts and binding |
| ReferenceCases.LetReadInDefaultParameter | packages/eslint-scope/tests/references.js:79-103 | `let a = 0; function foo(b = a) {}`: the test's counts and binding |
| ReferenceCases.ConstOnGlobal | packages/eslint-scope/tests/references.js:107-127 | `const a = 0;`: the test's counts and binding |
| ReferenceCases.ConstReadInFunction | packages/eslint-scope/tests/references.js:129-154 | `const a = 0; function foo() { const b = a; }`: the test's counts and binding |
| ReferenceCases.VarOnGlobal | packages/eslint-scope/tests/references.js:158-178 | `var a = 0;`: the test's counts, and the write is unbound |
| ReferenceCases.VarReadInFunction | packages/eslint-scope/tests/references.js:180-205 | `var a = 0; function foo() { var b = a; }`: the test's counts, and the read is unbound |
| ReferenceCases.FunctionCalledOnGlobal | packages/eslint-scope/tests/references.js:209-232 | `function a() {} a();`: the test's counts, and the read is unbound |
| ReferenceCases.FunctionCalledInFunction | packages/eslint-scope/tests/references.js:234-259 | `function a() {} function foo() { let b = a(); }`: the test's counts, and the read is unbound |
| ReferenceCases.ClassReadOnGlobal | packages/eslint-scope/tests/references.js:263-286 | `class A {} let b = new A();`: the test's counts and binding |
| ReferenceCases.ClassReadInFunction | packages/eslint-scope/tests/references.js:288-313 | `class A {} function foo() { let b = new A(); }`: the test's counts and binding |
| ReferenceCases.LetInFunction | packages/eslint-scope/tests/references.js:317-341 | `function foo() { let a = 0; }`: the test's counts and binding |
| ReferenceCases.LetInNestedFunction | packages/eslint-scope/tests/references.js:343-370 | `function foo() { let a = 0; function bar() { let b = a; } }`: the test's counts and binding |
| ReferenceCases.VarInFunction | packages/eslint-scope/tests/references.js:374-398 | `function foo() { var a = 0; }`: the test's counts and binding |
| ReferenceCases.VarInNestedFunction | packages/eslint-scope/tests/references.js:400-427 | `function foo() { var a = 0; function bar() { var b = a; } }`: the test's counts and binding |
| ReferenceCases.LetArrayOnGlobal | packages/eslint-scope/tests/references.js:431-451 | `let [a] = [1];`: the test's counts and binding |
| ReferenceCases.LetObjectOnGlobal | packages/eslint-scope/tests/references.js:453-473 | `let {a} = {a: 1};`: the test's counts and binding |
| ReferenceCases.LetNestedObjectOnGlobal | packages/eslint-scope/tests/references.js:475-495 | `let {a: {a}} = {a: {a: 1}};`: the test's counts and binding |
| InitFlags.DeclaresInit | packages/eslint-scope/tests/references.js:499-531 | the occurrences of a declaration of `x` are all writes of `x` with a write expression and `init` true |
| InitFlags.AssignsNoInit | packages/eslint-scope/tests/references.js:553-565 | an assignment to a pattern of `x` has at least one occurrence, and all are writes of `x` with `init` false |
| InitFlags.DeclarationInitTrue | packages/eslint-scope/tests/references.js:533-551 | a program made of one declaration of `x` records only write-only references to `x` with a write expression and `init` true |
| InitFlags.AssignmentInitFalse | packages/eslint-scope/tests/references.js:567-585 | `let x;` and then an assignment to a pattern of `x`: 1 scope, 1 variable, at least 1 reference, and every reference is a write-only reference to `x` with `init` false |
| InitFlags.UnwrittenReadOnly | packages/eslint-scope/tests/references.js:587-624 | when a program never writes `x`, every reference listed by a variable named `x` is read-only, without a write expression or `init` |
| InitCases.TrueCodesInit | packages/eslint-scope/tests/references.js:499-551 | each of the 31 programs of the first `init` list has a last scope with at least one variable and at least one reference, and records only writes of `a` with `init` true |
| InitBounds.DeclaratorFilled | packages/eslint-scope/tests/references.js:533-544 | a program of one declaration of a pattern with at least one name, an initializer and no function: exactly one scope, holding at least one variable and one reference |
| InitBounds.VarLoopFilled | packages/eslint-scope/tests/references.js:533-544 | `for (var p in right);` with a named pattern and no function: exactly one scope, holding at least one variable and one reference |
| InitBounds.LexicalLoopFilled | packages/eslint-scope/tests/references.js:533-544 | `for (let p in right);` or with `const`: exactly two scopes, and the loop head's scope holds at least one variable and one reference |
| InitBounds.NewFilled | packages/eslint-scope/tests/references.js:533-544 | `new function(p) {}` with a defaulted parameter pattern: exactly two scopes, and the function scope holds at least one variable and one reference |
| InitCases.TrueCodesFilled | packages/eslint-scope/tests/references.js:539-544 | the last scope of each of the 31 programs of the first `init` list holds at least one variable and one reference |
| InitCases.FalseCodesNoInit | packages/eslint-scope/tests/references.js:553-585 | each of the 11 programs of the second `init` list has 1 scope with 1 variable and at least 1 reference, and all its references write `a` with `init` false |
| InitCases.ReadOnlyCodesRead | packages/eslint-scope/tests/references.js:587-624 | for each of the 14 programs of the third `init` list, the global scope's first variable is `a` with at least one reference, and every reference listed by a variable named `a` is read-only, without a write expression or `init` |
| InitCases.ReadOnlyAfterAUnwritten | packages/eslint-scope/tests/references.js:588-600 | no occurrence of `a` in the statements that follow `let a;` in that list is a write |
| InitCases.ReadOnlyAfterABUnwritten | packages/eslint-scope/tests/references.js:595-601 | no occurrence of `a` in the statements that follow `let a,b;` in that list is a write |
| InitCases.AfterBareLetReadOnly | packages/eslint-scope/tests/references.js:603-624 | `let` without initialisers followed by a statement that never writes `x`: the references bound to `x` are read-only, without `init` |
| InitCases.AfterBareLetBound | packages/eslint-scope/tests/references.js:603-618 | `let a, ...;` without initialisers and without another `a`, then a statement that reads `a`, declares no `a` and opens no function: the global scope's first variable is `a` and it lists at least one reference |
| InitCases.ReadOnlyAfterABound | packages/eslint-scope/tests/references.js:588-618 | after `let a;`, each statement of the third list leaves `a` first in the global table with at least one reference |
| InitCases.ReadOnlyAfterABBound | packages/eslint-scope/tests/references.js:595-618 | after `let a,b;`, each statement of the third list leaves `a` first in the global table with at least one reference |
| GlobalRead.StmtFirst | packages/eslint-scope/tests/references.js:603-618 | a statement that declares no `x` and opens no function keeps `x` as the first global variable, a `let`/`const`/`class` binding that the global scope binds to, and declared in no other scope |
| GlobalRead.ProgramFirst | packages/eslint-scope/tests/references.js:603-618 | `let x, ...;` with no other `x`, followed by such a statement, ends with `x` first in the global table and declared in no other scope |
| GlobalRead.ReadBoundGlobal | packages/eslint-scope/tests/references.js:612-618 | when the analysis keeps `x` first and the program reads `x`, the global scope's first variable is `x` and lists at least one reference |
| Manager.ScopeManager.constructor | packages/eslint-scope/tests/references.js:33 | a new manager holds the global scope alone, open |
| Manager.ScopeManager.FindVariable | packages/eslint-scope/tests/references.js:317-341 | the loop over a scope table finds what `Engine.Lookup` finds |
| Manager.ScopeManager.Define | packages/eslint-scope/tests/references.js:38-39 | the object is updated in place to `Engine.Define` of its old state |
| Manager.ScopeManager.NestScope | packages/eslint-scope/tests/references.js:62-66 | the object is updated in place to `Engine.NestScope` of its old state |
| Manager.ScopeManager.Referencing | packages/eslint-scope/tests/references.js:66-75 | the object is updated in place to `Engine.Referencing` of its old state |
| Manager.ScopeManager.CloseRef | packages/eslint-scope/tests/references.js:42-48 | binding or handing on one pending reference updates the object to `Engine.CloseRef` of its old state |
| Manager.ScopeManager.CloseRefs | packages/eslint-scope/tests/references.js:42-48 | the loop over the pending references updates the object to `Engine.CloseRefs` of its old state |
| Manager.ScopeManager.Close | packages/eslint-scope/tests/references.js:72 | the object is updated in place to `Engine.Close` of its old state |
| Manager.ScopeManager.VisitStmt | packages/eslint-scope/tests/references.js:52-77 | visiting a statement updates the object to `Engine.VisitStmt` of its old state |
| Manager.ScopeManager.VisitExpr | packages/eslint-scope/tests/references.js:234-259 | visiting an expression updates the object to `Engine.VisitExpr` of its old state |
| Manager.Analyze | packages/eslint-scope/tests/references.js:33 | the manager ends in `Engine.Analyze(p)`, so every reference is bound to its lexical answer, the lists are exact, and the references are the program's occurrences |

## Left out

- `packages/eslint-scope/lib/index.js` is not part of this model. The analyser's rules are
  those the reference tests pin down, with eslint-scope's traversal order: a pattern's
  leaves first, then its default values, then the initializer.
- Parsing is left out. Programs are given as `Ast.Program` trees, and source positions,
  tokens and node identity are not modelled. A write expression is the expression
  itself, not a node reference.
- `with`, `catch`, `switch`, block and module scopes are left out, and so are Annex B
  hoisting and the named function expression scope. The tests do not exercise them.
- A direct call to `eval` is analysed as an ordinary call. The dynamic scope that
  eslint-scope gives a scope containing such a call is not modelled, so
  Traversal.AnalyzeResolves does not cover it.
- The check that a parameter default cannot see the function body's own declarations is
  left out. No test here distinguishes it.
- Rest elements, computed members, update expressions, arrow functions and the implicit
  globals of sloppy mode are left out, because no test here uses them.
- `ecmaVersion` and script versus module are left out. Everything is analysed as an
  ECMAScript 2015 script.
- InitCases.TrueCodesInit: states the flags of every reference of the program, not only
  of the last scope.
- InitFlags.DeclarationInitTrue: does not state that the program records at least one
  reference. A declaration without an initializer records none, so the lower bound
  belongs to the concrete programs of the list.
- InitFlags.UnwrittenReadOnly: covers the third `init` list by its shared property: the
  program never writes `a`. It does not state the test's lower bounds, which depend on
  the program reading `a`; InitCases.ReadOnlyCodesRead states them for each of the
  fourteen programs.
- InitFlags.AssignmentInitFalse: states the scope's reference count as at least one, as
  the test does, not the exact number.
