/**
 * Properties of the Interpreter's statements, scopes and calls: lookup and assignment
 * along the scope chain, blocks and Return, the If statement as written and as
 * intended, case selection in a Switch, loops, parameter binding, calls and programs.
 */
module InterpreterRuns {
  import opened Ast
  import opened InterpreterSpec

  // ------------------------------------------------------------- scope chain

  /** Function lookup depends only on the chain's shape, so evaluation never changes which function a name finds. */
  lemma {:induction false} LookupFunctionByShape(a: Scope, b: Scope, name: string, arity: nat)
    requires ShapeOf(a) == ShapeOf(b)
    ensures LookupFunction(a, name, arity) == LookupFunction(b, name, arity)
    decreases a
  {
    if (name, arity) !in a.functions && a.parent.Some? {
      assert ShapeOf(a).parent == Some(ShapeOf(a.parent.value));
      assert ShapeOf(b).parent == Some(ShapeOf(b.parent.value));
      LookupFunctionByShape(a.parent.value, b.parent.value, name, arity);
    }
  }

  /** Whether a variable is defined somewhere in the chain depends only on the chain's shape. */
  lemma {:induction false} DefinesByShape(a: Scope, b: Scope, name: string)
    requires ShapeOf(a) == ShapeOf(b)
    ensures Defines(a, name) <==> Defines(b, name)
    decreases a
  {
    if name !in a.variables && a.parent.Some? {
      assert ShapeOf(a).parent == Some(ShapeOf(a.parent.value));
      assert ShapeOf(b).parent == Some(ShapeOf(b.parent.value));
      DefinesByShape(a.parent.value, b.parent.value, name);
    }
  }

  /** After an assignment to a defined variable, looking it up gives the assigned value. */
  lemma {:induction false} AssignThenLookup(sc: Scope, name: string, v: Value)
    requires Defines(sc, name)
    ensures LookupVariable(Assign(sc, name, v), name) == Some(v)
    decreases sc
  {
    if name !in sc.variables {
      AssignThenLookup(sc.parent.value, name, v);
    }
  }

  /** An assignment leaves the value of every other name where it was. */
  lemma {:induction false} AssignKeepsOthers(sc: Scope, name: string, v: Value, other: string)
    requires other != name
    ensures LookupVariable(Assign(sc, name, v), other) == LookupVariable(sc, other)
    decreases sc
  {
    if name !in sc.variables && other !in sc.variables && sc.parent.Some? {
      AssignKeepsOthers(sc.parent.value, name, v, other);
    }
  }

  /** An assignment to a name found in an outer scope does not touch a same-named variable further out. */
  lemma AssignInnermost(outer: Scope, name: string, old_: Value, v: Value)
    ensures var sc := Scope(map[name := old_], map[], Some(outer));
            Assign(sc, name, v) == Scope(map[name := v], map[], Some(outer))
  {
  }

  // ------------------------------------------------------------------- blocks

  /**
   * Running a block made of two parts is running the first, then, unless it returned,
   * the second from where the first left the chain.
   */
  lemma {:induction false} BlockSplits(sc: Scope, a: seq<Stmt>, b: seq<Stmt>, i: nat, fuel: nat)
    requires i <= |a|
    ensures ExecBlock(sc, a + b, i, fuel) ==
              match ExecBlock(sc, a, i, fuel)
              case Fail(f) => Fail(f)
              case Ok(c) => if c.returned.Some? then Ok(c) else ExecBlock(c.scope, b, 0, fuel)
    decreases |a| - i
  {
    if i == |a| {
      BlockFromOffset(sc, a, b, 0, fuel);
    } else {
      assert (a + b)[i] == a[i];
      var c := Exec(sc, a[i], fuel);
      if c.Ok? && c.value.returned.None? {
        BlockSplits(c.value.scope, a, b, i + 1, fuel);
      }
    }
  }

  /** The statements of a + b from |a| + j on are those of b from j on. */
  lemma {:induction false} BlockFromOffset(sc: Scope, a: seq<Stmt>, b: seq<Stmt>, j: nat, fuel: nat)
    requires j <= |b|
    ensures ExecBlock(sc, a + b, |a| + j, fuel) == ExecBlock(sc, b, j, fuel)
    decreases |b| - j
  {
    if j < |b| {
      assert (a + b)[|a| + j] == b[j];
      var c := Exec(sc, b[j], fuel);
      if c.Ok? && c.value.returned.None? {
        BlockFromOffset(c.value.scope, a, b, j + 1, fuel);
      }
    }
  }

  /** Nothing after a Return runs: its value leaves the block with the chain as the Return left it. */
  lemma ReturnEndsBlock(sc: Scope, e: Expr, rest: seq<Stmt>, fuel: nat, v: Value, after: Scope)
    requires Eval(sc, e, fuel) == Ok(Evaluated(v, after))
    ensures ExecBlock(sc, [Return(e)] + rest, 0, fuel) == Ok(Completion(Some(v), after))
  {
    assert ([Return(e)] + rest)[0] == Return(e);
  }

  // ----------------------------------------------------------------------- if

  /** IF TRUE DO LET x = 1; END: a branch with no Return. */
  function DeclareInBranch(): Stmt {
    If(Literal(BoolLit(true)), [Declaration("x", None, Some(Literal(IntLit(1))))], NoElse)
  }

  /** The one-statement branch of DeclareInBranch runs in a child scope and leaves it. */
  lemma DeclareInBranchBody(sc: Scope, fuel: nat)
    ensures ExecBlock(Child(sc), DeclareInBranch().thenStatements, 0, fuel)
            == Ok(Completion(None, Scope(map["x" := Int(1)], map[], Some(sc))))
  {
    var d := Declaration("x", None, Some(Literal(IntLit(1))));
    assert Eval(Child(sc), Literal(IntLit(1)), fuel) == Ok(Evaluated(Int(1), Child(sc)));
    assert Define(Child(sc), "x", d.value, fuel) == Ok(Scope(map["x" := Int(1)], map[], Some(sc)));
    assert Exec(Child(sc), d, fuel) == Ok(Completion(None, Scope(map["x" := Int(1)], map[], Some(sc))));
  }

  /**
   * As written, visit(If) loops for as long as its condition holds: a true condition and
   * a branch without a Return never finish, whatever the fuel.
   */
  lemma {:induction false} IfAsWrittenNeverFinishes(sc: Scope, fuel: nat)
    ensures IfAsWritten(sc, DeclareInBranch(), fuel) == Fail(OutOfFuel)
    decreases fuel
  {
    var s := DeclareInBranch();
    assert Eval(sc, s.condition, fuel) == Ok(Evaluated(Bool(true), sc));
    if fuel > 0 {
      assert Eval(Child(sc), s.condition, fuel - 1) == Ok(Evaluated(Bool(true), Child(sc)));
      DeclareInBranchBody(sc, fuel - 1);
      IfAsWrittenNeverFinishes(sc, fuel - 1);
    }
  }

  /** The same statement, as intended, runs its branch once and leaves the chain as it was. */
  lemma IfOnceFinishes(sc: Scope, fuel: nat)
    ensures IfOnce(sc, DeclareInBranch(), fuel) == Ok(Completion(None, sc))
  {
    var s := DeclareInBranch();
    assert Eval(sc, s.condition, fuel) == Ok(Evaluated(Bool(true), sc));
    DeclareInBranchBody(sc, fuel);
  }

  /** As written, a false condition with no ELSE reads the missing list and crashes. */
  lemma IfAsWrittenMissingElseCrashes(sc: Scope, body: seq<Stmt>, fuel: nat)
    requires fuel > 0
    ensures IfAsWritten(sc, If(Literal(BoolLit(false)), body, NoElse), fuel) == Fail(Crash)
  {
    assert Eval(sc, Literal(BoolLit(false)), fuel) == Ok(Evaluated(Bool(false), sc));
    assert Eval(Child(sc), Literal(BoolLit(false)), fuel - 1) == Ok(Evaluated(Bool(false), Child(sc)));
  }

  /** As intended, a false condition with no ELSE runs nothing. */
  lemma IfOnceMissingElseSkips(sc: Scope, body: seq<Stmt>, fuel: nat)
    ensures IfOnce(sc, If(Literal(BoolLit(false)), body, NoElse), fuel) == Ok(Completion(None, sc))
  {
    assert Eval(sc, Literal(BoolLit(false)), fuel) == Ok(Evaluated(Bool(false), sc));
  }

  /** As intended, the condition picks exactly one branch, run in a child scope that is then left. */
  lemma IfOnceTakesBranch(sc: Scope, s: Stmt, fuel: nat, b: bool, after: Scope)
    requires s.If? && Eval(sc, s.condition, fuel) == Ok(Evaluated(Bool(b), after))
    ensures var branch := if b then s.thenStatements
                          else if s.elseStatements.Else? then s.elseStatements.statements else [];
            IfOnce(sc, s, fuel) ==
              match ExecBlock(Child(after), branch, 0, fuel)
              case Fail(f) => Fail(f)
              case Ok(c) => Ok(Completion(c.returned, c.scope.parent.value))
  {
    if !b && s.elseStatements.NoElse? {
      assert ExecBlock(Child(after), [], 0, fuel) == Ok(Completion(None, Child(after)));
    }
  }

  // ------------------------------------------------------------------- switch

  /** Every case value is a literal, or missing. */
  predicate LiteralCases(cases: seq<Case>) {
    forall i :: 0 <= i < |cases| ==> cases[i].value.None? || cases[i].value.value.Literal?
  }

  /** Case i has a literal value equal to v. */
  predicate Matches(cases: seq<Case>, i: nat, v: Value)
    requires i < |cases|
  {
    cases[i].value.Some? && cases[i].value.value.Literal? && LiteralValue(cases[i].value.value.literal) == v
  }

  /** The first case from i on whose literal value equals v. */
  function FirstMatch(cases: seq<Case>, v: Value, i: nat): (r: Option<nat>)
    requires i <= |cases|
    ensures r.Some? ==> i <= r.value < |cases| && Matches(cases, r.value, v)
    ensures forall j :: i <= j < |cases| && (r.None? || j < r.value) ==> !Matches(cases, j, v)
    decreases |cases| - i
  {
    if i == |cases| then None
    else if Matches(cases, i, v) then Some(i)
    else FirstMatch(cases, v, i + 1)
  }

  /** The first case from i on that has no value. */
  function FirstDefault(cases: seq<Case>, i: nat): (r: Option<nat>)
    requires i <= |cases|
    ensures r.Some? ==> i <= r.value < |cases| && cases[r.value].value.None?
    ensures forall j :: i <= j < |cases| && (r.None? || j < r.value) ==> cases[j].value.Some?
    decreases |cases| - i
  {
    if i == |cases| then None
    else if cases[i].value.None? then Some(i)
    else FirstDefault(cases, i + 1)
  }

  /** With literal case values, the first case equal to the condition's value runs, else the default loop. */
  lemma {:induction false} MatchingCaseSelects(sc: Scope, s: Stmt, v: Value, i: nat, fuel: nat)
    requires s.Switch? && i <= |s.cases| && LiteralCases(s.cases)
    ensures MatchingCase(sc, s, v, i, fuel) ==
              match FirstMatch(s.cases, v, i)
              case Some(k) => ExecBlock(sc, s.cases[k].statements, 0, fuel)
              case None => DefaultCase(sc, s, 0, fuel)
    decreases |s.cases| - i
  {
    if i < |s.cases| {
      var c := s.cases[i];
      if c.value.Some? {
        assert Eval(sc, c.value.value, fuel) == Ok(Evaluated(LiteralValue(c.value.value.literal), sc));
      }
      MatchingCaseSelects(sc, s, v, i + 1, fuel);
    }
  }

  /** The default loop runs the first case without a value, or nothing. */
  lemma {:induction false} DefaultCaseSelects(sc: Scope, s: Stmt, i: nat, fuel: nat)
    requires s.Switch? && i <= |s.cases|
    ensures DefaultCase(sc, s, i, fuel) ==
              match FirstDefault(s.cases, i)
              case Some(k) => ExecBlock(sc, s.cases[k].statements, 0, fuel)
              case None => Ok(Completion(None, sc))
    decreases |s.cases| - i
  {
    if i < |s.cases| && s.cases[i].value.Some? {
      DefaultCaseSelects(sc, s, i + 1, fuel);
    }
  }

  /**
   * A Switch over literal cases runs, in a child scope it then leaves, the first case
   * equal to the condition's value, else the first case without a value, else nothing.
   */
  lemma SwitchSelects(sc: Scope, s: Stmt, fuel: nat, v: Value, after: Scope)
    requires s.Switch? && LiteralCases(s.cases)
    requires Eval(sc, s.condition, fuel) == Ok(Evaluated(v, after))
    ensures var chosen := match FirstMatch(s.cases, v, 0)
                          case Some(k) => Some(k)
                          case None => FirstDefault(s.cases, 0);
            Exec(sc, s, fuel) ==
              match (if chosen.Some? then ExecBlock(Child(after), s.cases[chosen.value].statements, 0, fuel)
                     else Ok(Completion(None, Child(after))))
              case Fail(f) => Fail(f)
              case Ok(c) => Ok(Completion(c.returned, c.scope.parent.value))
  {
    MatchingCaseSelects(Child(after), s, v, 0, fuel);
    DefaultCaseSelects(Child(after), s, 0, fuel);
  }

  // -------------------------------------------------------------------- while

  /** A false condition ends the loop before any turn, at no cost in fuel. */
  lemma WhileFalseSkips(sc: Scope, s: Stmt, fuel: nat, after: Scope)
    requires s.While? && Eval(sc, s.condition, fuel) == Ok(Evaluated(Bool(false), after))
    ensures Exec(sc, s, fuel) == Ok(Completion(None, after))
  {
  }

  /** WHILE TRUE DO END never finishes: every turn spends fuel and the condition stays true. */
  lemma {:induction false} WhileTrueNeverEnds(sc: Scope, fuel: nat)
    ensures WhileLoop(sc, While(Literal(BoolLit(true)), []), fuel) == Fail(OutOfFuel)
    decreases fuel
  {
    var s := While(Literal(BoolLit(true)), []);
    assert Eval(sc, s.condition, fuel) == Ok(Evaluated(Bool(true), sc));
    if fuel > 0 {
      assert ExecBlock(Child(sc), [], 0, fuel - 1) == Ok(Completion(None, Child(sc)));
      WhileTrueNeverEnds(sc, fuel - 1);
    }
  }

  // -------------------------------------------------------------------- calls

  /** Distinct names, none of them defined in the scope yet. */
  predicate FreshNames(sc: Scope, names: seq<string>, i: nat)
    requires i <= |names|
  {
    (forall j :: i <= j < |names| ==> names[j] !in sc.variables)
    && (forall j, k :: i <= j < k < |names| ==> names[j] != names[k])
  }

  /**
   * Parameter i takes argument i: with an argument for every parameter and no name
   * bound twice, binding defines exactly the parameters, each to its argument.
   */
  lemma {:induction false} BindPositional(sc: Scope, parameters: seq<string>, args: seq<Value>, i: nat)
    requires i <= |parameters| <= |args| && FreshNames(sc, parameters, i)
    ensures var r := BindParameters(sc, parameters, args, i);
            r.Ok? && r.value.parent == sc.parent && r.value.functions == sc.functions
            && r.value.variables.Keys == sc.variables.Keys + (set j | i <= j < |parameters| :: parameters[j])
            && (forall j :: i <= j < |parameters| ==> r.value.variables[parameters[j]] == args[j])
            && (forall x :: x in sc.variables ==> r.value.variables[x] == sc.variables[x])
    decreases |parameters| - i
  {
    if i < |parameters| {
      var next := sc.(variables := sc.variables[parameters[i] := args[i]]);
      BindFirst(sc, parameters, args, i);
      BindPositional(next, parameters, args, i + 1);
      NamesFrom(parameters, i);
      assert parameters[i] in next.variables;
    }
  }

  /** Binding the first of fresh names defines it and leaves the rest fresh. */
  lemma BindFirst(sc: Scope, parameters: seq<string>, args: seq<Value>, i: nat)
    requires i < |parameters| <= |args| && FreshNames(sc, parameters, i)
    ensures var next := sc.(variables := sc.variables[parameters[i] := args[i]]);
      FreshNames(next, parameters, i + 1)
      && BindParameters(sc, parameters, args, i) == BindParameters(next, parameters, args, i + 1)
  {
  }

  lemma NamesFrom(names: seq<string>, i: nat)
    requires i < |names|
    ensures (set j | i <= j < |names| :: names[j]) == {names[i]} + (set j | i + 1 <= j < |names| :: names[j])
  {
  }

  /** A parameter named twice makes the call fail with a redefinition. */
  lemma RepeatedParameterRedefined(caller: Scope, f: Function, x: string, v: Value, w: Value, fuel: nat)
    requires f.parameters == [x, x]
    ensures Invoke(caller, Defined(f), [v, w], fuel) == Fail(Redefined(x))
  {
    var once := Child(caller).(variables := map[x := v]);
    assert BindParameters(Child(caller), f.parameters, [v, w], 0) == BindParameters(once, f.parameters, [v, w], 1);
  }

  /** A call of a body with no Return gives NIL, and the caller's chain comes back unchanged. */
  lemma EmptyBodyGivesNil(caller: Scope, f: Function, args: seq<Value>, fuel: nat)
    requires f.statements == [] && |f.parameters| <= |args|
    requires forall j, k :: 0 <= j < k < |f.parameters| ==> f.parameters[j] != f.parameters[k]
    ensures Invoke(caller, Defined(f), args, fuel) == Ok(Evaluated(Nil, caller))
  {
    BindPositional(Child(caller), f.parameters, args, 0);
  }

  /** A call whose body returns a literal gives that literal's value, and leaves the caller's chain as it was. */
  lemma ReturnedLiteralIsResult(caller: Scope, f: Function, l: LitValue, fuel: nat)
    requires f.parameters == [] && f.statements == [Return(Literal(l))]
    ensures Invoke(caller, Defined(f), [], fuel) == Ok(Evaluated(LiteralValue(l), caller))
  {
    var v := LiteralValue(l);
    assert BindParameters(Child(caller), f.parameters, [], 0) == Ok(Child(caller));
    assert Eval(Child(caller), Literal(l), fuel) == Ok(Evaluated(v, Child(caller)));
    assert Exec(Child(caller), Return(Literal(l)), fuel) == Ok(Completion(Some(v), Child(caller)));
    assert ExecBlock(Child(caller), f.statements, 0, fuel) == Ok(Completion(Some(v), Child(caller)));
  }

  /**
   * A function body runs in a child of the CALLER's chain, not of the chain where the
   * function was defined: an assignment in it to a name the caller has reaches the
   * caller's variable.
   */
  lemma CallerVariableAssigned(caller: Scope, f: Function, name: string, l: LitValue, fuel: nat)
    requires name in caller.variables
    requires f.parameters == [] && f.statements == [Assignment(Access(None, name), Literal(l))]
    ensures Invoke(caller, Defined(f), [], fuel)
            == Ok(Evaluated(Nil, caller.(variables := caller.variables[name := LiteralValue(l)])))
  {
    var v := LiteralValue(l);
    var updated := Child(caller).(parent := Some(caller.(variables := caller.variables[name := v])));
    assert BindParameters(Child(caller), f.parameters, [], 0) == Ok(Child(caller));
    assert Defines(Child(caller), name);
    assert Eval(Child(caller), Literal(l), fuel) == Ok(Evaluated(v, Child(caller)));
    assert Assign(Child(caller), name, v) == updated;
    assert Exec(Child(caller), f.statements[0], fuel) == Ok(Completion(None, updated));
    assert ExecBlock(updated, f.statements, 1, fuel) == Ok(Completion(None, updated));
    assert ExecBlock(Child(caller), f.statements, 0, fuel) == Ok(Completion(None, updated));
  }

  /** A call with no function of that name and arity in reach fails, after its arguments are evaluated. */
  lemma CallUndefined(sc: Scope, name: string, fuel: nat)
    requires LookupFunction(sc, name, 0) == None
    ensures Eval(sc, Call(name, []), fuel) == Fail(Undefined(name))
  {
    assert EvalEach(Child(sc), Call(name, []), 0, [], fuel) == Ok(Evaluations([], Child(sc)));
    assert LookupFunction(Child(sc), name, 0) == LookupFunction(sc, name, 0);
  }

  // ----------------------------------------------------------------- programs

  /** The name and arity a function is defined under. */
  function Signature(f: Function): (string, nat) {
    (f.name, |f.parameters|)
  }

  /** No function from i on has a signature the scope already has, or that another of them has. */
  predicate FreshSignatures(sc: Scope, functions: seq<Function>, i: nat)
    requires i <= |functions|
  {
    (forall j :: i <= j < |functions| ==> Signature(functions[j]) !in sc.functions)
    && (forall j, k :: i <= j < k < |functions| ==> Signature(functions[j]) != Signature(functions[k]))
  }

  /** The function loop fails exactly when a function is already defined in the scope or defined twice. */
  lemma {:induction false} DefineFunctionsSucceeds(sc: Scope, functions: seq<Function>, i: nat)
    requires i <= |functions|
    ensures DefineFunctions(sc, functions, i).Ok? <==> FreshSignatures(sc, functions, i)
    decreases |functions| - i
  {
    if i < |functions| {
      var f := functions[i];
      if Signature(f) !in sc.functions {
        var next := sc.(functions := sc.functions[Signature(f) := Defined(f)]);
        DefineFunctionsSucceeds(next, functions, i + 1);
        assert FreshSignatures(next, functions, i + 1) <==> FreshSignatures(sc, functions, i);
      }
    }
  }

  /** A successful function loop defines each function under its name and arity, and keeps what was there. */
  lemma {:induction false} DefineFunctionsDefines(sc: Scope, functions: seq<Function>, i: nat)
    requires i <= |functions| && DefineFunctions(sc, functions, i).Ok?
    ensures var r := DefineFunctions(sc, functions, i).value;
            r.functions.Keys == sc.functions.Keys + (set j | i <= j < |functions| :: Signature(functions[j]))
            && (forall j :: i <= j < |functions| ==> r.functions[Signature(functions[j])] == Defined(functions[j]))
            && (forall key :: key in sc.functions ==> r.functions[key] == sc.functions[key])
    decreases |functions| - i
  {
    if i < |functions| {
      var f := functions[i];
      var next := sc.(functions := sc.functions[Signature(f) := Defined(f)]);
      DefineFirst(sc, functions, i);
      DefineFunctionsDefines(next, functions, i + 1);
      SignaturesFrom(functions, i);
      assert Signature(f) in next.functions;
    }
  }

  /** The first function of a successful loop is new, and the loop goes on from the scope that has it. */
  lemma DefineFirst(sc: Scope, functions: seq<Function>, i: nat)
    requires i < |functions| && DefineFunctions(sc, functions, i).Ok?
    ensures var f := functions[i]; var next := sc.(functions := sc.functions[Signature(f) := Defined(f)]);
      DefineFunctions(next, functions, i + 1).Ok?
      && DefineFunctions(sc, functions, i) == DefineFunctions(next, functions, i + 1)
  {
  }

  lemma SignaturesFrom(functions: seq<Function>, i: nat)
    requires i < |functions|
    ensures (set j | i <= j < |functions| :: Signature(functions[j]))
      == {Signature(functions[i])} + (set j | i + 1 <= j < |functions| :: Signature(functions[j]))
  {
  }

  /** A program none of whose functions is main() fails once its globals and functions are defined. */
  lemma MainRequired(sc: Scope, source: Source, fuel: nat)
    requires sc.parent.None? && ("main", 0) !in sc.functions
    requires forall j :: 0 <= j < |source.functions| ==> Signature(source.functions[j]) != ("main", 0)
    ensures Run(sc, source, fuel).Fail?
    ensures var g := RunGlobals(sc, source.globals, 0, fuel);
            g.Ok? && DefineFunctions(g.value, source.functions, 0).Ok? ==> Run(sc, source, fuel) == Fail(Undefined("main"))
  {
    var g := RunGlobals(sc, source.globals, 0, fuel);
    if g.Ok? {
      var d := DefineFunctions(g.value, source.functions, 0);
      if d.Ok? {
        DefineFunctionsDefines(g.value, source.functions, 0);
        assert ShapeOf(g.value).parent == ShapeOf(sc).parent;
        assert d.value.parent.None?;
        assert ("main", 0) !in d.value.functions;
      }
    }
  }
}
