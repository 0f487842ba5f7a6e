/** What the Analyzer's checks accept and reject. */
module AnalyzerProps {
  import opened Ast
  import Numerals
  import opened AnalyzerSpec

  // ------------------------------------------------------------ assignability

  /** Assignability is a preorder with Any on top; Nil and Boolean go only to themselves and Any. */
  lemma AssignablePreorder(a: Type, b: Type, c: Type)
    ensures IsAssignable(a, a) && IsAssignable(AnyType, a)
    ensures IsAssignable(b, a) && IsAssignable(c, b) ==> IsAssignable(c, a)
    ensures IsAssignable(a, AnyType) ==> a == AnyType
    ensures a in {NilType, BooleanType} ==> (IsAssignable(b, a) <==> b == a || b == AnyType)
  {
  }

  // ------------------------------------------------------------------ binary

  /** + with a String on either side is a String concatenation, whatever the other side is. */
  lemma StringConcatenation(left: Type, right: Type)
    requires left == StringType || right == StringType
    ensures BinaryType("+", left, right) == Ok(StringType)
  {
  }

  /** + accepts two Integers or two Decimals (or a String), and never mixes Integer and Decimal. */
  lemma AdditionTypes(left: Type, right: Type)
    requires left != StringType && right != StringType
    ensures BinaryType("+", left, right).Ok? <==> left == right && left in {IntegerType, DecimalType}
    ensures BinaryType("+", left, right).Ok? ==> BinaryType("+", left, right).value == left
  {
  }

  /** - * / are Decimal as soon as one side is Decimal, whatever the other side is; Integer for two Integers. */
  lemma ArithmeticTypes(op: string, left: Type, right: Type)
    requires op in {"-", "*", "/"}
    ensures left == DecimalType || right == DecimalType ==> BinaryType(op, left, right) == Ok(DecimalType)
    ensures left != DecimalType && right != DecimalType ==>
      (BinaryType(op, left, right).Ok? <==> left == IntegerType && right == IntegerType)
  {
  }

  /** Comparisons need two operands of one type, of any type, and are Boolean. */
  lemma ComparisonTypes(op: string, left: Type, right: Type)
    requires op in {"<", ">", "==", "!="}
    ensures BinaryType(op, left, right).Ok? <==> left == right
    ensures BinaryType(op, left, right).Ok? ==> BinaryType(op, left, right).value == BooleanType
  {
  }

  /** && and || need two Booleans; ^ needs two Integers; no other operator is accepted. */
  lemma LogicalAndPowerTypes(op: string, left: Type, right: Type)
    ensures op in {"&&", "||"} ==> (BinaryType(op, left, right).Ok? <==> left == BooleanType && right == BooleanType)
    ensures op == "^" ==> (BinaryType(op, left, right).Ok? <==> left == IntegerType && right == IntegerType)
    ensures op !in {"&&", "||", "<", ">", "==", "!=", "+", "-", "*", "/", "^"} ==> BinaryType(op, left, right).Fail?
  {
  }

  // ---------------------------------------------------------------- literals

  /** An integer literal is typed Integer exactly when it fits in 32 bits. */
  lemma IntegerLiteralRange(sc: Scope, i: int)
    ensures TypeOf(sc, Literal(IntLit(i))).Ok? <==> -2147483648 <= i <= 2147483647
    ensures TypeOf(sc, Literal(IntLit(i))).Ok? ==> TypeOf(sc, Literal(IntLit(i))) == Ok(Some(IntegerType))
  {
  }

  lemma NonPositiveProduct(u: int, p: nat)
    requires u <= 0
    ensures u * p <= 0
  {
  }

  /** The lower bound is the smallest positive double: zero and every negative decimal are rejected. */
  lemma NonPositiveDecimalRejected(sc: Scope, d: Decimal)
    requires d.unscaled <= 0
    ensures TypeOf(sc, Literal(DecLit(d))) == Fail(Rejected(DecimalOutOfRange))
  {
    NonPositiveProduct(d.unscaled, Numerals.Pow10(325));
    assert 49 * Numerals.Pow10(d.scale) > 0;
  }

  lemma {:induction false} Pow10AtLeastHundred(n: nat)
    requires n >= 2
    ensures Numerals.Pow10(n) >= 100
  {
    if n > 2 {
      Pow10AtLeastHundred(n - 1);
    } else {
      assert Numerals.Pow10(1) == 10;
    }
  }

  lemma PositiveProduct(u: int, p: nat, bound: int)
    requires u >= 1 && p >= bound
    ensures u * p >= bound
  {
  }

  /** Whole decimals from 1 up to 10^292 are typed Decimal. */
  lemma WholeDecimalAccepted(sc: Scope, u: int)
    requires 1 <= u <= Numerals.Pow10(292)
    ensures TypeOf(sc, Literal(DecLit(Decimal(u, 0)))) == Ok(Some(DecimalType))
  {
    Pow10AtLeastHundred(325);
    PositiveProduct(u, Numerals.Pow10(325), 49);
    PositiveProduct(17976931348623157, Numerals.Pow10(292), u);
    assert Numerals.Pow10(0) == 1;
  }

  /** NIL gets no type, so any binary expression over it fails when its type is read. */
  lemma NilOperandRejected(sc: Scope, op: string, other: Expr)
    requires TypeOf(sc, other).Ok?
    ensures TypeOf(sc, Literal(NilLit)) == Ok(None)
    ensures TypeOf(sc, Binary(op, other, Literal(NilLit))) == Fail(Untyped)
    ensures TypeOf(sc, Binary(op, Literal(NilLit), other)) == Fail(Untyped)
  {
  }

  // ----------------------------------------------------------- other nodes

  /** A group is accepted only around a binary expression, and has its type. */
  lemma GroupOnlyBinary(sc: Scope, e: Expr)
    ensures !e.Binary? ==> TypeOf(sc, Group(e)).Fail?
    ensures e.Binary? ==> TypeOf(sc, Group(e)) == TypeOf(sc, e)
  {
  }

  /** An access is typed by its variable; the offset expression is not checked at all. */
  lemma AccessOffsetIgnored(sc: Scope, offset: Expr, name: string)
    ensures TypeOf(sc, Access(Some(offset), name)) == TypeOf(sc, Access(None, name))
    ensures TypeOf(sc, Access(None, name)).Ok? <==> LookupVariable(sc, name).Some?
    ensures LookupVariable(sc, name).Some? ==>
      TypeOf(sc, Access(None, name)) == Ok(Some(LookupVariable(sc, name).value.varType))
  {
  }

  /** Argument k is typed, and its type fits parameter k. */
  predicate ArgumentFits(sc: Scope, arguments: seq<Expr>, parameterTypes: seq<Type>, k: nat)
    requires k < |arguments|
  {
    k < |parameterTypes| && TypeOf(sc, arguments[k]).Ok? && TypeOf(sc, arguments[k]).value.Some?
    && IsAssignable(parameterTypes[k], TypeOf(sc, arguments[k]).value.value)
  }

  lemma ArgumentsStep(sc: Scope, call: Expr, parameterTypes: seq<Type>, i: nat)
    requires call.Call? && i < |call.arguments|
    ensures ArgumentsFrom(sc, call, parameterTypes, i).Ok? <==>
      ArgumentFits(sc, call.arguments, parameterTypes, i) && ArgumentsFrom(sc, call, parameterTypes, i + 1).Ok?
  {
  }

  /** Every argument of an accepted call is typed and assignable to its parameter's type. */
  lemma {:induction false} ArgumentsAssignable(sc: Scope, call: Expr, parameterTypes: seq<Type>, i: nat)
    requires call.Call? && i <= |call.arguments|
    ensures ArgumentsFrom(sc, call, parameterTypes, i).Ok? <==>
      forall k :: i <= k < |call.arguments| ==> ArgumentFits(sc, call.arguments, parameterTypes, k)
    decreases |call.arguments| - i
  {
    if i < |call.arguments| {
      ArgumentsStep(sc, call, parameterTypes, i);
      ArgumentsAssignable(sc, call, parameterTypes, i + 1);
    }
  }

  /** A call is accepted exactly when its function is found and each argument fits its parameter; it has the return type. */
  lemma CallTypes(sc: Scope, name: string, arguments: seq<Expr>)
    ensures var r := TypeOf(sc, Call(name, arguments)); var f := LookupFunction(sc, name, |arguments|);
      (r.Ok? <==> f.Some? && forall k :: 0 <= k < |arguments| ==> ArgumentFits(sc, arguments, f.value.parameterTypes, k))
      && (r.Ok? ==> r.value == Some(f.value.returnType))
  {
    var f := LookupFunction(sc, name, |arguments|);
    if f.Some? {
      ArgumentsAssignable(sc, Call(name, arguments), f.value.parameterTypes, 0);
    }
  }

  lemma ElementsStep(sc: Scope, list: Expr, expected: Type, i: nat)
    requires list.PlcList? && 1 <= i < |list.values|
    ensures ElementsFrom(sc, list, expected, i).Ok? <==>
      TypeOf(sc, list.values[i]) == Ok(Some(expected)) && ElementsFrom(sc, list, expected, i + 1).Ok?
  {
  }

  lemma {:induction false} ElementsSameType(sc: Scope, list: Expr, expected: Type, i: nat)
    requires list.PlcList? && 1 <= i <= |list.values|
    ensures ElementsFrom(sc, list, expected, i).Ok? <==>
      forall k :: i <= k < |list.values| ==> TypeOf(sc, list.values[k]) == Ok(Some(expected))
    decreases |list.values| - i
  {
    if i < |list.values| {
      ElementsStep(sc, list, expected, i);
      ElementsSameType(sc, list, expected, i + 1);
    }
  }

  /**
   * A list is accepted exactly when every element has the first element's type; the
   * list itself gets no type.
   */
  lemma ListHomogeneous(sc: Scope, values: seq<Expr>, t: Type)
    requires |values| > 0 && TypeOf(sc, values[0]) == Ok(Some(t))
    ensures TypeOf(sc, PlcList(values)).Ok? <==> forall k :: 0 <= k < |values| ==> TypeOf(sc, values[k]) == Ok(Some(t))
    ensures TypeOf(sc, PlcList(values)).Ok? ==> TypeOf(sc, PlcList(values)) == Ok(None)
  {
    ElementsSameType(sc, PlcList(values), t, 1);
  }

  /** An empty list is accepted and gets no type. */
  lemma EmptyListUntyped(sc: Scope)
    ensures TypeOf(sc, PlcList([])) == Ok(None)
  {
  }

  // -------------------------------------------------------------- statements

  /** An If is accepted only with a Boolean condition, a non-empty then block and an else list. */
  lemma IfRequirements(sc: Scope, ret: Option<Type>, condition: Expr, thenStatements: seq<Stmt>, elseStatements: ElseBlock)
    ensures AnalyzeStatement(sc, ret, If(condition, thenStatements, elseStatements)).Ok? ==>
      TypeOf(sc, condition) == Ok(Some(BooleanType)) && |thenStatements| > 0 && elseStatements.Else?
  {
    var s := If(condition, thenStatements, elseStatements);
    assert AnalyzeStatement(sc, ret, s) == AnalyzeIf(sc, ret, s);
  }

  /** A While is accepted only with a Boolean condition. */
  lemma WhileRequirements(sc: Scope, ret: Option<Type>, condition: Expr, statements: seq<Stmt>)
    ensures AnalyzeStatement(sc, ret, While(condition, statements)).Ok? ==>
      TypeOf(sc, condition) == Ok(Some(BooleanType))
  {
  }

  /** One turn of the case loop: the case's check and block pass, and the rest of the loop decides. */
  lemma CasesStep(sc: Scope, ret: Option<Type>, t: Type, cases: seq<Case>, i: nat, defaultFound: bool)
    requires i < |cases| && AnalyzeCases(sc, ret, t, cases, i, defaultFound).Ok?
    ensures cases[i].value.Some? ==> TypeOf(Child(sc), cases[i].value.value) == Ok(Some(t))
    ensures cases[i].value.None? ==> i == |cases| - 1 && !defaultFound
    ensures AnalyzeCases(sc, ret, t, cases, i + 1, defaultFound || cases[i].value.None?).Ok?
  {
    CaseValueAccepted(Child(sc), t, cases[i], i == |cases| - 1, defaultFound);
  }

  /** The check of a case value passes exactly for a value of the condition's type, or for a first DEFAULT that comes last. */
  lemma CaseValueAccepted(sc: Scope, t: Type, c: Case, last: bool, defaultFound: bool)
    ensures CaseValue(sc, t, c, last, defaultFound).Ok? <==>
      if c.value.Some? then TypeOf(sc, c.value.value) == Ok(Some(t)) else last && !defaultFound
  {
  }

  /** What the case loop demands of case k: a value of the condition's type, or being the one last DEFAULT. */
  predicate CaseAccepted(sc: Scope, t: Type, cases: seq<Case>, k: nat, defaultFound: bool)
    requires k < |cases|
  {
    if cases[k].value.Some? then TypeOf(Child(sc), cases[k].value.value) == Ok(Some(t))
    else k == |cases| - 1 && !defaultFound
  }

  lemma {:induction false} CasesRequirements(sc: Scope, ret: Option<Type>, t: Type, cases: seq<Case>, i: nat, defaultFound: bool)
    requires i <= |cases| && AnalyzeCases(sc, ret, t, cases, i, defaultFound).Ok?
    ensures forall k :: i <= k < |cases| ==> CaseAccepted(sc, t, cases, k, defaultFound)
    decreases |cases| - i
  {
    if i < |cases| {
      var found := defaultFound || cases[i].value.None?;
      CasesStep(sc, ret, t, cases, i, defaultFound);
      CasesRequirements(sc, ret, t, cases, i + 1, found);
      forall k | i <= k < |cases|
        ensures CaseAccepted(sc, t, cases, k, defaultFound)
      {
        if k > i {
          assert CaseAccepted(sc, t, cases, k, found);
        }
      }
    }
  }

  /**
   * A Switch is accepted only when its condition is typed, every case value has the
   * condition's type, and a DEFAULT case, if any, is the last one.
   */
  lemma SwitchRequirements(sc: Scope, ret: Option<Type>, condition: Expr, cases: seq<Case>)
    ensures AnalyzeStatement(sc, ret, Switch(condition, cases)).Ok? ==>
      TypeOf(sc, condition).Ok? && TypeOf(sc, condition).value.Some?
      && (forall k :: 0 <= k < |cases| && cases[k].value.Some? ==>
            TypeOf(Child(sc), cases[k].value.value) == TypeOf(sc, condition))
      && (forall k :: 0 <= k < |cases| && cases[k].value.None? ==> k == |cases| - 1)
  {
    var s := Switch(condition, cases);
    assert AnalyzeStatement(sc, ret, s) == AnalyzeSwitch(sc, ret, s);
    if AnalyzeSwitch(sc, ret, s).Ok? {
      var c := TypeOf(sc, condition);
      assert c.Ok? && c.value.Some?;
      var t := c.value.value;
      assert AnalyzeCases(sc, ret, t, cases, 0, false).Ok?;
      CasesRequirements(sc, ret, t, cases, 0, false);
      forall k | 0 <= k < |cases| && cases[k].value.Some?
        ensures TypeOf(Child(sc), cases[k].value.value) == c
      {
        assert CaseAccepted(sc, t, cases, k, false);
      }
      forall k | 0 <= k < |cases| && cases[k].value.None?
        ensures k == |cases| - 1
      {
        assert CaseAccepted(sc, t, cases, k, false);
      }
    }
  }

  /** A Return outside a function is rejected; inside one its value must fit the return type. */
  lemma ReturnRequirements(sc: Scope, ret: Option<Type>, value: Expr)
    ensures ret.None? ==>
      AnalyzeStatement(sc, ret, Return(value)) == Fail(Rejected(ReturnOutsideFunction))
    ensures ret.Some? ==> (AnalyzeStatement(sc, ret, Return(value)).Ok? <==>
      TypeOf(sc, value).Ok? && TypeOf(sc, value).value.Some? && IsAssignable(ret.value, TypeOf(sc, value).value.value))
  {
  }

  /** Only a function call may stand as an expression statement. */
  lemma ExpressionStatementOnlyCalls(sc: Scope, ret: Option<Type>, e: Expr)
    ensures !e.Call? ==> AnalyzeStatement(sc, ret, Expression(e)).Fail?
    ensures e.Call? ==> (AnalyzeStatement(sc, ret, Expression(e)).Ok? <==> TypeOf(sc, e).Ok?)
  {
  }

  /** A declaration with a type name and a value fails: the value is never visited, so has no type. */
  lemma DeclarationWithTypeAndValueFails(sc: Scope, ret: Option<Type>, name: string, typeName: string, value: Expr)
    ensures AnalyzeStatement(sc, ret, Declaration(name, Some(typeName), Some(value))).Fail?
  {
  }

  /** A declaration without a type name takes its value's type, as a mutable variable of the current scope. */
  lemma DeclarationInfersType(sc: Scope, ret: Option<Type>, name: string, value: Expr, t: Type)
    requires TypeOf(sc, value) == Ok(Some(t)) && name !in sc.variables
    ensures AnalyzeStatement(sc, ret, Declaration(name, None, Some(value)))
      == Ok(sc.(variables := sc.variables[name := Variable(name, t, true)]))
  {
  }

  /** Assignment checks the value's type against the variable's, and not whether the variable is mutable. */
  lemma AssignmentIgnoresMutability(sc: Scope, ret: Option<Type>, name: string, value: Expr, t: Type, u: Type)
    requires LookupVariable(sc, name) == Some(Variable(name, t, false))
    requires TypeOf(sc, value) == Ok(Some(u))
    ensures AnalyzeStatement(sc, ret, Assignment(Access(None, name), value)).Ok? <==> IsAssignable(t, u)
  {
  }

  /** A function body skips a Switch: an ill-typed switch that fails on its own passes there. */
  lemma BodySkipsSwitch(sc: Scope, ret: Type)
    ensures AnalyzeStatement(sc, Some(ret), Switch(Literal(NilLit), [])) == Fail(Untyped)
    ensures AnalyzeBody(sc, ret, [Switch(Literal(NilLit), [])], 0) == Ok(sc)
  {
  }

  // ------------------------------------------------------------------ source

  /** One turn of the function loop. */
  lemma FunctionsStep(sc: Scope, functions: seq<Function>, i: nat, foundMain: bool)
    requires i < |functions| && AnalyzeFunctions(sc, functions, i, foundMain).Ok?
    ensures AnalyzeFunction(sc, functions[i]).Ok?
    ensures IsMain(functions[i]) ==> functions[i].returnTypeName == Some("Integer")
    ensures AnalyzeFunctions(sc, functions, i, foundMain)
      == AnalyzeFunctions(AnalyzeFunction(sc, functions[i]).value, functions, i + 1, foundMain || IsMain(functions[i]))
  {
  }

  lemma {:induction false} MainsReturnInteger(sc: Scope, functions: seq<Function>, i: nat, foundMain: bool)
    requires i <= |functions| && AnalyzeFunctions(sc, functions, i, foundMain).Ok?
    ensures forall k :: i <= k < |functions| && IsMain(functions[k]) ==> functions[k].returnTypeName == Some("Integer")
    decreases |functions| - i
  {
    if i < |functions| {
      FunctionsStep(sc, functions, i, foundMain);
      var next := AnalyzeFunction(sc, functions[i]).value;
      MainsReturnInteger(next, functions, i + 1, foundMain || IsMain(functions[i]));
      forall k | i <= k < |functions| && IsMain(functions[k])
        ensures functions[k].returnTypeName == Some("Integer")
      {
        if k == i {
          assert IsMain(functions[i]);
        }
      }
    }
  }

  lemma {:induction false} MainFound(sc: Scope, functions: seq<Function>, i: nat, foundMain: bool)
    requires i <= |functions| && AnalyzeFunctions(sc, functions, i, foundMain).Ok?
    ensures AnalyzeFunctions(sc, functions, i, foundMain).value.1 ==>
      foundMain || exists k :: i <= k < |functions| && IsMain(functions[k])
    decreases |functions| - i
  {
    if i < |functions| {
      FunctionsStep(sc, functions, i, foundMain);
      var next := AnalyzeFunction(sc, functions[i]).value;
      MainFound(next, functions, i + 1, foundMain || IsMain(functions[i]));
      if AnalyzeFunctions(sc, functions, i, foundMain).value.1 && !foundMain && !IsMain(functions[i]) {
        var k :| i + 1 <= k < |functions| && IsMain(functions[k]);
        assert i <= k;
      } else if IsMain(functions[i]) {
        assert i <= i < |functions|;
      }
    }
  }

  /** An accepted source has a main() with no parameters, and every such main returns Integer. */
  lemma MainRequired(sc: Scope, source: Source)
    ensures AnalyzeSource(sc, source).Ok? ==>
      (exists k :: 0 <= k < |source.functions| && IsMain(source.functions[k]))
      && forall k :: 0 <= k < |source.functions| && IsMain(source.functions[k]) ==>
           source.functions[k].returnTypeName == Some("Integer")
  {
    var g := AnalyzeGlobals(sc, source.globals, 0);
    if g.Ok? && AnalyzeFunctions(g.value, source.functions, 0, false).Ok? {
      MainsReturnInteger(g.value, source.functions, 0, false);
      MainFound(g.value, source.functions, 0, false);
    }
  }

  lemma {:induction false} GlobalsDefined(sc: Scope, globals: seq<Global>, i: nat)
    requires i <= |globals|
    ensures var r := AnalyzeGlobals(sc, globals, i);
      r.Ok? ==>
        r.value.functions == sc.functions && r.value.parent == sc.parent
        && sc.variables.Keys <= r.value.variables.Keys
        && (forall k :: i <= k < |globals| ==> globals[k].name !in sc.variables && globals[k].name in r.value.variables)
        && (forall k, m :: i <= k < m < |globals| ==> globals[k].name != globals[m].name)
    decreases |globals| - i
  {
    if i < |globals| {
      var r := AnalyzeGlobal(sc, globals[i]);
      if r.Ok? {
        GlobalsDefined(r.value, globals, i + 1);
      }
    }
  }

  /** After the globals, each global is a variable of the analyzer's scope, and no two share a name. */
  lemma GlobalsDistinct(sc: Scope, globals: seq<Global>)
    ensures var r := AnalyzeGlobals(sc, globals, 0);
      r.Ok? ==>
        (forall k :: 0 <= k < |globals| ==> globals[k].name in r.value.variables)
        && forall k, m :: 0 <= k < m < |globals| ==> globals[k].name != globals[m].name
  {
    GlobalsDefined(sc, globals, 0);
  }
}
