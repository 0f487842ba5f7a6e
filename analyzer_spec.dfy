/**
 * The static checks of the Analyzer, as functions of the scope they run in. Each
 * visit either succeeds, leaving the scope it was given or (for declarations) that
 * scope with a name added, or fails with the exception it throws. An expression's
 * visit yields the type it writes onto the node, or no type where it writes none.
 */
module AnalyzerSpec {
  import opened Ast
  import Numerals

  // ---------------------------------------------------------------- messages

  const IntegerOutOfRange := "Integer is not in range."
  const DecimalOutOfRange := "Decimal is not in range."
  const LogicalNeedsBooleans := "Logical operations require both operands to be Boolean."
  const ComparisonNeedsSameTypes := "Comparison operations require operands of the same type."
  const MixedAddition := "Cannot perform addition between Integer and Decimal."
  const AdditionNeedsCompatibleTypes := "Addition requires compatible types."
  const ArithmeticNeedsNumbers := "Arithmetic operations require numeric types."
  const ExponentNeedsIntegers := "Exponentiation requires Integer operands."
  const UnsupportedOperator := "Unsupported binary operator: "
  const GroupNotBinary := "Grouped expression must be a binary expression."
  const MixedListElements := "All elements in the list must have the same type."
  const DeclarationUntyped := "Declaration requires either a type or an initial value."
  const ExpressionNotCall := "Only function calls are allowed as statements. Invalid expression type. "
  const ReceiverNotAccess := "Assignment receiver must be an access expression."
  const WhileConditionNotBoolean := "Condition of while statement must be of type Boolean."
  const ReturnOutsideFunction := "Return statement not within a function."
  const IfConditionNotBoolean := "The condition of an 'if' statement must be of type Boolean."
  const EmptyThenBlock := "The 'then' block of an 'if' statement cannot be empty."
  const MisplacedDefault := "DEFAULT case must be the last case and appear only once."
  const CaseTypeMismatch := "Case value type does not match the type of the condition."
  const GlobalErrorPrefix := "Error defining global variable: "
  const MainNotInteger := "Main function must have an Integer return type."
  const MainNotFound := "Main function not found."

  /** Environment.Type. */
  datatype Type =
    | AnyType | NilType | ComparableType | BooleanType
    | IntegerType | DecimalType | CharacterType | StringType

  /** Environment.getType: the type a type name denotes; None where it throws. */
  function TypeNamed(name: string): (r: Option<Type>)
    ensures r.Some? <==> name in {"Any", "Nil", "Comparable", "Boolean", "Integer", "Decimal", "Character", "String"}
  {
    match name
    case "Any" => Some(AnyType)
    case "Nil" => Some(NilType)
    case "Comparable" => Some(ComparableType)
    case "Boolean" => Some(BooleanType)
    case "Integer" => Some(IntegerType)
    case "Decimal" => Some(DecimalType)
    case "Character" => Some(CharacterType)
    case "String" => Some(StringType)
    case _ => None
  }

  /** Why an analysis stops. */
  datatype Failure =
    | Rejected(message: string)          // a RuntimeException the Analyzer throws itself
    | NotAssignable(target: Type, actual: Type)  // requireAssignable
    | UnknownType(name: string)          // Environment.getType on a name that is no type
    | Redefined(name: string)            // a define on a name the innermost scope already has
    | Untyped                            // getType() on an expression the analysis gave no type
    | Crash                              // a null dereference or an index out of range

  datatype Outcome<+T> = Ok(value: T) | Fail(failure: Failure)
  {
    predicate IsFailure() { Fail? }

    function PropagateFailure<U>(): Outcome<U>
      requires Fail?
    {
      Fail(failure)
    }

    function Extract(): T
      requires Ok?
    {
      value
    }

    /** The outcome without its value: what a visit that returns nothing reports. */
    function Drop(): (r: Outcome<()>)
      ensures r.Ok? <==> Ok?
    {
      if Ok? then Ok(()) else Fail(failure)
    }
  }

  /** Succeeds when the condition holds, fails with f otherwise. */
  function Require(condition: bool, f: Failure): (r: Outcome<()>)
    ensures r.Ok? <==> condition
  {
    if condition then Ok(()) else Fail(f)
  }

  // ------------------------------------------------------------------- scopes

  /** Environment.Variable, as far as the analysis reads it. */
  datatype Variable = Variable(name: string, varType: Type, mutable: bool)

  /** Environment.Function, as far as the analysis reads it. */
  datatype Signature = Signature(parameterTypes: seq<Type>, returnType: Type)

  /** A Scope: its own variables and functions (by name and arity), and its parent. */
  datatype Scope = Scope(variables: map<string, Variable>, functions: map<(string, nat), Signature>, parent: Option<Scope>)

  /** new Scope(parent). */
  function Child(sc: Scope): Scope {
    Scope(map[], map[], Some(sc))
  }

  /** lookupVariable: the innermost scope that defines the name. */
  function LookupVariable(sc: Scope, name: string): (r: Option<Variable>)
    ensures name in sc.variables ==> r == Some(sc.variables[name])
    decreases sc
  {
    if name in sc.variables then Some(sc.variables[name])
    else match sc.parent
      case None => None
      case Some(p) => LookupVariable(p, name)
  }

  /** lookupFunction: the innermost scope that defines the name with this arity. */
  function LookupFunction(sc: Scope, name: string, arity: nat): (r: Option<Signature>)
    ensures (name, arity) in sc.functions ==> r == Some(sc.functions[(name, arity)])
    decreases sc
  {
    if (name, arity) in sc.functions then Some(sc.functions[(name, arity)])
    else match sc.parent
      case None => None
      case Some(p) => LookupFunction(p, name, arity)
  }

  /** defineVariable: a name may be defined once in each scope. */
  function DefineVariable(sc: Scope, v: Variable): (r: Outcome<Scope>)
    ensures r.Ok? <==> v.name !in sc.variables
    ensures r.Ok? ==> r.value.variables == sc.variables[v.name := v]
                      && r.value.functions == sc.functions && r.value.parent == sc.parent
  {
    if v.name in sc.variables then Fail(Redefined(v.name))
    else Ok(sc.(variables := sc.variables[v.name := v]))
  }

  /** The scope the Analyzer constructor makes: print(Any) returning Nil, under the given parent. */
  function InitialScope(parent: Option<Scope>): Scope {
    Scope(map[], map[("print", 1) := Signature([AnyType], NilType)], parent)
  }

  // ------------------------------------------------------------------- types

  /** requireAssignable's test: the same type, any type into Any, an ordered type into Comparable. */
  predicate IsAssignable(target: Type, t: Type) {
    t == target || target == AnyType
    || (target == ComparableType && t in {IntegerType, DecimalType, CharacterType, StringType})
  }

  function RequireAssignable(target: Type, t: Type): (r: Outcome<()>)
    ensures r.Ok? <==> IsAssignable(target, t)
  {
    Require(IsAssignable(target, t), NotAssignable(target, t))
  }

  /** getType(): the type a visit wrote, or an exception where it wrote none. */
  function TypeOrFail(t: Option<Type>): (r: Outcome<Type>)
    ensures r.Ok? <==> t.Some?
  {
    if t.Some? then Ok(t.value) else Fail(Untyped)
  }

  /**
   * BigDecimal.valueOf(Double.MIN_VALUE) <= d <= BigDecimal.valueOf(Double.MAX_VALUE), that is
   * 49 * 10^-325 <= d <= 17976931348623157 * 10^292 for d = unscaled * 10^-scale.
   */
  predicate DecimalInRange(d: Decimal) {
    d.unscaled * Numerals.Pow10(325) >= 49 * Numerals.Pow10(d.scale)
    && d.unscaled <= 17976931348623157 * Numerals.Pow10(292 + d.scale)
  }

  /** visit(Literal): the type of a literal; a Nil literal gets none. */
  function LiteralType(v: LitValue): (r: Outcome<Option<Type>>)
    ensures r.Ok? && r.value.Some? ==> r.value.value in {BooleanType, CharacterType, StringType, IntegerType, DecimalType}
  {
    match v
    case NilLit => Ok(None)
    case BoolLit(_) => Ok(Some(BooleanType))
    case CharLit(_) => Ok(Some(CharacterType))
    case StrLit(_) => Ok(Some(StringType))
    case IntLit(i) =>
      if Numerals.IntMin <= i <= Numerals.IntMax then Ok(Some(IntegerType)) else Fail(Rejected(IntegerOutOfRange))
    case DecLit(d) =>
      if DecimalInRange(d) then Ok(Some(DecimalType)) else Fail(Rejected(DecimalOutOfRange))
  }

  /** The operator switch of visit(Binary). */
  function BinaryType(op: string, left: Type, right: Type): (r: Outcome<Type>)
    ensures r.Ok? ==> r.value in {BooleanType, IntegerType, DecimalType, StringType}
  {
    match op
    case "&&" | "||" =>
      if left != BooleanType || right != BooleanType then
        Fail(Rejected(LogicalNeedsBooleans))
      else Ok(BooleanType)
    case "<" | ">" | "==" | "!=" =>
      if left != right then Fail(Rejected(ComparisonNeedsSameTypes))
      else Ok(BooleanType)
    case "+" =>
      if left == StringType || right == StringType then Ok(StringType)
      else if (left == IntegerType && right == DecimalType) || (left == DecimalType && right == IntegerType) then
        Fail(Rejected(MixedAddition))
      else if left == IntegerType && right == IntegerType then Ok(IntegerType)
      else if left == DecimalType && right == DecimalType then Ok(DecimalType)
      else Fail(Rejected(AdditionNeedsCompatibleTypes))
    case "-" | "*" | "/" =>
      if left == DecimalType || right == DecimalType then Ok(DecimalType)
      else if left == IntegerType && right == IntegerType then Ok(IntegerType)
      else Fail(Rejected(ArithmeticNeedsNumbers))
    case "^" =>
      if left == IntegerType && right == IntegerType then Ok(IntegerType)
      else Fail(Rejected(ExponentNeedsIntegers))
    case _ => Fail(Rejected(UnsupportedOperator + op))
  }

  // ------------------------------------------------------------- expressions

  /** The visit of an expression: the type it writes on the node (None for none), or the failure. */
  function TypeOf(sc: Scope, e: Expr): (r: Outcome<Option<Type>>)
    decreases e, 1
  {
    match e
    case Literal(v) => LiteralType(v)
    case Group(inner) =>
      if !inner.Binary? then Fail(Rejected(GroupNotBinary))
      else TypeOf(sc, inner)
    case Binary(_, _, _) => BinaryTypeOf(sc, e)
    case Access(_, name) =>
      (match LookupVariable(sc, name)
       case None => Fail(Rejected("Variable '" + name + "' not found."))
       case Some(v) => Ok(Some(v.varType)))
    case Call(_, _) => CallTypeOf(sc, e)
    case PlcList(_) => ListTypeOf(sc, e)
  }

  /** visit(Binary): both operands typed, then the operator's rule. */
  function BinaryTypeOf(sc: Scope, e: Expr): (r: Outcome<Option<Type>>)
    requires e.Binary?
    decreases e, 0
  {
    var l :- TypeOf(sc, e.left);
    var r :- TypeOf(sc, e.right);
    var lt :- TypeOrFail(l);
    var rt :- TypeOrFail(r);
    var t :- BinaryType(e.operator, lt, rt);
    Ok(Some(t))
  }

  /** visit(Function call): the function by name and arity, then each argument against its parameter. */
  function CallTypeOf(sc: Scope, e: Expr): (r: Outcome<Option<Type>>)
    requires e.Call?
    decreases e, 0
  {
    match LookupFunction(sc, e.name, |e.arguments|)
    case None =>
      Fail(Rejected("Function '" + e.name + "' with " + Numerals.IntToString(|e.arguments|) + " arguments not found."))
    case Some(f) =>
      var _ :- ArgumentsFrom(sc, e, f.parameterTypes, 0);
      Ok(Some(f.returnType))
  }

  /** visit(PlcList): every element of the first one's type; the list itself gets no type. */
  function ListTypeOf(sc: Scope, e: Expr): (r: Outcome<Option<Type>>)
    requires e.PlcList?
    decreases e, 0
  {
    if |e.values| == 0 then Ok(None)
    else
      var first :- TypeOf(sc, e.values[0]);
      var expected :- TypeOrFail(first);
      var _ :- ElementsFrom(sc, e, expected, 1);
      Ok(None)
  }

  /** The argument loop of visit(Function call), from argument i on. */
  function ArgumentsFrom(sc: Scope, call: Expr, parameterTypes: seq<Type>, i: nat): (r: Outcome<()>)
    requires call.Call? && i <= |call.arguments|
    decreases call, 0, |call.arguments| - i
  {
    if i == |call.arguments| then Ok(())
    else
      var a :- TypeOf(sc, call.arguments[i]);
      var _ :- Require(i < |parameterTypes|, Crash);
      var t :- TypeOrFail(a);
      var _ :- RequireAssignable(parameterTypes[i], t);
      ArgumentsFrom(sc, call, parameterTypes, i + 1)
  }

  /** The element loop of visit(PlcList), from element i on: each must have the first one's type. */
  function ElementsFrom(sc: Scope, list: Expr, expected: Type, i: nat): (r: Outcome<()>)
    requires list.PlcList? && 1 <= i <= |list.values|
    decreases list, 0, |list.values| - i
  {
    if i == |list.values| then Ok(())
    else
      var v :- TypeOf(sc, list.values[i]);
      var t :- TypeOrFail(v);
      var _ :- Require(t == expected, Rejected(MixedListElements));
      ElementsFrom(sc, list, expected, i + 1)
  }

  // -------------------------------------------------------------- statements

  /** The condition of an If or While: it must get the Boolean type. */
  function BooleanCondition(sc: Scope, condition: Expr, message: string): (r: Outcome<()>)
    ensures r.Ok? <==> TypeOf(sc, condition) == Ok(Some(BooleanType))
  {
    var c :- TypeOf(sc, condition);
    var t :- TypeOrFail(c);
    Require(t == BooleanType, Rejected(message))
  }

  /** The type a declaration gives its variable: its type name's, or else its value's. */
  function DeclaredType(sc: Scope, typeName: Option<string>, value: Option<Expr>): Outcome<Type> {
    if typeName.Some? then
      match TypeNamed(typeName.value)
      case None => Fail(UnknownType(typeName.value))
      case Some(t) => Ok(t)
    else if value.Some? then
      var v :- TypeOf(sc, value.value);
      TypeOrFail(v)
    else Fail(Rejected(DeclarationUntyped))
  }

  /**
   * The visit of a statement, with the enclosing function's return type (None outside
   * a function): the scope after it, or the failure.
   */
  function AnalyzeStatement(sc: Scope, ret: Option<Type>, s: Stmt): (r: Outcome<Scope>)
    ensures r.Ok? && !s.Declaration? ==> r.value == sc
    ensures r.Ok? && s.Declaration? ==>
      r.value.parent == sc.parent && r.value.functions == sc.functions
      && r.value.variables.Keys == sc.variables.Keys + {s.name}
    decreases s, 1
  {
    match s
    case Expression(e) =>
      if !e.Call? then Fail(Rejected(ExpressionNotCall))
      else
        var _ :- TypeOf(sc, e);
        Ok(sc)
    case Declaration(_, _, _) => AnalyzeDeclaration(sc, s)
    case Assignment(receiver, value) =>
      if !receiver.Access? then Fail(Rejected(ReceiverNotAccess))
      else
        var v :- TypeOf(sc, value);
        var rt :- TypeOf(sc, receiver);
        var vt :- TypeOrFail(v);
        var _ :- RequireAssignable(rt.value, vt);
        Ok(sc)
    case If(_, _, _) => AnalyzeIf(sc, ret, s)
    case Switch(_, _) => AnalyzeSwitch(sc, ret, s)
    case While(condition, statements) =>
      var _ :- BooleanCondition(sc, condition, WhileConditionNotBoolean);
      var _ :- AnalyzeBlock(Child(sc), ret, statements, 0);
      Ok(sc)
    case Return(value) =>
      if ret.None? then Fail(Rejected(ReturnOutsideFunction))
      else
        var v :- TypeOf(sc, value);
        var t :- TypeOrFail(v);
        var _ :- RequireAssignable(ret.value, t);
        Ok(sc)
  }

  /** visit(Declaration): the variable is defined in the current scope with its declared or its value's type. */
  function AnalyzeDeclaration(sc: Scope, s: Stmt): (r: Outcome<Scope>)
    requires s.Declaration?
    ensures r.Ok? ==>
      r.value.parent == sc.parent && r.value.functions == sc.functions
      && r.value.variables.Keys == sc.variables.Keys + {s.name}
  {
    var t :- DeclaredType(sc, s.typeName, s.value);
    var defined :- DefineVariable(sc, Variable(s.name, t, true));
    if s.value.None? then Ok(defined)
    else if s.typeName.Some? then Fail(Untyped)  // the value was never visited
    else Ok(defined)  // the declared type is the value's own, so requireAssignable passes
  }

  /** visit(If): a Boolean condition, a non-empty then block and an else block, each in a child scope. */
  function AnalyzeIf(sc: Scope, ret: Option<Type>, s: Stmt): (r: Outcome<Scope>)
    requires s.If?
    ensures r.Ok? ==> r.value == sc
    decreases s, 0
  {
    var _ :- BooleanCondition(sc, s.condition, IfConditionNotBoolean);
    var _ :- Require(|s.thenStatements| > 0, Rejected(EmptyThenBlock));
    var _ :- AnalyzeBlock(Child(sc), ret, s.thenStatements, 0);
    match s.elseStatements
    case NoElse => Fail(Crash)  // isEmpty() on a null list
    case Else(es) =>
      if |es| == 0 then Ok(sc)
      else
        var _ :- AnalyzeBlock(Child(sc), ret, es, 0);
        Ok(sc)
  }

  /** visit(Switch): a typed condition, then the cases against its type. */
  function AnalyzeSwitch(sc: Scope, ret: Option<Type>, s: Stmt): (r: Outcome<Scope>)
    requires s.Switch?
    ensures r.Ok? ==> r.value == sc
    decreases s, 0
  {
    var c :- TypeOf(sc, s.condition);
    var t :- TypeOrFail(c);
    var _ :- AnalyzeCases(sc, ret, t, s.cases, 0, false);
    Ok(sc)
  }

  /** The statements of a block from statement i on, each in the scope the previous one leaves. */
  function AnalyzeBlock(sc: Scope, ret: Option<Type>, statements: seq<Stmt>, i: nat): (r: Outcome<Scope>)
    requires i <= |statements|
    ensures r.Ok? ==> r.value.parent == sc.parent && r.value.functions == sc.functions
                      && sc.variables.Keys <= r.value.variables.Keys
    decreases statements, |statements| - i
  {
    if i == |statements| then Ok(sc)
    else
      var next :- AnalyzeStatement(sc, ret, statements[i]);
      AnalyzeBlock(next, ret, statements, i + 1)
  }

  /**
   * The check of one case's value in its scope: a value of the condition's type, or no
   * value on the last case when no DEFAULT came before.
   */
  function CaseValue(sc: Scope, conditionType: Type, c: Case, last: bool, defaultFound: bool): (r: Outcome<()>)
  {
    if c.value.Some? then ValueOfType(sc, conditionType, c.value.value)
    else Require(!defaultFound && last, Rejected(MisplacedDefault))
  }

  /** A case value, visited in sc, of the condition's type. */
  function ValueOfType(sc: Scope, conditionType: Type, value: Expr): Outcome<()> {
    var v :- TypeOf(sc, value);
    var t :- TypeOrFail(v);
    Require(t == conditionType, Rejected(CaseTypeMismatch))
  }

  /**
   * The case loop of visit(Switch), from case i on: each case in a fresh child of sc, a
   * case value of the condition's type, and a valueless case only once and only last.
   */
  function AnalyzeCases(sc: Scope, ret: Option<Type>, conditionType: Type, cases: seq<Case>, i: nat, defaultFound: bool): (r: Outcome<()>)
    requires i <= |cases|
    decreases cases, |cases| - i
  {
    if i == |cases| then Ok(())
    else
      var caseScope := Child(sc);
      var c := cases[i];
      var _ :- CaseValue(caseScope, conditionType, c, i == |cases| - 1, defaultFound);
      var _ :- AnalyzeBlock(caseScope, ret, c.statements, 0);
      AnalyzeCases(sc, ret, conditionType, cases, i + 1, defaultFound || c.value.None?)
  }

  /** visit(Case), which the Switch visit does not call: the value is visited but not compared. */
  function AnalyzeCase(sc: Scope, ret: Option<Type>, c: Case): (r: Outcome<Scope>)
    ensures r.Ok? ==> r.value == sc
  {
    var caseScope := Child(sc);
    var _ :- if c.value.Some? then TypeOf(caseScope, c.value.value) else Ok(None);
    var _ :- AnalyzeBlock(caseScope, ret, c.statements, 0);
    Ok(sc)
  }

  // --------------------------------------------------------- globals, functions

  /** visit(Global): only a Literal or Binary value is visited; any other value has no type. */
  function AnalyzeGlobal(sc: Scope, g: Global): (r: Outcome<Scope>)
    ensures r.Ok? ==>
      TypeNamed(g.typeName).Some? && g.name !in sc.variables
      && r.value == sc.(variables := sc.variables[g.name := Variable(g.name, TypeNamed(g.typeName).value, g.mutable)])
  {
    match TypeNamed(g.typeName)
    case None => Fail(UnknownType(g.typeName))
    case Some(t) =>
      var _ :-
        if g.value.None? then Ok(())
        else
          var e := g.value.value;
          var v :- if e.Literal? || e.Binary? then TypeOf(sc, e) else Fail(Untyped);
          var vt :- TypeOrFail(v);
          RequireAssignable(t, vt);
      if g.name in sc.variables then Fail(Rejected(GlobalErrorPrefix + g.name))
      else Ok(sc.(variables := sc.variables[g.name := Variable(g.name, t, g.mutable)]))
  }

  /** The parameter types, each type name looked up in order. */
  function TypesNamed(names: seq<string>): (r: Outcome<seq<Type>>)
    ensures r.Ok? ==> |r.value| == |names|
  {
    if |names| == 0 then Ok([])
    else
      var t :- match TypeNamed(names[0]) case None => Fail(UnknownType(names[0])) case Some(t) => Ok(t);
      var rest :- TypesNamed(names[1..]);
      Ok([t] + rest)
  }

  /** The parameter loop of visit(Function), from parameter i on, in the function's own scope. */
  function DefineParameters(sc: Scope, f: Function, types: seq<Type>, i: nat): (r: Outcome<Scope>)
    requires i <= |f.parameters| && |types| == |f.parameterTypeNames|
    decreases |f.parameters| - i
  {
    if i == |f.parameters| then Ok(sc)
    else
      var _ :- Require(i < |f.parameterTypeNames|, Crash);
      var next :- DefineVariable(sc, Variable(f.parameters[i], types[i], true));
      DefineParameters(next, f, types, i + 1)
  }

  /** The statement loop of visit(Function): only six kinds are visited, a Switch is skipped. */
  function AnalyzeBody(sc: Scope, ret: Type, statements: seq<Stmt>, i: nat): (r: Outcome<Scope>)
    requires i <= |statements|
    decreases |statements| - i
  {
    if i == |statements| then Ok(sc)
    else
      var next :- if statements[i].Switch? then Ok(sc) else AnalyzeStatement(sc, Some(ret), statements[i]);
      AnalyzeBody(next, ret, statements, i + 1)
  }

  /** The function's return type: its return type name, Nil when it has none. */
  function ReturnTypeName(f: Function): string {
    if f.returnTypeName.Some? then f.returnTypeName.value else "Nil"
  }

  /** visit(Function): the function is defined in sc, then its body is checked in a child scope. */
  function AnalyzeFunction(sc: Scope, f: Function): (r: Outcome<Scope>)
    ensures r.Ok? ==>
      TypesNamed(f.parameterTypeNames).Ok? && TypeNamed(ReturnTypeName(f)).Some?
      && (f.name, |f.parameterTypeNames|) !in sc.functions
      && r.value == sc.(functions := sc.functions[(f.name, |f.parameterTypeNames|) :=
                          Signature(TypesNamed(f.parameterTypeNames).value, TypeNamed(ReturnTypeName(f)).value)])
  {
    var types :- TypesNamed(f.parameterTypeNames);
    var ret :- match TypeNamed(ReturnTypeName(f)) case None => Fail(UnknownType(ReturnTypeName(f))) case Some(t) => Ok(t);
    var key := (f.name, |types|);
    var _ :- Require(key !in sc.functions, Redefined(f.name));
    var defined := sc.(functions := sc.functions[key := Signature(types, ret)]);
    var bodyScope :- DefineParameters(Child(defined), f, types, 0);
    var _ :- AnalyzeBody(bodyScope, ret, f.statements, 0);
    Ok(defined)
  }

  /** The global loop of visit(Source), from global i on. */
  function AnalyzeGlobals(sc: Scope, globals: seq<Global>, i: nat): (r: Outcome<Scope>)
    requires i <= |globals|
    decreases |globals| - i
  {
    if i == |globals| then Ok(sc)
    else
      var next :- AnalyzeGlobal(sc, globals[i]);
      AnalyzeGlobals(next, globals, i + 1)
  }

  /** main() with no parameters. */
  predicate IsMain(f: Function) {
    f.name == "main" && |f.parameters| == 0
  }

  /** The function loop of visit(Source), from function i on; a main must return Integer. */
  function AnalyzeFunctions(sc: Scope, functions: seq<Function>, i: nat, foundMain: bool): (r: Outcome<(Scope, bool)>)
    requires i <= |functions|
    decreases |functions| - i
  {
    if i == |functions| then Ok((sc, foundMain))
    else
      var next :- AnalyzeFunction(sc, functions[i]);
      var f := functions[i];
      var _ :- Require(!IsMain(f) || f.returnTypeName == Some("Integer"),
                       Rejected(MainNotInteger));
      AnalyzeFunctions(next, functions, i + 1, foundMain || IsMain(f))
  }

  /** visit(Source): the globals, then the functions, then the check that a main was found. */
  function AnalyzeSource(sc: Scope, source: Source): (r: Outcome<Scope>) {
    var afterGlobals :- AnalyzeGlobals(sc, source.globals, 0);
    var afterFunctions :- AnalyzeFunctions(afterGlobals, source.functions, 0, false);
    var _ :- Require(afterFunctions.1, Rejected(MainNotFound));
    Ok(afterFunctions.0)
  }
}
