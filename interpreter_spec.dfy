/**
 * What the Interpreter computes, as functions of the scope chain it runs in. An
 * expression yields a value and the chain after it (a call can assign to variables of
 * the caller's chain); a statement yields the chain after it and, when a Return is on
 * its way out, the value it carries. Loop turns and calls spend fuel: a run that needs
 * more than it is given ends in OutOfFuel.
 */
module InterpreterSpec {
  import opened Ast
  import Numerals

  // ---------------------------------------------------------------- messages

  const BooleanClass := "java.lang.Boolean"
  const BigIntegerClass := "java.math.BigInteger"
  const ComparableClass := "java.lang.Comparable"
  const InvalidPlusOperands := "Invalid operands for + operator."
  const IntRangeError := "BigInteger out of int range"
  const NegativeExponent := "Negative exponent"
  const DivideByZero := "Division by zero."
  const UnsupportedOperatorPrefix := "Unsupported operator: "

  /** The value an Environment.PlcObject holds. */
  datatype Value =
    | Nil
    | Bool(b: bool)
    | Int(i: int)              // BigInteger
    | Dec(d: Decimal)          // BigDecimal
    | Char(c: char)            // Character
    | Str(s: string)           // String
    | List(values: seq<Value>) // a list of PlcObjects

  /** Why a run stops. */
  datatype Failure =
    | Thrown(message: string)      // a RuntimeException or ArithmeticException with this message
    | WrongType(expected: string)  // requireType: the value is no instance of the named class
    | Unsupported                  // visit(Access) throws UnsupportedOperationException
    | Undefined(name: string)      // a lookup that no scope of the chain answers
    | Redefined(name: string)      // a define on a name the innermost scope already has
    | Crash                        // a failed cast, a null list or an index out of range
    | UnknownStringForm            // toString of Nil or of a list, which Environment writes
    | OutOfFuel                    // the run needed more loop turns or calls than its fuel

  datatype Outcome<+T> = Ok(value: T) | Fail(failure: Failure)
  {
    predicate IsFailure() { Fail? }

    function PropagateFailure<U>(): Outcome<U>
      requires Fail?
    {
      Fail(failure)
    }

    function Extract(): T
      requires Ok?
    {
      value
    }

    /** The outcome without its value: what a visit that returns NIL reports. */
    function Drop(): (r: Outcome<()>)
      ensures r.Ok? <==> Ok?
    {
      if Ok? then Ok(()) else Fail(failure)
    }
  }

  // ------------------------------------------------------------------- scopes

  /** What a name and arity are bound to: the print built-in, or a Function's code. */
  datatype Callable = Print | Defined(code: Function)

  /**
   * A Scope: its variables' values, its functions by name and arity, and its parent.
   * Every interpreter variable is defined mutable and mutability is never read, so
   * only the value is kept.
   */
  datatype Scope = Scope(variables: map<string, Value>, functions: map<(string, nat), Callable>, parent: Option<Scope>)

  /** new Scope(parent). */
  function Child(sc: Scope): Scope {
    Scope(map[], map[], Some(sc))
  }

  /** The scope the Interpreter constructor makes: print under the given parent. */
  function InitialScope(parent: Option<Scope>): Scope {
    Scope(map[], map[("print", 1) := Print], parent)
  }

  /** Everything about a chain of scopes but its variables' values. */
  datatype Shape = Shape(names: set<string>, functions: map<(string, nat), Callable>, parent: Option<Shape>)

  function ShapeOf(sc: Scope): (r: Shape)
    ensures r.names == sc.variables.Keys && r.functions == sc.functions
    ensures r.parent.Some? <==> sc.parent.Some?
    decreases sc
  {
    match sc.parent
    case None => Shape(sc.variables.Keys, sc.functions, None)
    case Some(p) => Shape(sc.variables.Keys, sc.functions, Some(ShapeOf(p)))
  }

  /** b is a with names added to its innermost scope, and values possibly changed. */
  predicate Grows(a: Scope, b: Scope) {
    a.variables.Keys <= b.variables.Keys && a.functions == b.functions && ShapeOf(a).parent == ShapeOf(b).parent
  }

  /** Some scope of the chain defines the variable. */
  predicate Defines(sc: Scope, name: string)
    decreases sc
  {
    name in sc.variables || (sc.parent.Some? && Defines(sc.parent.value, name))
  }

  /** lookupVariable(name).getValue(): the value in the innermost scope that defines the name. */
  function LookupVariable(sc: Scope, name: string): (r: Option<Value>)
    ensures r.Some? <==> Defines(sc, name)
    decreases sc
  {
    if name in sc.variables then Some(sc.variables[name])
    else match sc.parent
      case None => None
      case Some(p) => LookupVariable(p, name)
  }

  /** lookupVariable(name).setValue(v): the innermost scope that defines the name takes the value. */
  function Assign(sc: Scope, name: string, v: Value): (r: Scope)
    ensures ShapeOf(r) == ShapeOf(sc)
    decreases sc
  {
    if name in sc.variables then sc.(variables := sc.variables[name := v])
    else match sc.parent
      case None => sc
      case Some(p) => sc.(parent := Some(Assign(p, name, v)))
  }

  /** defineVariable: a name may be defined once in each scope. */
  function DefineVariable(sc: Scope, name: string, v: Value): (r: Outcome<Scope>)
    ensures r.Ok? <==> name !in sc.variables
    ensures r.Ok? ==> r.value == sc.(variables := sc.variables[name := v])
  {
    if name in sc.variables then Fail(Redefined(name)) else Ok(sc.(variables := sc.variables[name := v]))
  }

  /** defineFunction: a name and arity may be defined once in each scope. */
  function DefineFunction(sc: Scope, name: string, arity: nat, c: Callable): (r: Outcome<Scope>)
    ensures r.Ok? <==> (name, arity) !in sc.functions
    ensures r.Ok? ==> r.value == sc.(functions := sc.functions[(name, arity) := c])
  {
    if (name, arity) in sc.functions then Fail(Redefined(name))
    else Ok(sc.(functions := sc.functions[(name, arity) := c]))
  }

  /** lookupFunction: the innermost scope that defines the name with this arity. */
  function LookupFunction(sc: Scope, name: string, arity: nat): (r: Option<Callable>)
    ensures (name, arity) in sc.functions ==> r == Some(sc.functions[(name, arity)])
    decreases sc
  {
    if (name, arity) in sc.functions then Some(sc.functions[(name, arity)])
    else match sc.parent
      case None => None
      case Some(p) => LookupFunction(p, name, arity)
  }

  // ------------------------------------------------------------------- values

  /** Environment.create on a literal's object; the null literal is NIL. */
  function LiteralValue(lit: LitValue): Value {
    match lit
    case NilLit => Nil
    case BoolLit(b) => Bool(b)
    case IntLit(i) => Int(i)
    case DecLit(d) => Dec(d)
    case CharLit(c) => Char(c)
    case StrLit(s) => Str(s)
  }

  /** requireType(Boolean.class, …). */
  function RequireBool(v: Value): (r: Outcome<bool>)
    ensures r.Ok? <==> v.Bool?
    ensures r.Ok? ==> r.value == v.b
    ensures r.Fail? ==> r.failure == WrongType(BooleanClass)
  {
    if v.Bool? then Ok(v.b) else Fail(WrongType(BooleanClass))
  }

  /** requireType(BigInteger.class, …). */
  function RequireInteger(v: Value): (r: Outcome<int>)
    ensures r.Ok? <==> v.Int?
    ensures r.Ok? ==> r.value == v.i
    ensures r.Fail? ==> r.failure == WrongType(BigIntegerClass)
  {
    if v.Int? then Ok(v.i) else Fail(WrongType(BigIntegerClass))
  }

  /** The values whose Java object implements Comparable. */
  predicate IsComparable(v: Value) {
    v.Bool? || v.Int? || v.Dec? || v.Char? || v.Str?
  }

  /** requireType(Comparable.class, …). */
  function RequireComparable(v: Value): (r: Outcome<()>)
    ensures r.Ok? <==> IsComparable(v)
  {
    if IsComparable(v) then Ok(()) else Fail(WrongType(ComparableClass))
  }

  function Sign(x: int): (r: int)
    ensures r in {-1, 0, 1} && (r < 0 <==> x < 0) && (r > 0 <==> x > 0)
  {
    if x < 0 then -1 else if x > 0 then 1 else 0
  }

  /**
   * A character as a Java String holds it: one UTF-16 code unit below U+10000, otherwise
   * a high surrogate followed by a low surrogate.
   */
  function CodeUnits(c: char): (r: seq<int>)
    ensures |r| == 1 <==> c as int < 0x1_0000
    ensures |r| == 1 ==> r[0] == c as int && !(0xD800 <= r[0] < 0xE000)
    ensures |r| == 2 ==>
      0xD800 <= r[0] < 0xDC00 && 0xDC00 <= r[1] < 0xE000 && c as int == 0x1_0000 + (r[0] - 0xD800) * 0x400 + (r[1] - 0xDC00)
  {
    if c as int < 0x1_0000 then [c as int]
    else [0xD800 + (c as int - 0x1_0000) / 0x400, 0xDC00 + (c as int - 0x1_0000) % 0x400]
  }

  /** The UTF-16 code units of a string, character by character. */
  function Utf16(s: string): (r: seq<int>)
    ensures |s| <= |r| <= 2 * |s|
  {
    if s == [] then [] else CodeUnits(s[0]) + Utf16(s[1..])
  }

  /** Lexicographic comparison of code units, by sign: the first difference decides, else the shorter is less. */
  function CompareUnits(a: seq<int>, b: seq<int>): (r: int)
    ensures r in {-1, 0, 1}
    ensures |a| > 0 && |b| > 0 && a[0] != b[0] ==> r == Sign(a[0] - b[0])
    ensures a == [] ==> r == Sign(-|b|)
  {
    if |a| == 0 || |b| == 0 then Sign(|a| - |b|)
    else if a[0] != b[0] then Sign(a[0] - b[0])
    else CompareUnits(a[1..], b[1..])
  }

  /** A common prefix does not change the comparison. */
  lemma {:induction false} CompareUnitsAfterPrefix(p: seq<int>, a: seq<int>, b: seq<int>)
    ensures CompareUnits(p + a, p + b) == CompareUnits(a, b)
    decreases |p|
  {
    if p == [] {
      assert p + a == a && p + b == b;
    } else {
      assert (p + a)[1..] == p[1..] + a && (p + b)[1..] == p[1..] + b;
      CompareUnitsAfterPrefix(p[1..], a, b);
    }
  }

  /**
   * String.compareTo, by sign: the strings are compared as UTF-16 code units, so a
   * character from U+E000 to U+FFFF is greater than any character beyond U+FFFF.
   */
  function CompareStrings(a: string, b: string): (r: int)
    ensures r in {-1, 0, 1}
    ensures |a| > 0 && |b| > 0 && a[0] == b[0] ==> r == CompareStrings(a[1..], b[1..])
    ensures |a| > 0 && |b| > 0 && CodeUnits(a[0])[0] != CodeUnits(b[0])[0] ==>
      r == Sign(CodeUnits(a[0])[0] - CodeUnits(b[0])[0])
    ensures |a| > 0 && |b| > 0 && a[0] != b[0] && CodeUnits(a[0])[0] == CodeUnits(b[0])[0] ==>
      |CodeUnits(a[0])| == |CodeUnits(b[0])| == 2 && r == Sign(CodeUnits(a[0])[1] - CodeUnits(b[0])[1])
    ensures (a == [] || b == []) ==> r == Sign(|a| - |b|)
  {
    if |a| > 0 && |b| > 0 then
      var ua, ub := CodeUnits(a[0]), CodeUnits(b[0]);
      assert Utf16(a) == ua + Utf16(a[1..]) && Utf16(b) == ub + Utf16(b[1..]);
      if a[0] == b[0] then
        CompareUnitsAfterPrefix(ua, Utf16(a[1..]), Utf16(b[1..]));
        CompareUnits(Utf16(a), Utf16(b))
      else if ua[0] != ub[0] then
        CompareUnits(Utf16(a), Utf16(b))
      else
        assert |ua| == 2 && |ub| == 2;
        assert ua[1] != ub[1];
        assert Utf16(a)[1..] == [ua[1]] + Utf16(a[1..]) && Utf16(b)[1..] == [ub[1]] + Utf16(b[1..]);
        CompareUnits(Utf16(a), Utf16(b))
    else
      assert a == [] ==> Utf16(a) == [];
      assert b == [] ==> Utf16(b) == [];
      CompareUnits(Utf16(a), Utf16(b))
  }

  /** The sign of a decimal's value, as BigDecimal.compareTo weighs it: by value, whatever the scale. */
  function CompareDecimals(x: Decimal, y: Decimal): int {
    Sign(x.unscaled * Numerals.Pow10(y.scale) - y.unscaled * Numerals.Pow10(x.scale))
  }

  /**
   * compareTo between two Comparable objects, by sign; objects of different classes
   * throw ClassCastException.
   */
  function Compare(l: Value, r: Value): (c: Outcome<int>)
    requires IsComparable(l) && IsComparable(r)
    ensures c.Ok? <==> l.Bool? == r.Bool? && l.Int? == r.Int? && l.Dec? == r.Dec? && l.Char? == r.Char?
    ensures c.Ok? ==> c.value in {-1, 0, 1}
  {
    match (l, r)
    case (Bool(x), Bool(y)) => Ok(if x == y then 0 else if x then 1 else -1)
    case (Int(x), Int(y)) => Ok(Sign(x - y))
    case (Dec(x), Dec(y)) => Ok(CompareDecimals(x, y))
    case (Char(x), Char(y)) => Ok(Sign(x as int - y as int))
    case (Str(x), Str(y)) => Ok(CompareStrings(x, y))
    case _ => Fail(Crash)
  }

  /** toString of a value's object, where this model knows it. */
  function StringForm(v: Value): (r: Outcome<string>)
    ensures r.Ok? <==> !v.Nil? && !v.List?
  {
    match v
    case Str(s) => Ok(s)
    case Int(i) => Ok(Numerals.IntToString(i))
    case Dec(d) => Ok(Numerals.DecimalToString(d))
    case Bool(b) => Ok(if b then "true" else "false")
    case Char(c) => Ok([c])
    case _ => Fail(UnknownStringForm)
  }

  /** BigDecimal.add: the exact sum, at the larger of the two scales. */
  function AddDecimals(x: Decimal, y: Decimal): (r: Decimal)
    ensures r.scale == if x.scale < y.scale then y.scale else x.scale
  {
    var scale := if x.scale < y.scale then y.scale else x.scale;
    Decimal(x.unscaled * Numerals.Pow10(scale - x.scale) + y.unscaled * Numerals.Pow10(scale - y.scale), scale)
  }

  /** `+` on two values: concatenation when either is a String, else a sum of two numbers of one kind. */
  function Plus(l: Value, r: Value): (s: Outcome<Value>)
    ensures s.Ok? ==> s.value.Str? || s.value.Int? || s.value.Dec?
  {
    if l.Str? || r.Str? then
      var ls :- StringForm(l);
      var rs :- StringForm(r);
      Ok(Str(ls + rs))
    else if l.Int? && r.Int? then Ok(Int(l.i + r.i))
    else if l.Dec? && r.Dec? then Ok(Dec(AddDecimals(l.d, r.d)))
    else Fail(Thrown(InvalidPlusOperands))
  }

  /** BigInteger.divide: the quotient rounded toward zero. */
  function TruncatedDivision(a: int, b: int): int
    requires b != 0
  {
    var q := Numerals.Abs(a) / Numerals.Abs(b);
    if (a < 0) == (b < 0) then q else -q
  }

  function Power(b: int, n: nat): int {
    if n == 0 then 1 else b * Power(b, n - 1)
  }

  /** BigInteger.pow(exponent.intValueExact()). */
  function Exponentiate(b: int, exponent: int): (r: Outcome<int>)
    ensures r.Ok? <==> 0 <= exponent <= Numerals.IntMax
    ensures r.Ok? ==> r.value == Power(b, exponent)
  {
    if exponent < Numerals.IntMin || exponent > Numerals.IntMax then Fail(Thrown(IntRangeError))
    else if exponent < 0 then Fail(Thrown(NegativeExponent))
    else Ok(Power(b, exponent))
  }

  // -------------------------------------------------------------- evaluation

  /** A value and the chain after the expression that gave it. */
  datatype Evaluated = Evaluated(value: Value, scope: Scope)

  /** The values of a list of expressions, in order, and the chain after the last. */
  datatype Evaluations = Evaluations(values: seq<Value>, scope: Scope)

  /**
   * The chain after a statement, and the value of a Return on its way out (None when
   * the statement completed normally).
   */
  datatype Completion = Completion(returned: Option<Value>, scope: Scope)

  /** What a visit of an expression returns, or the failure. */
  function ValueOf(r: Outcome<Evaluated>): (v: Outcome<Value>)
    ensures v.Ok? <==> r.Ok?
  {
    match r
    case Ok(e) => Ok(e.value)
    case Fail(f) => Fail(f)
  }

  /** Whether a visit of a statement finished normally (None) or threw Return, or the failure. */
  function ReturnedOf(r: Outcome<Completion>): (v: Outcome<Option<Value>>)
    ensures v.Ok? <==> r.Ok?
  {
    match r
    case Ok(c) => Ok(c.returned)
    case Fail(f) => Fail(f)
  }

  /** The expressions a Call or a list literal evaluates in order. */
  function Items(e: Expr): seq<Expr>
    requires e.Call? || e.PlcList?
  {
    if e.Call? then e.arguments else e.values
  }

  /** visit(Expression). Evaluation never adds or removes a name anywhere in the chain. */
  function Eval(sc: Scope, e: Expr, fuel: nat): (r: Outcome<Evaluated>)
    ensures r.Ok? ==> ShapeOf(r.value.scope) == ShapeOf(sc)
    decreases fuel, e, 2
  {
    match e
    case Literal(lit) => Ok(Evaluated(LiteralValue(lit), sc))
    case Group(inner) => Eval(sc, inner, fuel)
    case Binary(_, _, _) => EvalBinary(sc, e, fuel)
    case Access(_, _) => Fail(Unsupported)
    case Call(_, _) => EvalCall(sc, e, fuel)
    case PlcList(_) =>
      var each :- EvalEach(sc, e, 0, [], fuel);
      Ok(Evaluated(List(each.values), each.scope))
  }

  /** The items of a Call or a list from item i on, appended to done. */
  function EvalEach(sc: Scope, e: Expr, i: nat, done: seq<Value>, fuel: nat): (r: Outcome<Evaluations>)
    requires (e.Call? || e.PlcList?) && i <= |Items(e)|
    ensures r.Ok? ==> ShapeOf(r.value.scope) == ShapeOf(sc) && |r.value.values| == |done| + |Items(e)| - i
    ensures r.Ok? ==> r.value.values[..|done|] == done
    ensures i < |Items(e)| && Eval(sc, Items(e)[i], fuel).Fail? ==> r == Fail(Eval(sc, Items(e)[i], fuel).failure)
    ensures r.Ok? && i < |Items(e)| ==>
              Eval(sc, Items(e)[i], fuel).Ok? && r.value.values[|done|] == Eval(sc, Items(e)[i], fuel).value.value
    decreases fuel, e, 0, |Items(e)| - i
  {
    if i == |Items(e)| then Ok(Evaluations(done, sc))
    else
      var v :- Eval(sc, Items(e)[i], fuel);
      EvalEach(v.scope, e, i + 1, done + [v.value], fuel)
  }

  /** visit(Binary): the operands in the operator's order, each checked as soon as it is evaluated. */
  function EvalBinary(sc: Scope, e: Expr, fuel: nat): (r: Outcome<Evaluated>)
    requires e.Binary?
    ensures r.Ok? ==> ShapeOf(r.value.scope) == ShapeOf(sc)
    decreases fuel, e, 1
  {
    match e.operator
    case "&&" =>
      var l :- Eval(sc, e.left, fuel);
      var lb :- RequireBool(l.value);
      if !lb then Ok(Evaluated(Bool(false), l.scope))
      else
        var r :- Eval(l.scope, e.right, fuel);
        var rb :- RequireBool(r.value);
        Ok(Evaluated(Bool(rb), r.scope))
    case "||" =>
      var l :- Eval(sc, e.left, fuel);
      var lb :- RequireBool(l.value);
      if lb then Ok(Evaluated(Bool(true), l.scope))
      else
        var r :- Eval(l.scope, e.right, fuel);
        var rb :- RequireBool(r.value);
        Ok(Evaluated(Bool(rb), r.scope))
    case "<" | ">" =>
      var l :- Eval(sc, e.left, fuel);
      var _ :- RequireComparable(l.value);
      var r :- Eval(l.scope, e.right, fuel);
      var _ :- RequireComparable(r.value);
      var c :- Compare(l.value, r.value);
      Ok(Evaluated(Bool(if e.operator == "<" then c < 0 else c > 0), r.scope))
    case "==" | "!=" =>
      var l :- Eval(sc, e.left, fuel);
      var r :- Eval(l.scope, e.right, fuel);
      Ok(Evaluated(Bool((l.value == r.value) == (e.operator == "==")), r.scope))
    case "+" =>
      var l :- Eval(sc, e.left, fuel);
      var r :- Eval(l.scope, e.right, fuel);
      var v :- Plus(l.value, r.value);
      Ok(Evaluated(v, r.scope))
    case "-" | "*" =>
      var l :- Eval(sc, e.left, fuel);
      var li :- RequireInteger(l.value);
      var r :- Eval(l.scope, e.right, fuel);
      var ri :- RequireInteger(r.value);
      Ok(Evaluated(Int(if e.operator == "-" then li - ri else li * ri), r.scope))
    case "/" =>
      var r :- Eval(sc, e.right, fuel);
      var ri :- RequireInteger(r.value);
      if ri == 0 then Fail(Thrown(DivideByZero))
      else
        var l :- Eval(r.scope, e.left, fuel);
        var li :- RequireInteger(l.value);
        Ok(Evaluated(Int(TruncatedDivision(li, ri)), l.scope))
    case "^" =>
      var l :- Eval(sc, e.left, fuel);
      var li :- RequireInteger(l.value);
      var r :- Eval(l.scope, e.right, fuel);
      var ri :- RequireInteger(r.value);
      var p :- Exponentiate(li, ri);
      Ok(Evaluated(Int(p), r.scope))
    case _ => Fail(Thrown(UnsupportedOperatorPrefix + e.operator))
  }

  /**
   * visit(Function call): the arguments are evaluated in a child scope, the function is
   * looked up from there by name and arity and invoked, and the child is left again.
   */
  function EvalCall(sc: Scope, call: Expr, fuel: nat): (r: Outcome<Evaluated>)
    requires call.Call?
    ensures r.Ok? ==> ShapeOf(r.value.scope) == ShapeOf(sc)
    decreases fuel, call, 1
  {
    var args :- EvalEach(Child(sc), call, 0, [], fuel);
    match LookupFunction(args.scope, call.name, |args.values|)
    case None => Fail(Undefined(call.name))
    case Some(callee) =>
      if fuel == 0 then Fail(OutOfFuel)
      else
        var result :- Invoke(args.scope, callee, args.values, fuel - 1);
        Ok(Evaluated(result.value, result.scope.parent.value))
  }

  /**
   * The callable a function name is bound to, run from the caller's chain: the body in
   * a child scope with the parameters bound, its Return value or else NIL, and the
   * caller's chain again afterwards.
   */
  function Invoke(caller: Scope, callee: Callable, args: seq<Value>, fuel: nat): (r: Outcome<Evaluated>)
    ensures r.Ok? ==> ShapeOf(r.value.scope) == ShapeOf(caller)
    decreases fuel
  {
    match callee
    case Print => Ok(Evaluated(Nil, caller))
    case Defined(f) =>
      var bound :- BindParameters(Child(caller), f.parameters, args, 0);
      var body :- ExecBlock(bound, f.statements, 0, fuel);
      var result := if body.returned.Some? then body.returned.value else Nil;
      Ok(Evaluated(result, body.scope.parent.value))
  }

  /** The parameter loop of a call: parameter i takes argument i. */
  function BindParameters(sc: Scope, parameters: seq<string>, args: seq<Value>, i: nat): (r: Outcome<Scope>)
    requires i <= |parameters|
    ensures r.Ok? ==> Grows(sc, r.value)
    decreases |parameters| - i
  {
    if i == |parameters| then Ok(sc)
    else if i >= |args| then Fail(Crash)
    else
      var next :- DefineVariable(sc, parameters[i], args[i]);
      BindParameters(next, parameters, args, i + 1)
  }

  // --------------------------------------------------------------- execution

  /** visit(Declaration) and visit(Global): a new variable, given its value or NIL. */
  function Define(sc: Scope, name: string, value: Option<Expr>, fuel: nat): (r: Outcome<Scope>)
    ensures r.Ok? ==> Grows(sc, r.value) && name in r.value.variables
    decreases fuel, value, 3
  {
    match value
    case None => DefineVariable(sc, name, Nil)
    case Some(e) =>
      var v :- Eval(sc, e, fuel);
      DefineVariable(v.scope, name, v.value)
  }

  /**
   * visit(Statement). Only a declaration adds a name, and only to the innermost scope;
   * every block a statement enters is left again, whether or not a Return is under way.
   */
  function Exec(sc: Scope, s: Stmt, fuel: nat): (r: Outcome<Completion>)
    ensures r.Ok? ==> Grows(sc, r.value.scope)
    ensures r.Ok? && !s.Declaration? ==> ShapeOf(r.value.scope) == ShapeOf(sc)
    ensures r.Ok? && r.value.returned.Some? ==> !s.Expression? && !s.Declaration? && !s.Assignment?
    decreases fuel, s, 2
  {
    match s
    case Expression(e) =>
      var v :- Eval(sc, e, fuel);
      Ok(Completion(None, v.scope))
    case Declaration(name, _, value) =>
      var defined :- Define(sc, name, value, fuel);
      Ok(Completion(None, defined))
    case Assignment(receiver, value) =>
      if !receiver.Access? then Ok(Completion(None, sc))
      else if !Defines(sc, receiver.name) then Fail(Undefined(receiver.name))
      else
        var v :- Eval(sc, value, fuel);
        Ok(Completion(None, Assign(v.scope, receiver.name, v.value)))
    case If(_, _, _) => IfOnce(sc, s, fuel)
    case Switch(condition, _) =>
      var c :- Eval(sc, condition, fuel);
      var done :- MatchingCase(Child(c.scope), s, c.value, 0, fuel);
      Ok(Completion(done.returned, done.scope.parent.value))
    case While(_, _) => WhileLoop(sc, s, fuel)
    case Return(value) =>
      var v :- Eval(sc, value, fuel);
      Ok(Completion(Some(v.value), v.scope))
  }

  /** The statements of a block from statement i on, until one of them returns. */
  function ExecBlock(sc: Scope, statements: seq<Stmt>, i: nat, fuel: nat): (r: Outcome<Completion>)
    requires i <= |statements|
    ensures r.Ok? ==> Grows(sc, r.value.scope)
    decreases fuel, statements, |statements| - i
  {
    if i == |statements| then Ok(Completion(None, sc))
    else
      var c :- Exec(sc, statements[i], fuel);
      if c.returned.Some? then Ok(c)
      else ExecBlock(c.scope, statements, i + 1, fuel)
  }

  /**
   * An If as evidently intended: a Boolean condition, then exactly one branch in a
   * child scope, none when the false branch is missing.
   */
  function IfOnce(sc: Scope, s: Stmt, fuel: nat): (r: Outcome<Completion>)
    requires s.If?
    ensures r.Ok? ==> ShapeOf(r.value.scope) == ShapeOf(sc)
    decreases fuel, s, 0
  {
    var c :- Eval(sc, s.condition, fuel);
    var b :- RequireBool(c.value);
    var body :-
      if b then ExecBlock(Child(c.scope), s.thenStatements, 0, fuel)
      else if s.elseStatements.Else? then ExecBlock(Child(c.scope), s.elseStatements.statements, 0, fuel)
      else Ok(Completion(None, Child(c.scope)));
    Ok(Completion(body.returned, body.scope.parent.value))
  }

  /**
   * visit(If) as written: a loop that runs while the condition is Boolean, evaluating it
   * again in the child scope to pick the branch, and reading the missing false branch as
   * a null list.
   */
  function IfAsWritten(sc: Scope, s: Stmt, fuel: nat): (r: Outcome<Completion>)
    requires s.If?
    ensures r.Ok? ==> ShapeOf(r.value.scope) == ShapeOf(sc) && r.value.returned.Some?
    decreases fuel, s, 0
  {
    var c :- Eval(sc, s.condition, fuel);
    var _ :- RequireBool(c.value);
    if fuel == 0 then Fail(OutOfFuel)
    else
      var again :- Eval(Child(c.scope), s.condition, fuel - 1);
      var branch :-
        match again.value
        case Bool(true) => Ok(s.thenStatements)
        case Bool(false) => (match s.elseStatements case NoElse => Fail(Crash) case Else(es) => Ok(es))
        case _ => Fail(Crash);
      var body :- ExecBlock(again.scope, branch, 0, fuel - 1);
      var after := body.scope.parent.value;
      if body.returned.Some? then Ok(Completion(body.returned, after))
      else IfAsWritten(after, s, fuel - 1)
  }

  /**
   * The first case loop of visit(Switch), from case i on, in the switch's child scope:
   * each case value is evaluated in turn and the first equal to the condition's value
   * runs; when none is, the default loop runs.
   */
  function MatchingCase(sc: Scope, s: Stmt, conditionValue: Value, i: nat, fuel: nat): (r: Outcome<Completion>)
    requires s.Switch? && i <= |s.cases|
    ensures r.Ok? ==> Grows(sc, r.value.scope)
    decreases fuel, s, 1, |s.cases| - i
  {
    if i == |s.cases| then DefaultCase(sc, s, 0, fuel)
    else
      var c := s.cases[i];
      if c.value.None? then MatchingCase(sc, s, conditionValue, i + 1, fuel)
      else
        var v :- Eval(sc, c.value.value, fuel);
        if v.value == conditionValue then ExecBlock(v.scope, c.statements, 0, fuel)
        else MatchingCase(v.scope, s, conditionValue, i + 1, fuel)
  }

  /** The second case loop of visit(Switch), from case i on: the first case without a value runs. */
  function DefaultCase(sc: Scope, s: Stmt, i: nat, fuel: nat): (r: Outcome<Completion>)
    requires s.Switch? && i <= |s.cases|
    ensures r.Ok? ==> Grows(sc, r.value.scope)
    decreases fuel, s, 0, |s.cases| - i
  {
    if i == |s.cases| then Ok(Completion(None, sc))
    else if s.cases[i].value.None? then ExecBlock(sc, s.cases[i].statements, 0, fuel)
    else DefaultCase(sc, s, i + 1, fuel)
  }

  /**
   * visit(While): the condition is evaluated and checked before every turn; each turn
   * runs the body in a fresh child scope, and a Return ends the loop.
   */
  function WhileLoop(sc: Scope, s: Stmt, fuel: nat): (r: Outcome<Completion>)
    requires s.While?
    ensures r.Ok? ==> ShapeOf(r.value.scope) == ShapeOf(sc)
    decreases fuel, s, 0
  {
    var c :- Eval(sc, s.condition, fuel);
    var b :- RequireBool(c.value);
    if !b then Ok(Completion(None, c.scope))
    else if fuel == 0 then Fail(OutOfFuel)
    else
      var body :- ExecBlock(Child(c.scope), s.statements, 0, fuel - 1);
      var after := body.scope.parent.value;
      if body.returned.Some? then Ok(Completion(body.returned, after))
      else WhileLoop(after, s, fuel - 1)
  }

  // ---------------------------------------------------------------- programs

  /** The global loop of visit(Source), from global i on. */
  function RunGlobals(sc: Scope, globals: seq<Global>, i: nat, fuel: nat): (r: Outcome<Scope>)
    requires i <= |globals|
    ensures r.Ok? ==> Grows(sc, r.value)
    decreases |globals| - i
  {
    if i == |globals| then Ok(sc)
    else
      var next :- Define(sc, globals[i].name, globals[i].value, fuel);
      RunGlobals(next, globals, i + 1, fuel)
  }

  /** The function loop of visit(Source), from function i on: each defined under its name and arity. */
  function DefineFunctions(sc: Scope, functions: seq<Function>, i: nat): (r: Outcome<Scope>)
    requires i <= |functions|
    ensures r.Ok? ==> r.value.variables == sc.variables && r.value.parent == sc.parent
    decreases |functions| - i
  {
    if i == |functions| then Ok(sc)
    else
      var f := functions[i];
      var next :- DefineFunction(sc, f.name, |f.parameters|, Defined(f));
      DefineFunctions(next, functions, i + 1)
  }

  /** visit(Source): the globals, the functions, then main() with no arguments. */
  function Run(sc: Scope, source: Source, fuel: nat): (r: Outcome<Evaluated>) {
    var afterGlobals :- RunGlobals(sc, source.globals, 0, fuel);
    var defined :- DefineFunctions(afterGlobals, source.functions, 0);
    match LookupFunction(defined, "main", 0)
    case None => Fail(Undefined("main"))
    case Some(main) => Invoke(defined, main, [], fuel)
  }
}
