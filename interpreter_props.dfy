/**
 * Properties of the Interpreter's evaluation: short-circuiting, the arithmetic and
 * comparison rules, case selection in a Switch, loops, calls and the scope chain.
 */
module InterpreterProps {
  import opened Ast
  import opened InterpreterSpec
  import Numerals

  // ---------------------------------------------------------------- && and ||

  /** A false left operand decides &&: the right operand is never evaluated. */
  lemma AndShortCircuits(sc: Scope, left: Expr, right: Expr, fuel: nat, after: Scope)
    requires Eval(sc, left, fuel) == Ok(Evaluated(Bool(false), after))
    ensures Eval(sc, Binary("&&", left, right), fuel) == Ok(Evaluated(Bool(false), after))
  {
  }

  /** A true left operand leaves && to the right operand, which must be Boolean too. */
  lemma AndTakesRight(sc: Scope, left: Expr, right: Expr, fuel: nat, after: Scope)
    requires Eval(sc, left, fuel) == Ok(Evaluated(Bool(true), after))
    ensures Eval(sc, Binary("&&", left, right), fuel).Ok?
            <==> Eval(after, right, fuel).Ok? && Eval(after, right, fuel).value.value.Bool?
    ensures Eval(sc, Binary("&&", left, right), fuel).Ok? ==>
              Eval(sc, Binary("&&", left, right), fuel) == Eval(after, right, fuel)
  {
  }

  /** A true left operand decides ||: the right operand is never evaluated. */
  lemma OrShortCircuits(sc: Scope, left: Expr, right: Expr, fuel: nat, after: Scope)
    requires Eval(sc, left, fuel) == Ok(Evaluated(Bool(true), after))
    ensures Eval(sc, Binary("||", left, right), fuel) == Ok(Evaluated(Bool(true), after))
  {
  }

  /** A false left operand leaves || to the right operand, which must be Boolean too. */
  lemma OrTakesRight(sc: Scope, left: Expr, right: Expr, fuel: nat, after: Scope)
    requires Eval(sc, left, fuel) == Ok(Evaluated(Bool(false), after))
    ensures Eval(sc, Binary("||", left, right), fuel).Ok?
            <==> Eval(after, right, fuel).Ok? && Eval(after, right, fuel).value.value.Bool?
    ensures Eval(sc, Binary("||", left, right), fuel).Ok? ==>
              Eval(sc, Binary("||", left, right), fuel) == Eval(after, right, fuel)
  {
  }

  /** A left operand that is no Boolean fails both operators before the right one is evaluated. */
  lemma LogicalNeedsBoolean(sc: Scope, op: string, left: Expr, right: Expr, fuel: nat, v: Value, after: Scope)
    requires op in {"&&", "||"} && Eval(sc, left, fuel) == Ok(Evaluated(v, after)) && !v.Bool?
    ensures Eval(sc, Binary(op, left, right), fuel) == Fail(WrongType(BooleanClass))
  {
  }

  // ----------------------------------------------------------------------- +

  /** A String on either side makes + a concatenation of the two string forms. */
  lemma PlusConcatenates(l: Value, r: Value)
    requires l.Str? || r.Str?
    ensures Plus(l, r).Ok? <==> StringForm(l).Ok? && StringForm(r).Ok?
    ensures Plus(l, r).Ok? ==> Plus(l, r) == Ok(Str(StringForm(l).value + StringForm(r).value))
  {
  }

  /** Without a String, + needs two Integers or two Decimals; any other pair is rejected. */
  lemma PlusNeedsOneKind(l: Value, r: Value)
    requires !l.Str? && !r.Str?
    ensures Plus(l, r).Ok? <==> (l.Int? && r.Int?) || (l.Dec? && r.Dec?)
    ensures Plus(l, r).Fail? ==> Plus(l, r).failure == Thrown(InvalidPlusOperands)
    ensures l.Int? && r.Int? ==> Plus(l, r) == Ok(Int(l.i + r.i))
  {
  }

  lemma {:induction false} Pow10Add(m: nat, n: nat)
    ensures Numerals.Pow10(m + n) == Numerals.Pow10(m) * Numerals.Pow10(n)
    decreases m
  {
    if m > 0 {
      Pow10Add(m - 1, n);
      assert Numerals.Pow10(m + n) == 10 * Numerals.Pow10(m - 1 + n);
    }
  }

  /**
   * The sum of two decimals is exact: with d's value d.unscaled / 10^d.scale, the sum's
   * value is x's plus y's, whatever their scales.
   */
  lemma DecimalSumExact(x: Decimal, y: Decimal)
    ensures var s := AddDecimals(x, y);
            s.unscaled * (Numerals.Pow10(x.scale) * Numerals.Pow10(y.scale))
            == (x.unscaled * Numerals.Pow10(y.scale) + y.unscaled * Numerals.Pow10(x.scale)) * Numerals.Pow10(s.scale)
  {
    var s := AddDecimals(x, y);
    Pow10Add(s.scale - x.scale, x.scale);
    Pow10Add(s.scale - y.scale, y.scale);
    SumScaled(x.unscaled, y.unscaled, Numerals.Pow10(s.scale - x.scale), Numerals.Pow10(s.scale - y.scale),
              Numerals.Pow10(x.scale), Numerals.Pow10(y.scale), Numerals.Pow10(s.scale));
  }

  /** Two numerators brought to a common power of ten keep their sum. */
  lemma SumScaled(xu: int, yu: int, ax: int, ay: int, px: int, py: int, ps: int)
    requires ax * px == ps && ay * py == ps
    ensures (xu * ax + yu * ay) * (px * py) == (xu * py + yu * px) * ps
  {
    calc {
      (xu * ax + yu * ay) * (px * py);
      xu * ax * (px * py) + yu * ay * (px * py);
      { assert xu * ax * (px * py) == xu * py * (ax * px); }
      xu * py * ps + yu * ay * (px * py);
      { assert yu * ay * (px * py) == yu * px * (ay * py); }
      xu * py * ps + yu * px * ps;
      (xu * py + yu * px) * ps;
    }
  }

  /** Two decimals added keep the larger scale and an exact sum. */
  lemma PlusDecimals(x: Decimal, y: Decimal)
    ensures Plus(Dec(x), Dec(y)) == Ok(Dec(AddDecimals(x, y)))
    ensures AddDecimals(x, y).scale >= x.scale && AddDecimals(x, y).scale >= y.scale
  {
  }

  // ------------------------------------------------------------ - * / and ^

  /** -, * and ^ take BigIntegers only: a Decimal left operand fails before the right one is evaluated. */
  lemma DecimalArithmeticRejected(sc: Scope, op: string, left: Expr, right: Expr, fuel: nat, d: Decimal, after: Scope)
    requires op in {"-", "*", "^"} && Eval(sc, left, fuel) == Ok(Evaluated(Dec(d), after))
    ensures Eval(sc, Binary(op, left, right), fuel) == Fail(WrongType(BigIntegerClass))
  {
  }

  /** A right operand of zero fails / before the left operand is evaluated, whatever it is. */
  lemma DivisionByZero(sc: Scope, left: Expr, right: Expr, fuel: nat, after: Scope)
    requires Eval(sc, right, fuel) == Ok(Evaluated(Int(0), after))
    ensures Eval(sc, Binary("/", left, right), fuel) == Fail(Thrown(DivideByZero))
  {
  }

  /**
   * Division rounds toward zero: the remainder is smaller than the divisor and has the
   * dividend's sign, so the product never exceeds the dividend in size.
   */
  lemma TruncatedDivisionTowardZero(a: int, b: int)
    requires b != 0
    ensures var q := TruncatedDivision(a, b);
            var rem := a - q * b;
            Numerals.Abs(rem) < Numerals.Abs(b) && (rem == 0 || (rem < 0 <==> a < 0))
            && Numerals.Abs(q * b) <= Numerals.Abs(a)
  {
    var A, B := Numerals.Abs(a), Numerals.Abs(b);
    var p, m := EuclideanParts(A, B);
    SignedProduct(a, b, A / B, B, p);
    TowardZeroFromProduct(a, b, TruncatedDivision(a, b) * b, m);
  }

  /** A = (A / B) * B + A % B, with a non-negative product for a non-negative dividend. */
  lemma EuclideanParts(A: int, B: int) returns (p: int, m: int)
    requires A >= 0 && B > 0
    ensures p == (A / B) * B && m == A % B && A == p + m && 0 <= m < B && m <= A && p >= 0
  {
    p, m := (A / B) * B, A % B;
    assert A / B >= 0;
  }

  /** The quotient's sign follows the operands' signs, and so does its product with the divisor. */
  lemma SignedProduct(a: int, b: int, q0: int, B: int, p: int)
    requires B > 0 && (b == B || b == -B) && p == q0 * B
    ensures (if (a < 0) == (b < 0) then q0 else -q0) * b == if a < 0 then -p else p
  {
    if b == -B {
      assert q0 * b == -p && -q0 * b == p;
    } else {
      assert -q0 * b == -p;
    }
  }

  /** The remainder's bounds, once the product is known to be the dividend less a small remainder of its sign. */
  lemma TowardZeroFromProduct(a: int, b: int, product: int, m: int)
    requires b != 0 && 0 <= m < Numerals.Abs(b) && m <= Numerals.Abs(a)
    requires product == if a < 0 then -(Numerals.Abs(a) - m) else Numerals.Abs(a) - m
    ensures var rem := a - product;
            Numerals.Abs(rem) < Numerals.Abs(b) && (rem == 0 || (rem < 0 <==> a < 0))
            && Numerals.Abs(product) <= Numerals.Abs(a)
  {
  }

  lemma {:induction false} PowerAdds(b: int, m: nat, n: nat)
    ensures Power(b, m + n) == Power(b, m) * Power(b, n)
    decreases m
  {
    if m > 0 {
      PowerAdds(b, m - 1, n);
      assert Power(b, m + n) == b * Power(b, m - 1 + n);
    }
  }

  /** ^ raises the base to an exponent that fits an int; a negative exponent or one beyond int fails. */
  lemma PowerRules(b: int, exponent: int)
    ensures exponent < Numerals.IntMin || exponent > Numerals.IntMax ==>
              Exponentiate(b, exponent) == Fail(Thrown(IntRangeError))
    ensures Numerals.IntMin <= exponent < 0 ==> Exponentiate(b, exponent) == Fail(Thrown(NegativeExponent))
    ensures 0 <= exponent <= Numerals.IntMax ==> Exponentiate(b, exponent) == Ok(Power(b, exponent))
  {
  }

  // -------------------------------------------------------------- comparisons

  lemma {:induction false} CompareUnitsAntisymmetric(a: seq<int>, b: seq<int>)
    ensures CompareUnits(b, a) == -CompareUnits(a, b)
    decreases |a|
  {
    if |a| > 0 && |b| > 0 && a[0] == b[0] {
      CompareUnitsAntisymmetric(a[1..], b[1..]);
    }
  }

  /** Comparing strings is antisymmetric: swapping them negates the sign. */
  lemma CompareStringsAntisymmetric(a: string, b: string)
    ensures CompareStrings(b, a) == -CompareStrings(a, b)
  {
    CompareUnitsAntisymmetric(Utf16(a), Utf16(b));
  }

  lemma {:induction false} CompareUnitsZero(a: seq<int>, b: seq<int>)
    ensures CompareUnits(a, b) == 0 <==> a == b
    decreases |a|
  {
    if |a| > 0 && |b| > 0 && a[0] == b[0] {
      CompareUnitsZero(a[1..], b[1..]);
      assert a == [a[0]] + a[1..] && b == [b[0]] + b[1..];
      if a != b {
        assert a[1..] != b[1..];
      }
    } else if |a| != |b| {
      assert a != b;
    }
  }

  /** Two characters with the same code units are the same character. */
  lemma CodeUnitsInjective(c: char, d: char)
    requires CodeUnits(c)[0] == CodeUnits(d)[0] && (|CodeUnits(c)| == 1 || CodeUnits(c) == CodeUnits(d))
    ensures c == d
  {
  }

  /** Different strings have different UTF-16 code units. */
  lemma {:induction false} Utf16Injective(a: string, b: string)
    requires Utf16(a) == Utf16(b)
    ensures a == b
    decreases |a|
  {
    if a != [] && b != [] {
      var ua, ub := CodeUnits(a[0]), CodeUnits(b[0]);
      assert Utf16(a) == ua + Utf16(a[1..]) && Utf16(b) == ub + Utf16(b[1..]);
      assert ua[0] == Utf16(a)[0] == ub[0];
      assert |ua| == |ub|;
      assert ua == Utf16(a)[..|ua|] == ub;
      CodeUnitsInjective(a[0], b[0]);
      assert Utf16(a)[|ua|..] == Utf16(a[1..]) && Utf16(b)[|ub|..] == Utf16(b[1..]);
      Utf16Injective(a[1..], b[1..]);
      assert a == [a[0]] + a[1..] && b == [b[0]] + b[1..];
    }
  }

  /** Two strings compare as zero exactly when they are equal. */
  lemma CompareStringsZero(a: string, b: string)
    ensures CompareStrings(a, b) == 0 <==> a == b
  {
    CompareUnitsZero(Utf16(a), Utf16(b));
    if Utf16(a) == Utf16(b) {
      Utf16Injective(a, b);
    }
  }

  /**
   * Code-unit order is not character order: U+FFFF is one unit, U+10000 starts with the
   * high surrogate 0xD800, so "\uFFFF" compares greater than the later character.
   */
  lemma CompareStringsByCodeUnits()
    ensures CompareStrings("\U{FFFF}", "\U{10000}") == 1
    ensures '\U{FFFF}' < '\U{10000}'
  {
    assert CodeUnits('\U{10000}')[0] == 0xD800;
  }

  /** compareTo is antisymmetric: swapping the operands negates the result. */
  lemma CompareAntisymmetric(l: Value, r: Value)
    requires IsComparable(l) && IsComparable(r) && Compare(l, r).Ok?
    ensures Compare(r, l) == Ok(-Compare(l, r).value)
  {
    if l.Str? {
      CompareStringsAntisymmetric(l.s, r.s);
    }
  }

  /** Outside decimals, compareTo gives zero exactly when the two values are equal. */
  lemma CompareZeroMeansEqual(l: Value, r: Value)
    requires IsComparable(l) && IsComparable(r) && Compare(l, r).Ok? && !l.Dec?
    ensures Compare(l, r).value == 0 <==> l == r
  {
    if l.Str? {
      CompareStringsZero(l.s, r.s);
    }
  }

  /** 2.0 and 2.00 compare equal by value, yet are not equal: neither <, > nor == holds between them. */
  lemma DecimalScaleSeparatesEquality()
    ensures Compare(Dec(Decimal(20, 1)), Dec(Decimal(200, 2))) == Ok(0)
    ensures Dec(Decimal(20, 1)) != Dec(Decimal(200, 2))
  {
    assert Numerals.Pow10(2) == 100 && Numerals.Pow10(1) == 10;
  }

  /** a < b between two literals is b > a. */
  lemma LessIsGreaterSwapped(sc: Scope, a: LitValue, b: LitValue, fuel: nat)
    ensures Eval(sc, Binary("<", Literal(a), Literal(b)), fuel) == Eval(sc, Binary(">", Literal(b), Literal(a)), fuel)
  {
    var l, r := LiteralValue(a), LiteralValue(b);
    assert Eval(sc, Literal(a), fuel) == Ok(Evaluated(l, sc));
    assert Eval(sc, Literal(b), fuel) == Ok(Evaluated(r, sc));
    if IsComparable(l) && IsComparable(r) && Compare(l, r).Ok? {
      CompareAntisymmetric(l, r);
    }
  }

  /** != is the negation of ==, and they fail alike. */
  lemma NotEqualsNegates(sc: Scope, left: Expr, right: Expr, fuel: nat)
    ensures Eval(sc, Binary("==", left, right), fuel).Ok? <==> Eval(sc, Binary("!=", left, right), fuel).Ok?
    ensures Eval(sc, Binary("==", left, right), fuel).Ok? ==>
              Eval(sc, Binary("==", left, right), fuel).value.value.Bool?
              && Eval(sc, Binary("!=", left, right), fuel)
                 == Ok(Evaluated(Bool(!Eval(sc, Binary("==", left, right), fuel).value.value.b),
                                 Eval(sc, Binary("==", left, right), fuel).value.scope))
  {
  }

  /** == between literals is equality of their values. */
  lemma EqualsIsValueEquality(sc: Scope, a: LitValue, b: LitValue, fuel: nat)
    ensures Eval(sc, Binary("==", Literal(a), Literal(b)), fuel) == Ok(Evaluated(Bool(LiteralValue(a) == LiteralValue(b)), sc))
  {
    assert Eval(sc, Literal(a), fuel) == Ok(Evaluated(LiteralValue(a), sc));
    assert Eval(sc, Literal(b), fuel) == Ok(Evaluated(LiteralValue(b), sc));
  }

  // -------------------------------------------------------- expressions, misc

  /** The values of literal expressions, in order. */
  function LiteralValues(es: seq<Expr>): (r: seq<Value>)
    requires forall k :: 0 <= k < |es| ==> es[k].Literal?
    ensures |r| == |es| && forall k :: 0 <= k < |es| ==> r[k] == LiteralValue(es[k].literal)
  {
    if es == [] then [] else [LiteralValue(es[0].literal)] + LiteralValues(es[1..])
  }

  /** One literal item: its value is appended and the scope is unchanged. */
  lemma EachLiteralStep(sc: Scope, e: Expr, i: nat, done: seq<Value>, fuel: nat)
    requires e.PlcList? && i < |e.values| && e.values[i].Literal?
    ensures EvalEach(sc, e, i, done, fuel) == EvalEach(sc, e, i + 1, done + [LiteralValue(e.values[i].literal)], fuel)
  {
    assert Items(e)[i] == Literal(e.values[i].literal);
  }

  /** The literal values from i on are the value at i followed by those after it. */
  lemma LiteralValuesFrom(es: seq<Expr>, i: nat)
    requires i < |es| && forall k :: 0 <= k < |es| ==> es[k].Literal?
    ensures LiteralValues(es[i..]) == [LiteralValue(es[i].literal)] + LiteralValues(es[i + 1..])
  {
    assert es[i..][1..] == es[i + 1..];
  }

  /** Evaluating literal items from i on appends their values and leaves the chain alone. */
  lemma {:induction false} EachLiteral(sc: Scope, e: Expr, i: nat, done: seq<Value>, fuel: nat)
    requires e.PlcList? && i <= |e.values|
    requires forall k :: 0 <= k < |e.values| ==> e.values[k].Literal?
    ensures EvalEach(sc, e, i, done, fuel) == Ok(Evaluations(done + LiteralValues(e.values[i..]), sc))
    decreases |e.values| - i
  {
    if i < |e.values| {
      var v := LiteralValue(e.values[i].literal);
      EachLiteralStep(sc, e, i, done, fuel);
      EachLiteral(sc, e, i + 1, done + [v], fuel);
      LiteralValuesFrom(e.values, i);
      assert done + [v] + LiteralValues(e.values[i + 1..]) == done + LiteralValues(e.values[i..]);
    } else {
      assert Items(e) == e.values && e.values[i..] == [];
      assert done + LiteralValues([]) == done;
    }
  }

  /** A list literal of literals evaluates to the list of their values, in order, whatever the fuel. */
  lemma ListOfLiterals(sc: Scope, values: seq<Expr>, fuel: nat)
    requires forall k :: 0 <= k < |values| ==> values[k].Literal?
    ensures Eval(sc, PlcList(values), fuel) == Ok(Evaluated(List(LiteralValues(values)), sc))
  {
    EachLiteral(sc, PlcList(values), 0, [], fuel);
    assert values[0..] == values;
  }


  /** visit(Access) throws before it reads anything. */
  lemma AccessAlwaysFails(sc: Scope, offset: Option<Expr>, name: string, fuel: nat)
    ensures Eval(sc, Access(offset, name), fuel) == Fail(Unsupported)
  {
  }

  /** An unknown operator fails after neither operand is evaluated. */
  lemma UnknownOperatorRejected(sc: Scope, op: string, left: Expr, right: Expr, fuel: nat)
    requires op !in {"&&", "||", "<", ">", "==", "!=", "+", "-", "*", "/", "^"}
    ensures Eval(sc, Binary(op, left, right), fuel) == Fail(Thrown(UnsupportedOperatorPrefix + op))
  {
  }
}
