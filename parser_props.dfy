/** What the parser promises about the trees it builds and the errors it reports. */
module ParserProps {
  import opened Tokens
  import opened Ast
  import opened ParserSpec
  import StringLiterals

  /** An identifier that parses as a plain variable access. */
  predicate PlainName(toks: seq<Token>, i: nat) {
    IsKind(toks, i, IDENTIFIER) && toks[i].literal !in {"NIL", "TRUE", "FALSE", "("}
  }

  /** The expression an identifier token denotes on its own. */
  function Var(toks: seq<Token>, i: nat): Expr
    requires i < |toks|
  {
    Access(None, toks[i].literal)
  }

  /** No binary operator at position j: every expression level stops there. */
  predicate NoOperator(toks: seq<Token>, j: nat) {
    !Is(toks, j, "&&") && !Is(toks, j, "||") && !IsComparison(toks, j)
    && !Is(toks, j, "+") && !Is(toks, j, "-") && !Is(toks, j, "/") && !Is(toks, j, "*")
  }

  lemma NameOperand(toks: seq<Token>, i: nat)
    requires i < |toks| && PlainName(toks, i) && !Is(toks, i + 1, "(") && !Is(toks, i + 1, "[")
    ensures ParsePrimary(toks, i) == Done(Var(toks, i), i + 1)
  {
    assert !IsLiteralToken(toks, i);
  }

  /** A plain name is a whole operand at each level whose operators do not follow it. */
  lemma NameLevels(toks: seq<Token>, i: nat)
    requires i < |toks| && PlainName(toks, i) && !Is(toks, i + 1, "(") && !Is(toks, i + 1, "[")
    ensures !Is(toks, i + 1, "/") && !Is(toks, i + 1, "*") ==>
      ParseMultiplicative(toks, i) == Done(Var(toks, i), i + 1)
    ensures !Is(toks, i + 1, "/") && !Is(toks, i + 1, "*") && !Is(toks, i + 1, "+") && !Is(toks, i + 1, "-") ==>
      ParseAdditive(toks, i) == Done(Var(toks, i), i + 1)
    ensures (!Is(toks, i + 1, "/") && !Is(toks, i + 1, "*") && !Is(toks, i + 1, "+") && !Is(toks, i + 1, "-")
             && !IsComparison(toks, i + 1)) ==> ParseComparison(toks, i) == Done(Var(toks, i), i + 1)
    ensures NoOperator(toks, i + 1) ==> ParseExpression(toks, i) == Done(Var(toks, i), i + 1)
  {
    var v := Var(toks, i);
    NameOperand(toks, i);
    if !Is(toks, i + 1, "/") && !Is(toks, i + 1, "*") {
      assert MultiplicativeRest(toks, v, i + 1) == Done(v, i + 1);
      assert ParseMultiplicative(toks, i) == Done(v, i + 1);
      if !Is(toks, i + 1, "+") && !Is(toks, i + 1, "-") {
        assert AdditiveRest(toks, v, i + 1) == Done(v, i + 1);
        assert ParseAdditive(toks, i) == Done(v, i + 1);
        if !IsComparison(toks, i + 1) {
          assert ComparisonRest(toks, v, i + 1) == Done(v, i + 1);
          assert ParseComparison(toks, i) == Done(v, i + 1);
          if NoOperator(toks, i + 1) {
            assert LogicalRest(toks, v, i + 1) == Done(v, i + 1);
          }
        }
      }
    }
  }

  /** Three names joined by + or -: the first two are grouped first, as in (a + b) + c. */
  lemma AdditiveLeftAssociative(toks: seq<Token>)
    requires |toks| == 5 && PlainName(toks, 0) && PlainName(toks, 2) && PlainName(toks, 4)
    requires toks[1].literal in {"+", "-"} && toks[3].literal in {"+", "-"}
    ensures ParseExpression(toks, 0)
      == Done(Binary(toks[3].literal, Binary(toks[1].literal, Var(toks, 0), Var(toks, 2)), Var(toks, 4)), 5)
  {
    NameLevels(toks, 0);
    NameLevels(toks, 2);
    NameLevels(toks, 4);
    var ab := Binary(toks[1].literal, Var(toks, 0), Var(toks, 2));
    var abc := Binary(toks[3].literal, ab, Var(toks, 4));
    assert AdditiveRest(toks, abc, 5) == Done(abc, 5);
    assert AdditiveRest(toks, ab, 3) == Done(abc, 5);
    assert AdditiveRest(toks, Var(toks, 0), 1) == Done(abc, 5);
    assert ParseAdditive(toks, 0) == Done(abc, 5);
    assert ComparisonRest(toks, abc, 5) == Done(abc, 5);
    assert ParseComparison(toks, 0) == Done(abc, 5);
    assert LogicalRest(toks, abc, 5) == Done(abc, 5);
  }

  /** left op0 r0 op1 r1 ...: each operator takes the tree so far as its left operand. */
  function LeftNest(left: Expr, ops: seq<string>, rights: seq<Expr>): (r: Expr)
    requires |ops| == |rights|
    ensures |ops| > 0 ==> r == Binary(ops[|ops| - 1], LeftNest(left, ops[..|ops| - 1], rights[..|ops| - 1]), rights[|ops| - 1])
    decreases |ops|
  {
    if ops == [] then left
    else
      var r := LeftNest(Binary(ops[0], left, rights[0]), ops[1..], rights[1..]);
      LeftNestLast(left, ops, rights);
      r
  }

  lemma {:induction false} LeftNestLast(left: Expr, ops: seq<string>, rights: seq<Expr>)
    requires |ops| == |rights| && |ops| > 0
    ensures LeftNest(Binary(ops[0], left, rights[0]), ops[1..], rights[1..])
            == Binary(ops[|ops| - 1], LeftNest(left, ops[..|ops| - 1], rights[..|ops| - 1]), rights[|ops| - 1])
    decreases |ops|, 0
  {
    var n := |ops|;
    if n == 1 {
      assert ops[..0] == [] && rights[..0] == [];
    } else {
      var l := Binary(ops[0], left, rights[0]);
      LeftNestLast(l, ops[1..], rights[1..]);
      assert ops[1..][..n - 2] == ops[..n - 1][1..] && rights[1..][..n - 2] == rights[..n - 1][1..];
      assert LeftNest(left, ops[..n - 1], rights[..n - 1]) == LeftNest(l, ops[..n - 1][1..], rights[..n - 1][1..]);
    }
  }

  /**
   * The + and - loop over any number of operands: operator k sits at position at[k] and
   * its multiplicative operand ends at at[k + 1]; the result nests from the left.
   */
  lemma {:induction false} AdditiveGroupsLeft(toks: seq<Token>, left: Expr, ops: seq<string>, rights: seq<Expr>, at: seq<nat>)
    requires |ops| == |rights| && |at| == |ops| + 1 && at[|ops|] <= |toks|
    requires forall k :: 0 <= k < |ops| ==> ops[k] in {"+", "-"} && at[k] < |toks| && toks[at[k]].literal == ops[k]
    requires forall k :: 0 <= k < |ops| ==> at[k] < |toks| && ParseMultiplicative(toks, at[k] + 1) == Done(rights[k], at[k + 1])
    requires !Is(toks, at[|ops|], "+") && !Is(toks, at[|ops|], "-")
    ensures AdditiveRest(toks, left, at[0]) == Done(LeftNest(left, ops, rights), at[|ops|])
    decreases |ops|
  {
    if ops == [] {
    } else {
      assert Is(toks, at[0], ops[0]);
      var l := Binary(ops[0], left, rights[0]);
      assert AdditiveRest(toks, left, at[0]) == AdditiveRest(toks, l, at[1]);
      AdditiveGroupsLeft(toks, l, ops[1..], rights[1..], at[1..]);
    }
  }

  /** The && and || loop over any number of comparison operands, nesting from the left. */
  lemma {:induction false} LogicalGroupsLeft(toks: seq<Token>, left: Expr, ops: seq<string>, rights: seq<Expr>, at: seq<nat>)
    requires |ops| == |rights| && |at| == |ops| + 1 && at[|ops|] <= |toks|
    requires forall k :: 0 <= k < |ops| ==> ops[k] in {"&&", "||"} && at[k] < |toks| && toks[at[k]].literal == ops[k]
    requires forall k :: 0 <= k < |ops| ==> at[k] < |toks| && ParseComparison(toks, at[k] + 1) == Done(rights[k], at[k + 1])
    requires !Is(toks, at[|ops|], "&&") && !Is(toks, at[|ops|], "||")
    ensures LogicalRest(toks, left, at[0]) == Done(LeftNest(left, ops, rights), at[|ops|])
    decreases |ops|
  {
    if ops == [] {
    } else {
      assert Is(toks, at[0], ops[0]);
      var l := Binary(ops[0], left, rights[0]);
      assert LogicalRest(toks, left, at[0]) == LogicalRest(toks, l, at[1]);
      LogicalGroupsLeft(toks, l, ops[1..], rights[1..], at[1..]);
    }
  }

  /** Three comparisons joined by && or ||: grouped from the left, as in (a && b) || c. */
  lemma LogicalLeftAssociative(toks: seq<Token>)
    requires |toks| == 5 && PlainName(toks, 0) && PlainName(toks, 2) && PlainName(toks, 4)
    requires toks[1].literal in {"&&", "||"} && toks[3].literal in {"&&", "||"}
    ensures ParseExpression(toks, 0)
      == Done(Binary(toks[3].literal, Binary(toks[1].literal, Var(toks, 0), Var(toks, 2)), Var(toks, 4)), 5)
  {
    NameBeforeLogical(toks, 0);
    NameBeforeLogical(toks, 2);
    NameAtEnd(toks, 4);
    var ab := Binary(toks[1].literal, Var(toks, 0), Var(toks, 2));
    LogicalStep(toks, Var(toks, 0), 1, Var(toks, 2), 3);
    LogicalStep(toks, ab, 3, Var(toks, 4), 5);
  }

  /** A name followed by && or || is a whole comparison. */
  lemma NameBeforeLogical(toks: seq<Token>, i: nat)
    requires i + 1 < |toks| && PlainName(toks, i) && toks[i + 1].literal in {"&&", "||"}
    ensures ParseComparison(toks, i) == Done(Var(toks, i), i + 1)
    ensures Is(toks, i + 1, "&&") || Is(toks, i + 1, "||")
  {
    assert !Is(toks, i + 1, "(") && !Is(toks, i + 1, "[") && !Is(toks, i + 1, "/") && !Is(toks, i + 1, "*");
    assert !Is(toks, i + 1, "+") && !Is(toks, i + 1, "-") && !IsComparison(toks, i + 1);
    NameLevels(toks, i);
  }

  /** A name that ends the input is a whole operand at every level. */
  lemma NameAtEnd(toks: seq<Token>, i: nat)
    requires i + 1 == |toks| && PlainName(toks, i)
    ensures ParseMultiplicative(toks, i) == Done(Var(toks, i), i + 1)
    ensures ParseAdditive(toks, i) == Done(Var(toks, i), i + 1)
    ensures ParseComparison(toks, i) == Done(Var(toks, i), i + 1)
    ensures ParseExpression(toks, i) == Done(Var(toks, i), i + 1)
  {
    var n := |toks|;
    assert !Is(toks, n, "(") && !Is(toks, n, "[") && !Is(toks, n, "/") && !Is(toks, n, "*");
    assert !Is(toks, n, "+") && !Is(toks, n, "-") && !IsComparison(toks, n) && NoOperator(toks, n);
    NameLevels(toks, i);
  }

  /** One && or || of the loop of parseLogicalExpression. */
  lemma LogicalStep(toks: seq<Token>, left: Expr, i: nat, right: Expr, j: nat)
    requires i < |toks| && (Is(toks, i, "&&") || Is(toks, i, "||")) && ParseComparison(toks, i + 1) == Done(right, j)
    ensures LogicalRest(toks, left, i) == LogicalRest(toks, Binary(toks[i].literal, left, right), j)
  {
  }

  /** One * or / of the loop of parseMultiplicativeExpression. */
  lemma MultiplicativeStep(toks: seq<Token>, left: Expr, i: nat, right: Expr, j: nat)
    requires i < |toks| && (Is(toks, i, "*") || Is(toks, i, "/")) && ParseAdditive(toks, i + 1) == Done(right, j)
    ensures MultiplicativeRest(toks, left, i) == MultiplicativeRest(toks, Binary(toks[i].literal, left, right), j)
  {
  }

  /** A multiplicative expression that ends the input is the whole expression. */
  lemma MultiplicativeIsWhole(toks: seq<Token>, i: nat, e: Expr)
    requires i <= |toks| && ParseMultiplicative(toks, i) == Done(e, |toks|)
    ensures ParseExpression(toks, i) == Done(e, |toks|)
  {
    var n := |toks|;
    assert !Is(toks, n, "+") && !Is(toks, n, "-") && !IsComparison(toks, n) && !Is(toks, n, "&&") && !Is(toks, n, "||");
    assert AdditiveRest(toks, e, n) == Done(e, n);
    assert ParseAdditive(toks, i) == Done(e, n);
    assert ComparisonRest(toks, e, n) == Done(e, n);
    assert ParseComparison(toks, i) == Done(e, n);
    assert LogicalRest(toks, e, n) == Done(e, n);
  }

  /** a < b < c: the right operand of a comparison is itself a whole comparison, as in a < (b < c). */
  lemma ComparisonNestsRight(toks: seq<Token>)
    requires |toks| == 5 && PlainName(toks, 0) && PlainName(toks, 2) && PlainName(toks, 4)
    requires IsComparison(toks, 1) && IsComparison(toks, 3)
    ensures ParseExpression(toks, 0)
      == Done(Binary(toks[1].literal, Var(toks, 0), Binary(toks[3].literal, Var(toks, 2), Var(toks, 4))), 5)
  {
    NameLevels(toks, 0);
    NameLevels(toks, 2);
    NameLevels(toks, 4);
    var bc := Binary(toks[3].literal, Var(toks, 2), Var(toks, 4));
    var abc := Binary(toks[1].literal, Var(toks, 0), bc);
    assert ParseAdditive(toks, 0) == Done(Var(toks, 0), 1);
    assert ParseAdditive(toks, 2) == Done(Var(toks, 2), 3);
    assert ComparisonRest(toks, bc, 5) == Done(bc, 5);
    assert ComparisonRest(toks, Var(toks, 2), 3) == Done(bc, 5);
    assert ParseComparison(toks, 2) == Done(bc, 5);
    assert ComparisonRest(toks, abc, 5) == Done(abc, 5);
    assert ComparisonRest(toks, Var(toks, 0), 1) == Done(abc, 5);
    assert ParseComparison(toks, 0) == Done(abc, 5);
    assert LogicalRest(toks, abc, 5) == Done(abc, 5);
  }

  /** a * b + c: the right operand of * or / is an additive expression, as in a * (b + c). */
  lemma MultiplicativeTakesAdditive(toks: seq<Token>)
    requires |toks| == 5 && PlainName(toks, 0) && PlainName(toks, 2) && PlainName(toks, 4)
    requires toks[1].literal in {"*", "/"} && toks[3].literal in {"+", "-"}
    ensures ParseExpression(toks, 0)
      == Done(Binary(toks[1].literal, Var(toks, 0), Binary(toks[3].literal, Var(toks, 2), Var(toks, 4))), 5)
  {
    NameOperand(toks, 0);
    var bc := Binary(toks[3].literal, Var(toks, 2), Var(toks, 4));
    AdditiveOperand(toks);
    MultiplicativeStep(toks, Var(toks, 0), 1, bc, 5);
    MultiplicativeIsWhole(toks, 0, Binary(toks[1].literal, Var(toks, 0), bc));
  }

  /** The b + c of MultiplicativeTakesAdditive. */
  lemma AdditiveOperand(toks: seq<Token>)
    requires |toks| == 5 && PlainName(toks, 2) && PlainName(toks, 4) && toks[3].literal in {"+", "-"}
    ensures ParseAdditive(toks, 2) == Done(Binary(toks[3].literal, Var(toks, 2), Var(toks, 4)), 5)
  {
    NameLevels(toks, 2);
    NameLevels(toks, 4);
    var bc := Binary(toks[3].literal, Var(toks, 2), Var(toks, 4));
    assert AdditiveRest(toks, bc, 5) == Done(bc, 5);
    assert AdditiveRest(toks, Var(toks, 2), 3) == Done(bc, 5);
  }

  // --------------------------------------------------------------- primaries

  /** name() is a call with no arguments. */
  lemma CallWithoutArguments(toks: seq<Token>, i: nat)
    requires i + 2 < |toks| && PlainName(toks, i) && toks[i + 1].literal == "(" && toks[i + 2].literal == ")"
    ensures ParsePrimary(toks, i) == Done(Call(toks[i].literal, []), i + 3)
  {
    assert !IsLiteralToken(toks, i);
  }

  /** f(a, b): the arguments are the comma-separated expressions, in order. */
  lemma CallWithArguments(toks: seq<Token>)
    requires |toks| == 6 && PlainName(toks, 0) && toks[1].literal == "(" && PlainName(toks, 2)
    requires toks[2].literal != ")" && toks[3].literal == "," && PlainName(toks, 4) && toks[5].literal == ")"
    ensures ParsePrimary(toks, 0) == Done(Call(toks[0].literal, [Var(toks, 2), Var(toks, 4)]), 6)
  {
    assert !IsLiteralToken(toks, 0);
    TwoArguments(toks);
  }

  /** The a, b of CallWithArguments. */
  lemma TwoArguments(toks: seq<Token>)
    requires |toks| == 6 && PlainName(toks, 2) && toks[3].literal == "," && PlainName(toks, 4) && toks[5].literal == ")"
    ensures ParseExpressionList(toks, [], 2) == Done([Var(toks, 2), Var(toks, 4)], 5)
  {
    NameBeforeDelimiter(toks, 2);
    NameBeforeDelimiter(toks, 4);
    ListStep(toks, [], 2, Var(toks, 2), 3);
    assert [] + [Var(toks, 2)] == [Var(toks, 2)];
    ListStep(toks, [Var(toks, 2)], 4, Var(toks, 4), 5);
    assert [Var(toks, 2)] + [Var(toks, 4)] == [Var(toks, 2), Var(toks, 4)];
  }

  /** A name followed by ',' or ')' is a whole expression. */
  lemma NameBeforeDelimiter(toks: seq<Token>, i: nat)
    requires i + 1 < |toks| && PlainName(toks, i) && toks[i + 1].literal in {",", ")"}
    ensures ParseExpression(toks, i) == Done(Var(toks, i), i + 1)
    ensures Is(toks, i + 1, ",") <==> toks[i + 1].literal == ","
  {
    assert !Is(toks, i + 1, "(") && !Is(toks, i + 1, "[") && NoOperator(toks, i + 1);
    NameLevels(toks, i);
  }

  /** One element of an argument list: a comma goes on to the next, anything else ends the list. */
  lemma ListStep(toks: seq<Token>, acc: seq<Expr>, i: nat, e: Expr, j: nat)
    requires i <= |toks| && ParseExpression(toks, i) == Done(e, j)
    ensures Is(toks, j, ",") ==> ParseExpressionList(toks, acc, i) == ParseExpressionList(toks, acc + [e], j + 1)
    ensures !Is(toks, j, ",") ==> ParseExpressionList(toks, acc, i) == Done(acc + [e], j)
  {
  }

  /** name[offset] is an indexed access, and the closing bracket is required. */
  lemma IndexedAccess(toks: seq<Token>, i: nat, e: Expr, j: nat)
    requires i + 1 < |toks| && PlainName(toks, i) && toks[i + 1].literal == "["
    requires ParseExpression(toks, i + 2) == Done(e, j)
    ensures j < |toks| && toks[j].literal == "]" ==>
      ParsePrimary(toks, i) == Done(Access(Some(e), toks[i].literal), j + 1)
    ensures !(j < |toks| && toks[j].literal == "]") ==>
      ParsePrimary(toks, i) == Failed(ParseError(MissingAccessBracket, toks[j - 1].index, j))
  {
    assert !IsLiteralToken(toks, i);
  }

  /** An operator that starts no primary is reported by its type at its own offset. */
  lemma {:induction false} UnexpectedToken(toks: seq<Token>, i: nat)
    requires i < |toks| && toks[i].kind == OPERATOR && toks[i].literal !in {"(", "NIL", "TRUE", "FALSE"}
    ensures ParsePrimary(toks, i) == Failed(ParseError("Unexpected token: OPERATOR", toks[i].index, i))
  {
    assert !Is(toks, i, "NIL") && !Is(toks, i, "TRUE") && !Is(toks, i, "FALSE") && !Is(toks, i, "(");
    assert !IsLiteralToken(toks, i) && !IsKind(toks, i, IDENTIFIER);
    assert UnexpectedTokenPrefix + KindName(toks[i].kind) == "Unexpected token: OPERATOR";
  }

  /** A literal token that is not spelled NIL, TRUE or FALSE is a Literal of its decoded value. */
  lemma {:induction false} LiteralToken(toks: seq<Token>, i: nat)
    requires i < |toks| && IsLiteralToken(toks, i)
    requires toks[i].literal != "NIL" && toks[i].literal != "TRUE" && toks[i].literal != "FALSE"
    ensures LiteralValue(toks[i]).Some? ==> ParsePrimary(toks, i) == Done(Literal(LiteralValue(toks[i]).value), i + 1)
    ensures LiteralValue(toks[i]).None? ==> ParsePrimary(toks, i) == Failed(Crash)
  {
    assert !Is(toks, i, "NIL") && !Is(toks, i, "TRUE") && !Is(toks, i, "FALSE");
  }

  /** A CHARACTER token is read as the character after its opening quote, escape or not. */
  lemma {:induction false} CharacterToken(toks: seq<Token>, i: nat)
    requires i < |toks| && toks[i].kind == CHARACTER && |toks[i].literal| >= 2 && toks[i].literal[0] == '\''
    ensures ParsePrimary(toks, i) == Done(Literal(CharLit(toks[i].literal[1])), i + 1)
  {
    assert toks[i].literal != "NIL" && toks[i].literal != "TRUE" && toks[i].literal != "FALSE";
    LiteralToken(toks, i);
  }

  /** The STRING token "\\n" parses as a backslash and a line feed, as the replace passes read it. */
  lemma {:induction false} EscapedBackslashToken(toks: seq<Token>, i: nat)
    requires i < |toks| && toks[i].kind == STRING && toks[i].literal == "\"\\\\n\""
    ensures ParsePrimary(toks, i) == Done(Literal(StrLit("\\\n")), i + 1)
  {
    assert toks[i].literal[0] == '"';
    assert toks[i].literal != "NIL" && toks[i].literal != "TRUE" && toks[i].literal != "FALSE";
    StringLiterals.ReplacePassesMisread();
    assert LiteralValue(toks[i]) == Some(StrLit("\\\n"));
    LiteralToken(toks, i);
  }

  /** Running out of tokens where a primary is due is an out-of-range get, not a ParseException. */
  lemma PrimaryAtEnd(toks: seq<Token>)
    ensures ParsePrimary(toks, |toks|) == Failed(Crash)
  {
  }

  // -------------------------------------------------------------- statements

  lemma {:induction false} BlockRestEndsAtEnd(toks: seq<Token>, acc: seq<Stmt>, i: nat)
    requires i <= |toks|
    ensures var r := BlockRest(toks, acc, i);
      r.Done? ==> Is(toks, r.next - 1, "END") && |acc| <= |r.value| && r.value[..|acc|] == acc
    decreases |toks| - i
  {
    if !Is(toks, i, "END") {
      match ParseStatement(toks, i)
      case Failed(_) =>
      case Done(s, j) =>
        if j != i {
          BlockRestEndsAtEnd(toks, acc + [s], j);
          var r := BlockRest(toks, acc + [s], j);
          if r.Done? {
            assert r.value[..|acc|] == r.value[..|acc + [s]|][..|acc|];
          }
        }
    }
  }

  /** A block runs up to and including an END token. */
  lemma BlockEndsAtEnd(toks: seq<Token>, i: nat)
    requires i <= |toks|
    ensures ParseBlock(toks, i).Done? ==> Is(toks, ParseBlock(toks, i).next - 1, "END")
  {
    BlockRestEndsAtEnd(toks, [], i);
  }

  /** FUN f ( a , b ) DO END: a function named f with parameters a and b and an empty body. */
  lemma {:induction false} FunctionTwoParameters(toks: seq<Token>)
    requires |toks| == 9 && toks[0].literal == "FUN" && toks[1].kind == IDENTIFIER && toks[2].literal == "("
    requires toks[3].kind == IDENTIFIER && toks[3].literal != ")" && toks[4].literal == ","
    requires toks[5].kind == IDENTIFIER && toks[6].literal == ")" && toks[7].literal == "DO" && toks[8].literal == "END"
    ensures ParseFunction(toks, 0)
      == Done(Function(toks[1].literal, [toks[3].literal, toks[5].literal], [], Some(DefaultTypeName), []), 9)
  {
    assert Optional(toks, 0, "FUN") == 1 && IsKind(toks, 1, IDENTIFIER);
    assert Is(toks, 2, "(") && !Is(toks, 3, ")") && IsKind(toks, 3, IDENTIFIER) && Is(toks, 4, ",");
    assert IsKind(toks, 5, IDENTIFIER) && !Is(toks, 6, ",");
    assert [toks[3].literal] + [toks[5].literal] == [toks[3].literal, toks[5].literal];
    assert [] + [toks[3].literal] == [toks[3].literal];
    assert ParameterList(toks, [toks[3].literal], 5) == Done([toks[3].literal, toks[5].literal], 6);
    assert ParameterList(toks, [], 3) == Done([toks[3].literal, toks[5].literal], 6);
    assert ParseParameters(toks, 1 + 1) == Done([toks[3].literal, toks[5].literal], 7);
    assert Optional(toks, 7, "DO") == 8 && Is(toks, 8, "END");
    assert ParseBlock(toks, 8) == Done([], 9);
  }

  /**
   * A statement that starts with no keyword: the expression is the receiver of an
   * Assignment when '=' follows it, an Expression statement when ';' follows it, and
   * anything else is "Expected '=' or ';'" at the token after the expression.
   */
  lemma StatementForms(toks: seq<Token>, i: nat)
    requires i <= |toks|
    requires !Is(toks, i, "LET") && !Is(toks, i, "SWITCH") && !Is(toks, i, "IF")
    requires !Is(toks, i, "WHILE") && !Is(toks, i, "RETURN")
    requires ParseExpression(toks, i).Done?
    ensures var e := ParseExpression(toks, i); var j := e.next; var r := ParseStatement(toks, i);
      (r.Done? && r.value.Assignment? <==> Is(toks, j, "=") && ParseExpression(toks, j + 1).Done?)
      && (r.Done? && r.value.Assignment? ==> r.value.receiver == e.value)
      && (r.Done? && r.value.Expression? <==> !Is(toks, j, "=") && Is(toks, j, ";"))
      && (r.Done? && r.value.Expression? ==> r.value.expression == e.value && r.next == j + 1)
      && (!Is(toks, j, "=") && !Is(toks, j, ";") ==>
            r == Failed(ParseError(ExpectedAssignOrSemicolon, toks[j - 1].index, j)))
  {
  }

  /** LET needs a name, with index -1 in the exception when it is missing, and ends at a ';'. */
  lemma DeclarationShape(toks: seq<Token>, i: nat)
    requires i <= |toks|
    ensures var j := Optional(toks, i, "LET"); var r := ParseDeclaration(toks, i);
      (!IsKind(toks, j, IDENTIFIER) ==> r == Failed(ParseError(ExpectedIdentifier, -1, j)))
      && (r.Done? ==> (IsKind(toks, j, IDENTIFIER) && Is(toks, r.next - 1, ";")
                       && r.value == Declaration(toks[j].literal, None, r.value.value)))
  {
  }

  /** VAL without '=' after its name is "Expected = after VAL identifier", at the name. */
  lemma ImmutableNeedsInitializer(toks: seq<Token>, i: nat)
    requires i < |toks| && IsKind(toks, i, IDENTIFIER) && !Is(toks, i, "VAL") && !Is(toks, i + 1, "=")
    ensures ParseImmutable(toks, i) == Failed(ParseError(ImmutableNeedsValue, toks[i].index, i + 1))
  {
  }

  /** VAR with no '=' after its name is a mutable global with no value. */
  lemma MutableInitializerOptional(toks: seq<Token>, i: nat)
    requires i < |toks| && IsKind(toks, i, IDENTIFIER) && !Is(toks, i, "VAR") && !Is(toks, i + 1, "=")
    ensures ParseMutable(toks, i) == Done(Global(toks[i].literal, DefaultTypeName, true, None), Optional(toks, i + 1, ";"))
  {
  }

  /** SWITCH x DEFAULT y; END END: the DEFAULT block is parsed, and the switch has no case for it. */
  lemma DefaultBlockDropped(toks: seq<Token>)
    requires |toks| == 6 && PlainName(toks, 0) && toks[0].literal != "SWITCH" && Is(toks, 1, "DEFAULT")
    requires PlainName(toks, 2) && toks[2].literal !in {"LET", "SWITCH", "IF", "WHILE", "RETURN", "END"}
    requires Is(toks, 3, ";") && Is(toks, 4, "END") && Is(toks, 5, "END")
    ensures ParseSwitch(toks, 0) == Done(Switch(Var(toks, 0), []), 6)
  {
    NameLevels(toks, 0);
    assert Optional(toks, 0, "SWITCH") == 0 && ParseExpression(toks, 0) == Done(Var(toks, 0), 1);
    assert ParseCases(toks, [], 1) == Done([], 1);
    DefaultClose(toks);
    assert SwitchBody(toks, 0) == Done(Switch(Var(toks, 0), []), 6);
  }

  /** DEFAULT y; END END after the condition of DefaultBlockDropped closes the switch with no cases. */
  lemma DefaultClose(toks: seq<Token>)
    requires |toks| == 6 && Is(toks, 1, "DEFAULT")
    requires PlainName(toks, 2) && toks[2].literal !in {"LET", "SWITCH", "IF", "WHILE", "RETURN", "END"}
    requires Is(toks, 3, ";") && Is(toks, 4, "END") && Is(toks, 5, "END")
    ensures CloseSwitch(toks, Var(toks, 0), [], 1) == Done(Switch(Var(toks, 0), []), 6)
  {
    DefaultBlock(toks);
    assert Optional(toks, 5, "END") == 6;
  }

  /** name; is an expression statement. */
  lemma NameStatement(toks: seq<Token>, i: nat)
    requires i + 1 < |toks| && PlainName(toks, i) && toks[i].literal !in {"LET", "SWITCH", "IF", "WHILE", "RETURN"}
    requires Is(toks, i + 1, ";")
    ensures ParseStatement(toks, i) == Done(Expression(Var(toks, i)), i + 2)
  {
    assert !Is(toks, i, "LET") && !Is(toks, i, "SWITCH") && !Is(toks, i, "IF") && !Is(toks, i, "WHILE") && !Is(toks, i, "RETURN");
    assert !Is(toks, i + 1, "(") && !Is(toks, i + 1, "[") && NoOperator(toks, i + 1) && !Is(toks, i + 1, "=");
    NameLevels(toks, i);
  }

  /** The y; END of DefaultBlockDropped: a block of one expression statement. */
  lemma DefaultBlock(toks: seq<Token>)
    requires |toks| == 6 && PlainName(toks, 2) && toks[2].literal !in {"LET", "SWITCH", "IF", "WHILE", "RETURN", "END"}
    requires Is(toks, 3, ";") && Is(toks, 4, "END")
    ensures ParseBlock(toks, 2) == Done([Expression(Var(toks, 2))], 5)
  {
    NameStatement(toks, 2);
    assert BlockRest(toks, [Expression(Var(toks, 2))], 4) == Done([Expression(Var(toks, 2))], 5);
    assert [] + [Expression(Var(toks, 2))] == [Expression(Var(toks, 2))];
  }

  // ------------------------------------------------------------------ source

  /**
   * parseSource consumes LIST, VAR or VAL and parseGlobal then looks for the keyword
   * again: a global written once fails at the keyword.
   */
  lemma GlobalKeywordConsumedTwice(toks: seq<Token>, globals: seq<Global>, functions: seq<Function>, i: nat)
    requires i + 1 < |toks| && toks[i].literal in {"LIST", "VAR", "VAL"}
    requires toks[i + 1].literal !in {"LIST", "VAR", "VAL"}
    ensures SourceRest(toks, globals, functions, i)
      == Failed(ParseError(ExpectedGlobal, toks[i].index, i + 1))
  {
  }

  /** A token that starts neither a global nor a function stops parseSource for good. */
  lemma StrayTokenDiverges(toks: seq<Token>, globals: seq<Global>, functions: seq<Function>, i: nat)
    requires i < |toks| && toks[i].literal !in {"LIST", "VAR", "VAL", "FUN"}
    ensures SourceRest(toks, globals, functions, i) == Failed(Diverges)
  {
  }

  /** The source parsed is all globals and functions, in the order they appear. */
  lemma {:induction false} SourceRestKeepsOrder(toks: seq<Token>, globals: seq<Global>, functions: seq<Function>, i: nat)
    requires i <= |toks|
    ensures var r := SourceRest(toks, globals, functions, i);
      r.Done? ==> |globals| <= |r.value.globals| && r.value.globals[..|globals|] == globals
                  && |functions| <= |r.value.functions| && r.value.functions[..|functions|] == functions
    decreases |toks| - i
  {
    if i < |toks| {
      if Is(toks, i, "LIST") || Is(toks, i, "VAR") || Is(toks, i, "VAL") {
        match ParseGlobal(toks, i + 1)
        case Failed(_) =>
        case Done(g, j) =>
          SourceRestKeepsOrder(toks, globals + [g], functions, j);
          var r := SourceRest(toks, globals + [g], functions, j);
          if r.Done? {
            assert r.value.globals[..|globals|] == r.value.globals[..|globals + [g]|][..|globals|];
          }
      } else if Is(toks, i, "FUN") {
        match ParseFunction(toks, i + 1)
        case Failed(_) =>
        case Done(f, j) =>
          SourceRestKeepsOrder(toks, globals, functions + [f], j);
          var r := SourceRest(toks, globals, functions + [f], j);
          if r.Done? {
            assert r.value.functions[..|functions|] == r.value.functions[..|functions + [f]|][..|functions|];
          }
      }
    }
  }
}
