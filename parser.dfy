/**
 * The parser as the source writes it: a token stream with a moving index, and
 * parse methods that match tokens and advance the stream. Each method is proved
 * to compute its parse function in ParserSpec from the position it starts at,
 * and to leave the stream where that function says it stops.
 */
module ParserImpl {
  import opened Tokens
  import opened Ast
  import S = ParserSpec

  class TokenStream {
    const tokens: seq<Token>
    var index: nat

    ghost predicate Valid()
      reads this
    {
      index <= |tokens|
    }

    constructor (tokens: seq<Token>)
      ensures this.tokens == tokens && index == 0 && Valid()
    {
      this.tokens := tokens;
      index := 0;
    }

    /** There is a token at index + offset. */
    predicate Has(offset: nat)
      reads this
    {
      index + offset < |tokens|
    }

    /** The token at index + offset. */
    function Get(offset: int): Token
      reads this
      requires 0 <= index + offset < |tokens|
    {
      tokens[index + offset]
    }

    method Advance()
      requires index < |tokens|
      modifies this
      ensures index == old(index) + 1
    {
      index := index + 1;
    }
  }

  class Parser {
    const tokens: TokenStream

    constructor (toks: seq<Token>)
      ensures tokens.tokens == toks && tokens.index == 0 && tokens.Valid()
    {
      tokens := new TokenStream(toks);
    }

    /** The stream stops where a result says it does, and where a ParseException says it was thrown. */
    ghost predicate Positioned<T>(r: S.Parsed<T>)
      reads tokens
    {
      (r.Done? ==> tokens.index == r.next)
      && (r.Failed? && r.failure.ParseError? ==> tokens.index == r.failure.at)
    }

    method Peek(ps: seq<S.Pattern>) returns (b: bool)
      requires tokens.Valid()
      ensures b == S.PeekAt(tokens.tokens, tokens.index, ps)
    {
      var k := 0;
      while k < |ps|
        invariant 0 <= k <= |ps|
        invariant S.PeekAt(tokens.tokens, tokens.index, ps) == S.PeekAt(tokens.tokens, tokens.index + k, ps[k..])
      {
        assert ps[k..][1..] == ps[k + 1..];
        if !tokens.Has(k) || !S.Matches(ps[k], tokens.Get(k)) {
          return false;
        }
        k := k + 1;
      }
      return true;
    }

    method Match(ps: seq<S.Pattern>) returns (b: bool)
      requires tokens.Valid()
      modifies tokens
      ensures tokens.Valid()
      ensures b == S.PeekAt(tokens.tokens, old(tokens.index), ps)
      ensures tokens.index == if b then old(tokens.index) + |ps| else old(tokens.index)
    {
      b := Peek(ps);
      if b {
        S.PeekAtLength(tokens.tokens, tokens.index, ps);
        var k := 0;
        while k < |ps|
          invariant 0 <= k <= |ps| && tokens.index == old(tokens.index) + k
        {
          tokens.Advance();
          k := k + 1;
        }
      }
    }

    method MatchLit(literal: string) returns (b: bool)
      requires tokens.Valid()
      modifies tokens
      ensures tokens.Valid()
      ensures b == S.Is(tokens.tokens, old(tokens.index), literal)
      ensures tokens.index == if b then old(tokens.index) + 1 else old(tokens.index)
    {
      b := Match([S.Lit(literal)]);
    }

    method MatchKind(kind: TokenType) returns (b: bool)
      requires tokens.Valid()
      modifies tokens
      ensures tokens.Valid()
      ensures b == S.IsKind(tokens.tokens, old(tokens.index), kind)
      ensures tokens.index == if b then old(tokens.index) + 1 else old(tokens.index)
    {
      b := Match([S.Kind(kind)]);
    }

    /** match(a) || match(b). */
    method MatchEither(a: string, b: string) returns (m: bool)
      requires tokens.Valid()
      modifies tokens
      ensures tokens.Valid()
      ensures m == (S.Is(tokens.tokens, old(tokens.index), a) || S.Is(tokens.tokens, old(tokens.index), b))
      ensures tokens.index == if m then old(tokens.index) + 1 else old(tokens.index)
    {
      m := MatchLit(a);
      if !m {
        m := MatchLit(b);
      }
    }

    /** The comparison operators of parseComparisonExpression, tried in order. */
    method MatchComparison() returns (m: bool)
      requires tokens.Valid()
      modifies tokens
      ensures tokens.Valid()
      ensures m == S.IsComparison(tokens.tokens, old(tokens.index))
      ensures tokens.index == if m then old(tokens.index) + 1 else old(tokens.index)
    {
      m := MatchEither("!=", "==");
      if !m { m := MatchEither(">=", ">"); }
      if !m { m := MatchEither("<=", "<"); }
    }

    /** throw new ParseException(message, tokens.get(-1).getIndex()). */
    method ErrorAfter<T>(message: string) returns (r: S.Parsed<T>)
      requires tokens.Valid()
      ensures r == S.ErrorAfter(tokens.tokens, tokens.index, message) && Positioned(r)
    {
      if tokens.index == 0 {
        r := S.Failed(S.Crash);
      } else {
        r := S.Failed(S.ParseError(message, tokens.Get(-1).index, tokens.index));
      }
    }

    /** A catch block: a ParseException is rethrown with a prefix at tokens.get(-1). */
    method Catch<T>(prefix: string, body: S.Parsed<T>) returns (r: S.Parsed<T>)
      requires tokens.Valid() && Positioned(body)
      ensures r == S.Rewrap(tokens.tokens, prefix, body) && Positioned(r)
    {
      if body.Failed? && body.failure.ParseError? {
        if tokens.index == 0 {
          r := S.Failed(S.Crash);
        } else {
          r := S.Failed(S.ParseError(prefix + body.failure.message, tokens.Get(-1).index, tokens.index));
        }
      } else {
        r := body;
      }
    }

    // -------------------------------------------------------------- expressions

    method ParseExpression() returns (r: S.Parsed<Expr>)
      requires tokens.Valid()
      modifies tokens
      ensures tokens.Valid() && Positioned(r)
      ensures r == S.ParseExpression(tokens.tokens, old(tokens.index))
      decreases |tokens.tokens| - tokens.index, 7
    {
      r := ParseLogical();
    }

    method ParseLogical() returns (r: S.Parsed<Expr>)
      requires tokens.Valid()
      modifies tokens
      ensures tokens.Valid() && Positioned(r)
      ensures r == S.ParseLogical(tokens.tokens, old(tokens.index))
      decreases |tokens.tokens| - tokens.index, 6
    {
      var first := ParseComparison();
      if first.Failed? {
        return S.Failed(first.failure);
      }
      var current := first.value;
      while true
        invariant tokens.Valid() && old(tokens.index) < tokens.index
        invariant S.ParseLogical(tokens.tokens, old(tokens.index)) == S.LogicalRest(tokens.tokens, current, tokens.index)
        decreases |tokens.tokens| - tokens.index
      {
        var op := MatchEither("&&", "||");
        if !op {
          return S.Done(current, tokens.index);
        }
        var operator := tokens.Get(-1).literal;
        var right := ParseComparison();
        if right.Failed? {
          return S.Failed(right.failure);
        }
        current := Binary(operator, current, right.value);
      }
    }

    method ParseComparison() returns (r: S.Parsed<Expr>)
      requires tokens.Valid()
      modifies tokens
      ensures tokens.Valid() && Positioned(r)
      ensures r == S.ParseComparison(tokens.tokens, old(tokens.index))
      decreases |tokens.tokens| - tokens.index, 5
    {
      var first := ParseAdditive();
      if first.Failed? {
        return S.Failed(first.failure);
      }
      var current := first.value;
      while true
        invariant tokens.Valid() && old(tokens.index) < tokens.index
        invariant S.ParseComparison(tokens.tokens, old(tokens.index)) == S.ComparisonRest(tokens.tokens, current, tokens.index)
        decreases |tokens.tokens| - tokens.index
      {
        var op := MatchComparison();
        if !op {
          return S.Done(current, tokens.index);
        }
        var operator := tokens.Get(-1).literal;
        var right := ParseComparison();
        if right.Failed? {
          return S.Failed(right.failure);
        }
        current := Binary(operator, current, right.value);
      }
    }

    method ParseAdditive() returns (r: S.Parsed<Expr>)
      requires tokens.Valid()
      modifies tokens
      ensures tokens.Valid() && Positioned(r)
      ensures r == S.ParseAdditive(tokens.tokens, old(tokens.index))
      decreases |tokens.tokens| - tokens.index, 4
    {
      var first := ParseMultiplicative();
      if first.Failed? {
        return S.Failed(first.failure);
      }
      var current := first.value;
      while true
        invariant tokens.Valid() && old(tokens.index) < tokens.index
        invariant S.ParseAdditive(tokens.tokens, old(tokens.index)) == S.AdditiveRest(tokens.tokens, current, tokens.index)
        decreases |tokens.tokens| - tokens.index
      {
        var op := MatchEither("+", "-");
        if !op {
          return S.Done(current, tokens.index);
        }
        var operator := tokens.Get(-1).literal;
        var right := ParseMultiplicative();
        if right.Failed? {
          return S.Failed(right.failure);
        }
        current := Binary(operator, current, right.value);
      }
    }

    method ParseMultiplicative() returns (r: S.Parsed<Expr>)
      requires tokens.Valid()
      modifies tokens
      ensures tokens.Valid() && Positioned(r)
      ensures r == S.ParseMultiplicative(tokens.tokens, old(tokens.index))
      decreases |tokens.tokens| - tokens.index, 3
    {
      var first := ParsePrimary();
      if first.Failed? {
        return S.Failed(first.failure);
      }
      var current := first.value;
      while true
        invariant tokens.Valid() && old(tokens.index) < tokens.index
        invariant S.ParseMultiplicative(tokens.tokens, old(tokens.index)) == S.MultiplicativeRest(tokens.tokens, current, tokens.index)
        decreases |tokens.tokens| - tokens.index
      {
        var op := MatchEither("/", "*");
        if !op {
          return S.Done(current, tokens.index);
        }
        var operator := tokens.Get(-1).literal;
        var right := ParseAdditive();
        if right.Failed? {
          return S.Failed(right.failure);
        }
        current := Binary(operator, current, right.value);
      }
    }

    /** The do-while of expressions separated by commas, in call arguments and list values. */
    method ParseExpressionList() returns (r: S.Parsed<seq<Expr>>)
      requires tokens.Valid()
      modifies tokens
      ensures tokens.Valid() && Positioned(r)
      ensures r == S.ParseExpressionList(tokens.tokens, [], old(tokens.index))
      decreases |tokens.tokens| - tokens.index, 8
    {
      var values: seq<Expr> := [];
      while true
        invariant tokens.Valid() && old(tokens.index) <= tokens.index
        invariant S.ParseExpressionList(tokens.tokens, [], old(tokens.index)) == S.ParseExpressionList(tokens.tokens, values, tokens.index)
        decreases |tokens.tokens| - tokens.index
      {
        var e := ParseExpression();
        if e.Failed? {
          return S.Failed(e.failure);
        }
        values := values + [e.value];
        var comma := MatchLit(",");
        if !comma {
          return S.Done(values, tokens.index);
        }
      }
    }

    method ParsePrimary() returns (r: S.Parsed<Expr>)
      requires tokens.Valid()
      modifies tokens
      ensures tokens.Valid() && Positioned(r)
      ensures r == S.ParsePrimary(tokens.tokens, old(tokens.index))
      decreases |tokens.tokens| - tokens.index, 2
    {
      var m := MatchLit("NIL");
      if m { return S.Done(Literal(NilLit), tokens.index); }
      m := MatchLit("TRUE");
      if m { return S.Done(Literal(BoolLit(true)), tokens.index); }
      m := MatchLit("FALSE");
      if m { return S.Done(Literal(BoolLit(false)), tokens.index); }
      r := ParseOtherPrimary();
    }

    /** parsePrimaryExpression past NIL, TRUE and FALSE: a literal token, a group, a name or an error. */
    method ParseOtherPrimary() returns (r: S.Parsed<Expr>)
      requires tokens.Valid()
      requires !S.Is(tokens.tokens, tokens.index, "NIL") && !S.Is(tokens.tokens, tokens.index, "TRUE")
      requires !S.Is(tokens.tokens, tokens.index, "FALSE")
      modifies tokens
      ensures tokens.Valid() && Positioned(r)
      ensures r == S.ParsePrimary(tokens.tokens, old(tokens.index))
      decreases |tokens.tokens| - tokens.index, 1, 1
    {
      var m := MatchLiteralToken();
      if m {
        var value := S.LiteralValue(tokens.Get(-1));
        if value.None? {
          return S.Failed(S.Crash);
        }
        return S.Done(Literal(value.value), tokens.index);
      }
      m := MatchLit("(");
      if m {
        r := ParseGroup();
        return;
      }
      var isName := Peek([S.Kind(IDENTIFIER)]);
      if isName {
        r := ParseName();
        return;
      }
      if !tokens.Has(0) {
        return S.Failed(S.Crash);
      }
      var t := tokens.Get(0);
      return S.Failed(S.ParseError(S.UnexpectedTokenPrefix + KindName(t.kind), t.index, tokens.index));
    }

    /** match of an INTEGER, DECIMAL, CHARACTER or STRING token. */
    method MatchLiteralToken() returns (m: bool)
      requires tokens.Valid()
      modifies tokens
      ensures tokens.Valid()
      ensures m == S.IsLiteralToken(tokens.tokens, old(tokens.index))
      ensures tokens.index == if m then old(tokens.index) + 1 else old(tokens.index)
    {
      m := MatchKind(INTEGER);
      if !m { m := MatchKind(DECIMAL); }
      if !m { m := MatchKind(CHARACTER); }
      if !m { m := MatchKind(STRING); }
    }

    /** The grouping branch of parsePrimaryExpression, after the '('. */
    method ParseGroup() returns (r: S.Parsed<Expr>)
      requires tokens.Valid() && 0 < tokens.index && S.Is(tokens.tokens, tokens.index - 1, "(")
      requires !S.IsLiteralToken(tokens.tokens, tokens.index - 1)
      modifies tokens
      ensures tokens.Valid() && Positioned(r)
      ensures r == S.ParsePrimary(tokens.tokens, old(tokens.index) - 1)
      decreases |tokens.tokens| - tokens.index + 1, 1, 0
    {
      ghost var start := tokens.index - 1;
      var e := ParseExpression();
      if e.Failed? {
        return S.Failed(e.failure);
      }
      var close := MatchLit(")");
      if close {
        return S.Done(Group(e.value), tokens.index);
      }
      r := ErrorAfter(S.NeedCloseParenthesis);
    }

    /** The identifier branch of parsePrimaryExpression: a call, an indexed access or a plain access. */
    method ParseName() returns (r: S.Parsed<Expr>)
      requires tokens.Valid() && S.IsKind(tokens.tokens, tokens.index, IDENTIFIER)
      requires !S.Is(tokens.tokens, tokens.index, "NIL") && !S.Is(tokens.tokens, tokens.index, "TRUE")
      requires !S.Is(tokens.tokens, tokens.index, "FALSE") && !S.Is(tokens.tokens, tokens.index, "(")
      modifies tokens
      ensures tokens.Valid() && Positioned(r)
      ensures r == S.ParsePrimary(tokens.tokens, old(tokens.index))
      decreases |tokens.tokens| - tokens.index, 1, 0
    {
      var name := tokens.Get(0).literal;
      var _ := MatchKind(IDENTIFIER);
      var call := MatchLit("(");
      if call {
        var empty := MatchLit(")");
        if empty {
          return S.Done(Call(name, []), tokens.index);
        }
        var args := ParseExpressionList();
        if args.Failed? {
          return S.Failed(args.failure);
        }
        var _ := MatchLit(")");
        return S.Done(Call(name, args.value), tokens.index);
      }
      var indexed := MatchLit("[");
      if indexed {
        var offset := ParseExpression();
        if offset.Failed? {
          return S.Failed(offset.failure);
        }
        var close := MatchLit("]");
        if close {
          return S.Done(Access(Some(offset.value), name), tokens.index);
        }
        r := ErrorAfter(S.MissingAccessBracket);
        return;
      }
      return S.Done(Access(None, name), tokens.index);
    }
  

    // --------------------------------------------------------------- statements

    method ParseBlock() returns (r: S.Parsed<seq<Stmt>>)
      requires tokens.Valid()
      modifies tokens
      ensures tokens.Valid() && Positioned(r)
      ensures r == S.ParseBlock(tokens.tokens, old(tokens.index))
      decreases |tokens.tokens| - tokens.index, 14
    {
      var statements: seq<Stmt> := [];
      while true
        invariant tokens.Valid() && old(tokens.index) <= tokens.index
        invariant S.ParseBlock(tokens.tokens, old(tokens.index)) == S.BlockRest(tokens.tokens, statements, tokens.index)
        decreases |tokens.tokens| - tokens.index
      {
        var end := MatchLit("END");
        if end {
          return S.Done(statements, tokens.index);
        }
        var start := tokens.index;
        // the exception thrown when a statement consumes nothing (tokens.get(start))
        var noProgress := S.NoProgress(tokens.tokens, start);
        var statement := ParseStatement();
        if statement.Failed? {
          return S.Failed(statement.failure);
        }
        if tokens.index == start {
          return S.Failed(noProgress);
        }
        statements := statements + [statement.value];
      }
    }

    method ParseStatement() returns (r: S.Parsed<Stmt>)
      requires tokens.Valid()
      modifies tokens
      ensures tokens.Valid() && Positioned(r)
      ensures r == S.ParseStatement(tokens.tokens, old(tokens.index))
      decreases |tokens.tokens| - tokens.index, 12
    {
      var m := MatchLit("LET");
      if m {
        r := ParseDeclaration();
        return;
      }
      m := MatchLit("SWITCH");
      if m {
        r := ParseSwitch();
        return;
      }
      m := MatchLit("IF");
      if m {
        r := ParseIf();
        return;
      }
      m := MatchLit("WHILE");
      if m {
        r := ParseWhile();
        return;
      }
      m := MatchLit("RETURN");
      if m {
        r := ParseReturn();
        return;
      }
      r := ParseExpressionStatement();
    }

    /** The last branch of parseStatement: an assignment or an expression statement. */
    method ParseExpressionStatement() returns (r: S.Parsed<Stmt>)
      requires tokens.Valid()
      requires !S.Is(tokens.tokens, tokens.index, "LET") && !S.Is(tokens.tokens, tokens.index, "SWITCH")
      requires !S.Is(tokens.tokens, tokens.index, "IF") && !S.Is(tokens.tokens, tokens.index, "WHILE")
      requires !S.Is(tokens.tokens, tokens.index, "RETURN")
      modifies tokens
      ensures tokens.Valid() && Positioned(r)
      ensures r == S.ParseStatement(tokens.tokens, old(tokens.index))
    {
      var e := ParseExpression();
      if e.Failed? {
        return S.Failed(e.failure);
      }
      var assign := MatchLit("=");
      if assign {
        var v := ParseExpression();
        if v.Failed? {
          return S.Failed(v.failure);
        }
        var _ := MatchLit(";");
        return S.Done(Assignment(e.value, v.value), tokens.index);
      }
      var semicolon := MatchLit(";");
      if semicolon {
        return S.Done(Expression(e.value), tokens.index);
      }
      r := ErrorAfter(S.ExpectedAssignOrSemicolon);
    }

    method ParseDeclaration() returns (r: S.Parsed<Stmt>)
      requires tokens.Valid()
      modifies tokens
      ensures tokens.Valid() && Positioned(r)
      ensures r == S.ParseDeclaration(tokens.tokens, old(tokens.index))
    {
      var _ := MatchLit("LET");
      var named := MatchKind(IDENTIFIER);
      if !named {
        return S.Failed(S.ParseError(S.ExpectedIdentifier, -1, tokens.index));
      }
      var name := tokens.Get(-1).literal;
      var value: Option<Expr> := None;
      var assign := MatchLit("=");
      if assign {
        var e := ParseExpression();
        if e.Failed? {
          return S.Failed(e.failure);
        }
        value := Some(e.value);
      }
      var semicolon := MatchLit(";");
      if !semicolon {
        r := ErrorAfter(S.DeclarationNeedsSemicolon);
        return;
      }
      return S.Done(Declaration(name, None, value), tokens.index);
    }

    method ParseIf() returns (r: S.Parsed<Stmt>)
      requires tokens.Valid()
      modifies tokens
      ensures tokens.Valid() && Positioned(r)
      ensures r == S.ParseIf(tokens.tokens, old(tokens.index))
      decreases |tokens.tokens| - tokens.index, 11
    {
      var body := IfBody();
      r := Catch(S.IfErrorPrefix, body);
    }

    /** The try block of parseIfStatement. */
    method IfBody() returns (r: S.Parsed<Stmt>)
      requires tokens.Valid()
      modifies tokens
      ensures tokens.Valid() && Positioned(r)
      ensures r == S.IfBody(tokens.tokens, old(tokens.index))
      decreases |tokens.tokens| - tokens.index, 10
    {
      var _ := MatchLit("IF");
      var condition := ParseExpression();
      if condition.Failed? {
        return S.Failed(condition.failure);
      }
      var _ := MatchLit("DO");
      var thenBlock := ParseBlock();
      if thenBlock.Failed? {
        return S.Failed(thenBlock.failure);
      }
      r := CloseIf(condition.value, thenBlock.value);
    }

    /** The ELSE block, if any, and END of parseIfStatement. */
    method CloseIf(condition: Expr, thenBlock: seq<Stmt>) returns (r: S.Parsed<Stmt>)
      requires tokens.Valid()
      modifies tokens
      ensures tokens.Valid() && Positioned(r)
      ensures r == S.CloseIf(tokens.tokens, condition, thenBlock, old(tokens.index))
      decreases |tokens.tokens| - tokens.index, 10
    {
      var elseBlock: ElseBlock := NoElse;
      var hasElse := MatchLit("ELSE");
      if hasElse {
        var b := ParseBlock();
        if b.Failed? {
          return S.Failed(b.failure);
        }
        elseBlock := Else(b.value);
      }
      var _ := MatchLit("END");
      return S.Done(If(condition, thenBlock, elseBlock), tokens.index);
    }

    method ParseSwitch() returns (r: S.Parsed<Stmt>)
      requires tokens.Valid()
      modifies tokens
      ensures tokens.Valid() && Positioned(r)
      ensures r == S.ParseSwitch(tokens.tokens, old(tokens.index))
      decreases |tokens.tokens| - tokens.index, 11
    {
      var body := SwitchBody();
      r := Catch(S.SwitchErrorPrefix, body);
    }

    /** The try block of parseSwitchStatement. */
    method SwitchBody() returns (r: S.Parsed<Stmt>)
      requires tokens.Valid()
      modifies tokens
      ensures tokens.Valid() && Positioned(r)
      ensures r == S.SwitchBody(tokens.tokens, old(tokens.index))
      decreases |tokens.tokens| - tokens.index, 10
    {
      var _ := MatchLit("SWITCH");
      var condition := ParseExpression();
      if condition.Failed? {
        return S.Failed(condition.failure);
      }
      var cases := ParseCases();
      if cases.Failed? {
        return S.Failed(cases.failure);
      }
      r := CloseSwitch(condition.value, cases.value);
    }

    /** The CASE loop of parseSwitchStatement. */
    method ParseCases() returns (r: S.Parsed<seq<Case>>)
      requires tokens.Valid()
      modifies tokens
      ensures tokens.Valid() && Positioned(r)
      ensures r == S.ParseCases(tokens.tokens, [], old(tokens.index))
      decreases |tokens.tokens| - tokens.index, 9
    {
      var cases: seq<Case> := [];
      while true
        invariant tokens.Valid() && old(tokens.index) <= tokens.index
        invariant S.ParseCases(tokens.tokens, [], old(tokens.index)) == S.ParseCases(tokens.tokens, cases, tokens.index)
        decreases |tokens.tokens| - tokens.index
      {
        var more := MatchLit("CASE");
        if !more {
          break;
        }
        var value := ParseExpression();
        if value.Failed? {
          return S.Failed(value.failure);
        }
        var _ := MatchLit(":");
        var block := ParseBlock();
        if block.Failed? {
          return S.Failed(block.failure);
        }
        cases := cases + [Case(Some(value.value), block.value)];
      }
      return S.Done(cases, tokens.index);
    }

    /** The DEFAULT block, parsed and dropped, and END of parseSwitchStatement. */
    method CloseSwitch(condition: Expr, cases: seq<Case>) returns (r: S.Parsed<Stmt>)
      requires tokens.Valid()
      modifies tokens
      ensures tokens.Valid() && Positioned(r)
      ensures r == S.CloseSwitch(tokens.tokens, condition, cases, old(tokens.index))
      decreases |tokens.tokens| - tokens.index, 10
    {
      var hasDefault := MatchLit("DEFAULT");
      if hasDefault {
        var ignored := ParseBlock();
        if ignored.Failed? {
          return S.Failed(ignored.failure);
        }
      }
      var _ := MatchLit("END");
      return S.Done(Switch(condition, cases), tokens.index);
    }

    method ParseWhile() returns (r: S.Parsed<Stmt>)
      requires tokens.Valid()
      modifies tokens
      ensures tokens.Valid() && Positioned(r)
      ensures r == S.ParseWhile(tokens.tokens, old(tokens.index))
      decreases |tokens.tokens| - tokens.index, 11
    {
      var _ := MatchLit("WHILE");
      var condition := ParseExpression();
      if condition.Failed? {
        return S.Failed(condition.failure);
      }
      var hasDo := Peek([S.Lit("DO")]);
      if hasDo {
        var _ := MatchLit("DO");
      }
      var body := ParseBlock();
      if body.Failed? {
        return S.Failed(body.failure);
      }
      var _ := MatchLit("END");
      return S.Done(While(condition.value, body.value), tokens.index);
    }

    method ParseReturn() returns (r: S.Parsed<Stmt>)
      requires tokens.Valid()
      modifies tokens
      ensures tokens.Valid() && Positioned(r)
      ensures r == S.ParseReturn(tokens.tokens, old(tokens.index))
    {
      var _ := MatchLit("RETURN");
      var e := ParseExpression();
      if e.Failed? {
        return S.Failed(e.failure);
      }
      var _ := MatchLit(";");
      return S.Done(Return(e.value), tokens.index);
    }

    // ------------------------------------------------------- globals, functions

    /**
     * parseSource from the current position. Where the source's loop would spin
     * forever on a token it cannot use, this returns the Diverges outcome.
     */
    method ParseSource() returns (r: S.Parsed<Source>)
      requires tokens.Valid()
      modifies tokens
      ensures tokens.Valid() && Positioned(r)
      ensures r == S.SourceRest(tokens.tokens, [], [], old(tokens.index))
    {
      var globals: seq<Global> := [];
      var functions: seq<Function> := [];
      while tokens.Has(0)
        invariant tokens.Valid()
        invariant S.SourceRest(tokens.tokens, [], [], old(tokens.index)) == S.SourceRest(tokens.tokens, globals, functions, tokens.index)
        decreases |tokens.tokens| - tokens.index
      {
        var failure, moreGlobals, moreFunctions := ParseSourceItem(globals, functions);
        if failure.Some? {
          return S.Failed(failure.value);
        }
        globals, functions := moreGlobals, moreFunctions;
      }
      return S.Done(Source(globals, functions), tokens.index);
    }

    /** One turn of the loop of parseSource: a global or a function, added to those before it. */
    method ParseSourceItem(globals: seq<Global>, functions: seq<Function>)
      returns (failure: Option<S.Failure>, globals': seq<Global>, functions': seq<Function>)
      requires tokens.Valid() && tokens.Has(0)
      modifies tokens
      ensures tokens.Valid()
      ensures failure.Some? ==> S.SourceRest(tokens.tokens, globals, functions, old(tokens.index)) == S.Failed(failure.value)
      ensures failure.Some? && failure.value.ParseError? ==> tokens.index == failure.value.at
      ensures failure.None? ==> old(tokens.index) < tokens.index
      ensures failure.None? ==> S.SourceRest(tokens.tokens, globals, functions, old(tokens.index))
                                == S.SourceRest(tokens.tokens, globals', functions', tokens.index)
    {
      var isGlobal := MatchGlobalKeyword();
      if isGlobal {
        failure, globals', functions' := ParseSourceGlobal(globals, functions);
      } else {
        var isFunction := MatchLit("FUN");
        if !isFunction {
          return Some(S.Diverges), globals, functions;
        }
        failure, globals', functions' := ParseSourceFunction(globals, functions);
      }
    }

    /** The global after LIST, VAR or VAL in the loop of parseSource. */
    method ParseSourceGlobal(globals: seq<Global>, functions: seq<Function>)
      returns (failure: Option<S.Failure>, globals': seq<Global>, functions': seq<Function>)
      requires tokens.Valid() && tokens.index > 0
      requires var i := tokens.index - 1;
        S.Is(tokens.tokens, i, "LIST") || S.Is(tokens.tokens, i, "VAR") || S.Is(tokens.tokens, i, "VAL")
      modifies tokens
      ensures tokens.Valid()
      ensures failure.Some? ==> S.SourceRest(tokens.tokens, globals, functions, old(tokens.index) - 1) == S.Failed(failure.value)
      ensures failure.Some? && failure.value.ParseError? ==> tokens.index == failure.value.at
      ensures failure.None? ==> old(tokens.index) < tokens.index
      ensures failure.None? ==> S.SourceRest(tokens.tokens, globals, functions, old(tokens.index) - 1)
                                == S.SourceRest(tokens.tokens, globals', functions', tokens.index)
    {
      ghost var start := tokens.index - 1;
      var g := ParseGlobal();
      if g.Failed? {
        return Some(g.failure), globals, functions;
      }
      globals', functions' := globals + [g.value], functions;
      failure := None;
      assert S.SourceRest(tokens.tokens, globals, functions, start) == S.SourceRest(tokens.tokens, globals', functions, g.next);
    }

    /** The function after FUN in the loop of parseSource. */
    method ParseSourceFunction(globals: seq<Global>, functions: seq<Function>)
      returns (failure: Option<S.Failure>, globals': seq<Global>, functions': seq<Function>)
      requires tokens.Valid() && tokens.index > 0
      requires var i := tokens.index - 1;
        S.Is(tokens.tokens, i, "FUN") && !(S.Is(tokens.tokens, i, "LIST") || S.Is(tokens.tokens, i, "VAR") || S.Is(tokens.tokens, i, "VAL"))
      modifies tokens
      ensures tokens.Valid()
      ensures failure.Some? ==> S.SourceRest(tokens.tokens, globals, functions, old(tokens.index) - 1) == S.Failed(failure.value)
      ensures failure.Some? && failure.value.ParseError? ==> tokens.index == failure.value.at
      ensures failure.None? ==> old(tokens.index) < tokens.index
      ensures failure.None? ==> S.SourceRest(tokens.tokens, globals, functions, old(tokens.index) - 1)
                                == S.SourceRest(tokens.tokens, globals', functions', tokens.index)
    {
      ghost var start := tokens.index - 1;
      var f := ParseFunction();
      if f.Failed? {
        return Some(f.failure), globals, functions;
      }
      globals', functions' := globals, functions + [f.value];
      failure := None;
      assert S.SourceRest(tokens.tokens, globals, functions, start) == S.SourceRest(tokens.tokens, globals, functions', f.next);
    }

    /** match("LIST") || match("VAR") || match("VAL"). */
    method MatchGlobalKeyword() returns (m: bool)
      requires tokens.Valid()
      modifies tokens
      ensures tokens.Valid()
      ensures m == (S.Is(tokens.tokens, old(tokens.index), "LIST") || S.Is(tokens.tokens, old(tokens.index), "VAR")
                    || S.Is(tokens.tokens, old(tokens.index), "VAL"))
      ensures tokens.index == if m then old(tokens.index) + 1 else old(tokens.index)
    {
      m := MatchEither("LIST", "VAR");
      if !m {
        m := MatchLit("VAL");
      }
    }

    method ParseGlobal() returns (r: S.Parsed<Global>)
      requires tokens.Valid()
      modifies tokens
      ensures tokens.Valid() && Positioned(r)
      ensures r == S.ParseGlobal(tokens.tokens, old(tokens.index))
    {
      var m := MatchLit("LIST");
      if m {
        r := ParseList();
        return;
      }
      m := MatchLit("VAR");
      if m {
        r := ParseMutable();
        return;
      }
      m := MatchLit("VAL");
      if m {
        r := ParseImmutable();
        return;
      }
      r := ErrorAfter(S.ExpectedGlobal);
    }

    method ParseList() returns (r: S.Parsed<Global>)
      requires tokens.Valid()
      modifies tokens
      ensures tokens.Valid() && Positioned(r)
      ensures r == S.ParseList(tokens.tokens, old(tokens.index))
    {
      var _ := MatchLit("LIST");
      var named := MatchKind(IDENTIFIER);
      if !named {
        r := ErrorAfter(S.ListNeedsName);
        return;
      }
      var name := tokens.Get(-1).literal;
      var value: Option<Expr> := None;
      var assign := MatchLit("=");
      if assign {
        var e := ParseExpression();
        if e.Failed? {
          return S.Failed(e.failure);
        }
        value := Some(e.value);
      }
      r := CloseList(name, value);
    }

    /** The values of parseList, parsed and dropped, then ']' and ';'. */
    method CloseList(name: string, value: Option<Expr>) returns (r: S.Parsed<Global>)
      requires tokens.Valid()
      modifies tokens
      ensures tokens.Valid() && Positioned(r)
      ensures r == S.CloseList(tokens.tokens, name, value, old(tokens.index))
    {
      var values := ParseExpressionList();
      if values.Failed? {
        return S.Failed(values.failure);
      }
      var close := MatchLit("]");
      if !close {
        r := ErrorAfter(S.ListNeedsBracket);
        return;
      }
      var semicolon := MatchLit(";");
      if !semicolon {
        r := ErrorAfter(S.ListNeedsSemicolon);
        return;
      }
      return S.Done(Global(name, S.DefaultTypeName, false, value), tokens.index);
    }

    method ParseMutable() returns (r: S.Parsed<Global>)
      requires tokens.Valid()
      modifies tokens
      ensures tokens.Valid() && Positioned(r)
      ensures r == S.ParseMutable(tokens.tokens, old(tokens.index))
    {
      var _ := MatchLit("VAR");
      var named := MatchKind(IDENTIFIER);
      if !named {
        r := ErrorAfter(S.MutableNeedsName);
        return;
      }
      var name := tokens.Get(-1).literal;
      var value: Option<Expr> := None;
      var assign := MatchLit("=");
      if assign {
        var e := ParseExpression();
        if e.Failed? {
          return S.Failed(e.failure);
        }
        value := Some(e.value);
      }
      var _ := MatchLit(";");
      return S.Done(Global(name, S.DefaultTypeName, true, value), tokens.index);
    }

    method ParseImmutable() returns (r: S.Parsed<Global>)
      requires tokens.Valid()
      modifies tokens
      ensures tokens.Valid() && Positioned(r)
      ensures r == S.ParseImmutable(tokens.tokens, old(tokens.index))
    {
      var _ := MatchLit("VAL");
      var named := MatchKind(IDENTIFIER);
      if !named {
        r := ErrorAfter(S.ImmutableNeedsName);
        return;
      }
      var name := tokens.Get(-1).literal;
      var assign := MatchLit("=");
      if !assign {
        r := ErrorAfter(S.ImmutableNeedsValue);
        return;
      }
      var e := ParseExpression();
      if e.Failed? {
        return S.Failed(e.failure);
      }
      var _ := MatchLit(";");
      return S.Done(Global(name, S.DefaultTypeName, false, Some(e.value)), tokens.index);
    }

    /** The do-while of parameter names in parseFunction. */
    method ParseParameterList() returns (r: S.Parsed<seq<string>>)
      requires tokens.Valid()
      modifies tokens
      ensures tokens.Valid() && Positioned(r)
      ensures r == S.ParameterList(tokens.tokens, [], old(tokens.index))
    {
      var parameters: seq<string> := [];
      while true
        invariant tokens.Valid()
        invariant S.ParameterList(tokens.tokens, [], old(tokens.index)) == S.ParameterList(tokens.tokens, parameters, tokens.index)
        decreases |tokens.tokens| - tokens.index
      {
        var named := MatchKind(IDENTIFIER);
        if !named {
          r := ErrorAfter(S.ParameterNeedsName);
          return;
        }
        parameters := parameters + [tokens.Get(-1).literal];
        var comma := MatchLit(",");
        if !comma {
          return S.Done(parameters, tokens.index);
        }
      }
    }

    /** The parameter part of parseFunction: an optional parenthesised list of names. */
    method ParseParameters() returns (r: S.Parsed<seq<string>>)
      requires tokens.Valid()
      modifies tokens
      ensures tokens.Valid() && Positioned(r)
      ensures r == S.ParseParameters(tokens.tokens, old(tokens.index))
    {
      var open := MatchLit("(");
      if !open {
        return S.Done([], tokens.index);
      }
      var empty := MatchLit(")");
      if empty {
        return S.Done([], tokens.index);
      }
      var ps := ParseParameterList();
      if ps.Failed? {
        return S.Failed(ps.failure);
      }
      var _ := MatchLit(")");
      return S.Done(ps.value, tokens.index);
    }

    method ParseFunction() returns (r: S.Parsed<Function>)
      requires tokens.Valid()
      modifies tokens
      ensures tokens.Valid() && Positioned(r)
      ensures r == S.ParseFunction(tokens.tokens, old(tokens.index))
    {
      var _ := MatchLit("FUN");
      var named := MatchKind(IDENTIFIER);
      if !named {
        r := ErrorAfter(S.FunctionNeedsName);
        return;
      }
      var name := tokens.Get(-1).literal;
      var parameters := ParseParameters();
      if parameters.Failed? {
        return S.Failed(parameters.failure);
      }
      r := CloseFunction(name, parameters.value);
    }

    /** The DO, block and END of parseFunction. */
    method CloseFunction(name: string, parameters: seq<string>) returns (r: S.Parsed<Function>)
      requires tokens.Valid()
      modifies tokens
      ensures tokens.Valid() && Positioned(r)
      ensures r == S.CloseFunction(tokens.tokens, name, parameters, old(tokens.index))
    {
      var _ := MatchLit("DO");
      var body := ParseBlock();
      if body.Failed? {
        return S.Failed(body.failure);
      }
      var _ := MatchLit("END");
      return S.Done(Function(name, parameters, [], Some(S.DefaultTypeName), body.value), tokens.index);
    }
  }
}
