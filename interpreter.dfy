/**
 * The Interpreter as the source writes it: a visitor whose scope field is replaced by
 * a child scope on entering a block or a call and by the parent again on leaving it,
 * and which signals a Return to the enclosing call. Each visit is proved to return what
 * its function in InterpreterSpec computes from the scope it starts in, and to leave
 * the scope that function gives. A Scope object is modelled as a value: where the
 * source restores a saved Scope object, whose variables the block may have assigned,
 * the model takes the parent of the block's scope, which holds those assignments.
 */
module InterpreterImpl {
  import opened Ast
  import S = InterpreterSpec

  class Interpreter {
    var scope: S.Scope

    /** A scope under the parent, holding print. */
    constructor (parent: Option<S.Scope>)
      ensures scope == S.InitialScope(parent)
    {
      scope := S.InitialScope(parent);
    }

    // ---------------------------------------------------------------- programs

    /** visit(Source): the globals, the functions, then the value main() returns. */
    method VisitSource(source: Source, fuel: nat) returns (r: S.Outcome<S.Value>)
      modifies this
      ensures r == S.ValueOf(S.Run(old(scope), source, fuel))
      ensures r.Ok? ==> scope == S.Run(old(scope), source, fuel).value.scope
    {
      var i := 0;
      while i < |source.globals|
        invariant i <= |source.globals|
        invariant S.RunGlobals(old(scope), source.globals, 0, fuel) == S.RunGlobals(scope, source.globals, i, fuel)
      {
        var g := VisitGlobal(source.globals[i], fuel);
        if g.Fail? {
          return S.Fail(g.failure);
        }
        i := i + 1;
      }
      ghost var afterGlobals := scope;
      var j := 0;
      while j < |source.functions|
        invariant j <= |source.functions|
        invariant S.DefineFunctions(afterGlobals, source.functions, 0) == S.DefineFunctions(scope, source.functions, j)
      {
        var f := VisitFunction(source.functions[j]);
        if f.Fail? {
          return S.Fail(f.failure);
        }
        j := j + 1;
      }
      var main := S.LookupFunction(scope, "main", 0);
      if main.None? {
        return S.Fail(S.Undefined("main"));
      }
      r := Invoke(main.value, [], fuel);
    }

    /** visit(Global): a variable holding the value, or NIL. */
    method VisitGlobal(g: Global, fuel: nat) returns (r: S.Outcome<()>)
      modifies this
      ensures r == S.Define(old(scope), g.name, g.value, fuel).Drop()
      ensures r.Ok? ==> scope == S.Define(old(scope), g.name, g.value, fuel).value
    {
      r := DefineVariable(g.name, g.value, fuel);
    }

    /** visit(Function): the function's code, under its name and number of parameters. */
    method VisitFunction(f: Function) returns (r: S.Outcome<()>)
      modifies this
      ensures r == S.DefineFunction(old(scope), f.name, |f.parameters|, S.Defined(f)).Drop()
      ensures r.Ok? ==> scope == S.DefineFunction(old(scope), f.name, |f.parameters|, S.Defined(f)).value
    {
      var defined := S.DefineFunction(scope, f.name, |f.parameters|, S.Defined(f));
      if defined.Fail? {
        return S.Fail(defined.failure);
      }
      scope := defined.value;
      r := S.Ok(());
    }

    /**
     * The code a function name is bound to, run from the current scope: the body in a
     * child scope with the parameters bound, and its Return value or else NIL.
     */
    method Invoke(callee: S.Callable, args: seq<S.Value>, fuel: nat) returns (r: S.Outcome<S.Value>)
      modifies this
      ensures r == S.ValueOf(S.Invoke(old(scope), callee, args, fuel))
      ensures r.Ok? ==> scope == S.Invoke(old(scope), callee, args, fuel).value.scope
      decreases fuel
    {
      if callee.Print? {
        return S.Ok(S.Nil);
      }
      var f := callee.code;
      scope := S.Child(scope);
      var i := 0;
      while i < |f.parameters|
        invariant i <= |f.parameters|
        invariant S.BindParameters(S.Child(old(scope)), f.parameters, args, 0) == S.BindParameters(scope, f.parameters, args, i)
      {
        if i >= |args| {
          return S.Fail(S.Crash);
        }
        var defined := S.DefineVariable(scope, f.parameters[i], args[i]);
        if defined.Fail? {
          return S.Fail(defined.failure);
        }
        scope := defined.value;
        i := i + 1;
      }
      var body := VisitBlock(f.statements, fuel);
      if body.Fail? {
        return S.Fail(body.failure);
      }
      scope := scope.parent.value;
      if body.value.Some? {
        return S.Ok(body.value.value);
      }
      r := S.Ok(S.Nil);
    }

    // ------------------------------------------------------------- statements

    /** visit(Statement): None when it completes, Some(v) when a Return carrying v is under way. */
    method VisitStatement(s: Stmt, fuel: nat) returns (r: S.Outcome<Option<S.Value>>)
      modifies this
      ensures r == S.ReturnedOf(S.Exec(old(scope), s, fuel))
      ensures r.Ok? ==> scope == S.Exec(old(scope), s, fuel).value.scope
      decreases fuel, s, 2
    {
      match s
      case Expression(_) => r := VisitExpressionStatement(s, fuel);
      case Declaration(_, _, _) => r := VisitDeclaration(s, fuel);
      case Assignment(_, _) => r := VisitAssignment(s, fuel);
      case If(_, _, _) => r := VisitIf(s, fuel);
      case Switch(_, _) => r := VisitSwitch(s, fuel);
      case While(_, _) => r := VisitWhile(s, fuel);
      case Return(_) => r := VisitReturn(s, fuel);
    }

    /** The statements of a block in order, until one of them returns. */
    method VisitBlock(statements: seq<Stmt>, fuel: nat) returns (r: S.Outcome<Option<S.Value>>)
      modifies this
      ensures r == S.ReturnedOf(S.ExecBlock(old(scope), statements, 0, fuel))
      ensures r.Ok? ==> scope == S.ExecBlock(old(scope), statements, 0, fuel).value.scope
      decreases fuel, statements, 0
    {
      var i := 0;
      while i < |statements|
        invariant i <= |statements|
        invariant S.ExecBlock(old(scope), statements, 0, fuel) == S.ExecBlock(scope, statements, i, fuel)
      {
        r := VisitStatement(statements[i], fuel);
        if r.Fail? || r.value.Some? {
          return;
        }
        i := i + 1;
      }
      r := S.Ok(None);
    }

    method VisitExpressionStatement(s: Stmt, fuel: nat) returns (r: S.Outcome<Option<S.Value>>)
      requires s.Expression?
      modifies this
      ensures r == S.ReturnedOf(S.Exec(old(scope), s, fuel))
      ensures r.Ok? ==> scope == S.Exec(old(scope), s, fuel).value.scope
      decreases fuel, s, 1
    {
      var v := VisitExpression(s.expression, fuel);
      if v.Fail? {
        return S.Fail(v.failure);
      }
      r := S.Ok(None);
    }

    method VisitDeclaration(s: Stmt, fuel: nat) returns (r: S.Outcome<Option<S.Value>>)
      requires s.Declaration?
      modifies this
      ensures r == S.ReturnedOf(S.Exec(old(scope), s, fuel))
      ensures r.Ok? ==> scope == S.Exec(old(scope), s, fuel).value.scope
      decreases fuel, s, 1
    {
      var d := DefineVariable(s.name, s.value, fuel);
      if d.Fail? {
        return S.Fail(d.failure);
      }
      r := S.Ok(None);
    }

    /** The body shared by visit(Global) and visit(Declaration): the value, or NIL, defined under the name. */
    method DefineVariable(name: string, value: Option<Expr>, fuel: nat) returns (r: S.Outcome<()>)
      modifies this
      ensures r == S.Define(old(scope), name, value, fuel).Drop()
      ensures r.Ok? ==> scope == S.Define(old(scope), name, value, fuel).value
      decreases fuel, value, 3
    {
      var v: S.Value := S.Nil;
      if value.Some? {
        var e := VisitExpression(value.value, fuel);
        if e.Fail? {
          return S.Fail(e.failure);
        }
        v := e.value;
      }
      var defined := S.DefineVariable(scope, name, v);
      if defined.Fail? {
        return S.Fail(defined.failure);
      }
      scope := defined.value;
      r := S.Ok(());
    }

    /** visit(Assignment): the variable is looked up first, then the value evaluated and stored. */
    method VisitAssignment(s: Stmt, fuel: nat) returns (r: S.Outcome<Option<S.Value>>)
      requires s.Assignment?
      modifies this
      ensures r == S.ReturnedOf(S.Exec(old(scope), s, fuel))
      ensures r.Ok? ==> scope == S.Exec(old(scope), s, fuel).value.scope
      decreases fuel, s, 1
    {
      if !s.receiver.Access? {
        return S.Ok(None);
      }
      if !S.Defines(scope, s.receiver.name) {
        return S.Fail(S.Undefined(s.receiver.name));
      }
      var v := VisitExpression(s.newValue, fuel);
      if v.Fail? {
        return S.Fail(v.failure);
      }
      scope := S.Assign(scope, s.receiver.name, v.value);
      r := S.Ok(None);
    }

    /** visit(If) as evidently intended: one branch, in a child scope. */
    method VisitIf(s: Stmt, fuel: nat) returns (r: S.Outcome<Option<S.Value>>)
      requires s.If?
      modifies this
      ensures r == S.ReturnedOf(S.Exec(old(scope), s, fuel))
      ensures r.Ok? ==> scope == S.Exec(old(scope), s, fuel).value.scope
      decreases fuel, s, 1
    {
      var c := VisitExpression(s.condition, fuel);
      if c.Fail? {
        return S.Fail(c.failure);
      }
      var b := S.RequireBool(c.value);
      if b.Fail? {
        return S.Fail(b.failure);
      }
      scope := S.Child(scope);
      if b.value {
        r := VisitBlock(s.thenStatements, fuel);
      } else if s.elseStatements.Else? {
        r := VisitBlock(s.elseStatements.statements, fuel);
      } else {
        r := S.Ok(None);
      }
      if r.Fail? {
        return;
      }
      scope := scope.parent.value;
    }

    /**
     * visit(Switch): the condition once, then in a child scope the first case whose value
     * equals it, or else the first case without a value.
     */
    method VisitSwitch(s: Stmt, fuel: nat) returns (r: S.Outcome<Option<S.Value>>)
      requires s.Switch?
      modifies this
      ensures r == S.ReturnedOf(S.Exec(old(scope), s, fuel))
      ensures r.Ok? ==> scope == S.Exec(old(scope), s, fuel).value.scope
      decreases fuel, s, 1
    {
      var conditionValue := VisitExpression(s.condition, fuel);
      if conditionValue.Fail? {
        return S.Fail(conditionValue.failure);
      }
      scope := S.Child(scope);
      ghost var start := scope;
      var matchedCaseExecuted := false;
      var i := 0;
      while i < |s.cases|
        invariant i <= |s.cases|
        invariant S.MatchingCase(start, s, conditionValue.value, 0, fuel) == S.MatchingCase(scope, s, conditionValue.value, i, fuel)
      {
        var caseStmt := s.cases[i];
        if caseStmt.value.Some? {
          var v := VisitExpression(caseStmt.value.value, fuel);
          if v.Fail? {
            return S.Fail(v.failure);
          }
          if v.value == conditionValue.value {
            r := VisitBlock(caseStmt.statements, fuel);
            if r.Fail? {
              return;
            }
            matchedCaseExecuted := true;
            break;
          }
        }
        i := i + 1;
      }
      if !matchedCaseExecuted {
        r := S.Ok(None);
        var j := 0;
        while j < |s.cases|
          invariant j <= |s.cases|
          invariant S.MatchingCase(start, s, conditionValue.value, 0, fuel) == S.DefaultCase(scope, s, j, fuel)
        {
          if s.cases[j].value.None? {
            r := VisitBlock(s.cases[j].statements, fuel);
            if r.Fail? {
              return;
            }
            break;
          }
          j := j + 1;
        }
      }
      scope := scope.parent.value;
    }

    /** visit(Case): the case's statements in the current scope. */
    method VisitCase(c: Case, fuel: nat) returns (r: S.Outcome<Option<S.Value>>)
      modifies this
      ensures r == S.ReturnedOf(S.ExecBlock(old(scope), c.statements, 0, fuel))
      ensures r.Ok? ==> scope == S.ExecBlock(old(scope), c.statements, 0, fuel).value.scope
    {
      r := VisitBlock(c.statements, fuel);
    }

    /** visit(While): the condition checked before each turn, the body in a fresh child scope each turn. */
    method VisitWhile(s: Stmt, fuel: nat) returns (r: S.Outcome<Option<S.Value>>)
      requires s.While?
      modifies this
      ensures r == S.ReturnedOf(S.Exec(old(scope), s, fuel))
      ensures r.Ok? ==> scope == S.Exec(old(scope), s, fuel).value.scope
      decreases fuel, s, 1
    {
      var f: nat := fuel;
      while true
        invariant f <= fuel
        invariant S.WhileLoop(old(scope), s, fuel) == S.WhileLoop(scope, s, f)
        decreases f
      {
        var c := VisitExpression(s.condition, f);
        if c.Fail? {
          return S.Fail(c.failure);
        }
        var b := S.RequireBool(c.value);
        if b.Fail? {
          return S.Fail(b.failure);
        }
        if !b.value {
          return S.Ok(None);
        }
        if f == 0 {
          return S.Fail(S.OutOfFuel);
        }
        f := f - 1;
        scope := S.Child(scope);
        r := VisitBlock(s.statements, f);
        if r.Fail? {
          return;
        }
        scope := scope.parent.value;
        if r.value.Some? {
          return;
        }
      }
    }

    /** visit(Return): the value, carried out to the enclosing call. */
    method VisitReturn(s: Stmt, fuel: nat) returns (r: S.Outcome<Option<S.Value>>)
      requires s.Return?
      modifies this
      ensures r == S.ReturnedOf(S.Exec(old(scope), s, fuel))
      ensures r.Ok? ==> scope == S.Exec(old(scope), s, fuel).value.scope
      decreases fuel, s, 1
    {
      var v := VisitExpression(s.returned, fuel);
      if v.Fail? {
        return S.Fail(v.failure);
      }
      r := S.Ok(Some(v.value));
    }

    // ------------------------------------------------------------ expressions

    /** visit(Expression): the value of e. */
    method VisitExpression(e: Expr, fuel: nat) returns (r: S.Outcome<S.Value>)
      modifies this
      ensures r == S.ValueOf(S.Eval(old(scope), e, fuel))
      ensures r.Ok? ==> scope == S.Eval(old(scope), e, fuel).value.scope
      decreases fuel, e, 2
    {
      match e
      case Literal(lit) =>
        r := S.Ok(S.LiteralValue(lit));
      case Group(inner) =>
        r := VisitExpression(inner, fuel);
      case Binary(_, _, _) =>
        r := VisitBinary(e, fuel);
      case Access(_, _) =>
        r := S.Fail(S.Unsupported);
      case Call(_, _) =>
        r := VisitCall(e, fuel);
      case PlcList(_) =>
        var values := VisitEach(e, fuel);
        if values.Fail? {
          return S.Fail(values.failure);
        }
        r := S.Ok(S.List(values.value));
    }

    /** The loop over a call's arguments or a list's values: each evaluated in order. */
    method VisitEach(e: Expr, fuel: nat) returns (r: S.Outcome<seq<S.Value>>)
      requires e.Call? || e.PlcList?
      modifies this
      ensures S.EvalEach(old(scope), e, 0, [], fuel).Ok? <==> r.Ok?
      ensures r.Ok? ==> r.value == S.EvalEach(old(scope), e, 0, [], fuel).value.values
                        && scope == S.EvalEach(old(scope), e, 0, [], fuel).value.scope
      ensures r.Fail? ==> r.failure == S.EvalEach(old(scope), e, 0, [], fuel).failure
      decreases fuel, e, 0
    {
      var items := S.Items(e);
      var values: seq<S.Value> := [];
      var i := 0;
      while i < |items|
        invariant i <= |items|
        invariant S.EvalEach(old(scope), e, 0, [], fuel) == S.EvalEach(scope, e, i, values, fuel)
      {
        var v := VisitExpression(items[i], fuel);
        if v.Fail? {
          return S.Fail(v.failure);
        }
        values := values + [v.value];
        i := i + 1;
      }
      r := S.Ok(values);
    }

    /**
     * visit(Function call): the arguments evaluated in a child scope, the function found
     * from there and invoked, and the child scope left again.
     */
    method VisitCall(call: Expr, fuel: nat) returns (r: S.Outcome<S.Value>)
      requires call.Call?
      modifies this
      ensures r == S.ValueOf(S.Eval(old(scope), call, fuel))
      ensures r.Ok? ==> scope == S.Eval(old(scope), call, fuel).value.scope
      decreases fuel, call, 1
    {
      scope := S.Child(scope);
      var args := VisitEach(call, fuel);
      if args.Fail? {
        return S.Fail(args.failure);
      }
      var callee := S.LookupFunction(scope, call.name, |args.value|);
      if callee.None? {
        return S.Fail(S.Undefined(call.name));
      }
      if fuel == 0 {
        return S.Fail(S.OutOfFuel);
      }
      r := Invoke(callee.value, args.value, fuel - 1);
      if r.Fail? {
        return;
      }
      scope := scope.parent.value;
    }

    /** visit(Binary): the operator decides the order in which operands are evaluated and checked. */
    method VisitBinary(e: Expr, fuel: nat) returns (r: S.Outcome<S.Value>)
      requires e.Binary?
      modifies this
      ensures r == S.ValueOf(S.EvalBinary(old(scope), e, fuel))
      ensures r.Ok? ==> scope == S.EvalBinary(old(scope), e, fuel).value.scope
      decreases fuel, e, 1
    {
      match e.operator
      case "&&" => r := VisitLogical(e, fuel);
      case "||" => r := VisitLogical(e, fuel);
      case "<" => r := VisitComparison(e, fuel);
      case ">" => r := VisitComparison(e, fuel);
      case "==" => r := VisitEquality(e, fuel);
      case "!=" => r := VisitEquality(e, fuel);
      case "+" => r := VisitPlus(e, fuel);
      case "-" => r := VisitArithmetic(e, fuel);
      case "*" => r := VisitArithmetic(e, fuel);
      case "/" => r := VisitDivision(e, fuel);
      case "^" => r := VisitArithmetic(e, fuel);
      case _ => r := S.Fail(S.Thrown(S.UnsupportedOperatorPrefix + e.operator));
    }

    /** && and ||: the right operand only when the left one leaves the result open. */
    method VisitLogical(e: Expr, fuel: nat) returns (r: S.Outcome<S.Value>)
      requires e.Binary? && e.operator in {"&&", "||"}
      modifies this
      ensures r == S.ValueOf(S.EvalBinary(old(scope), e, fuel))
      ensures r.Ok? ==> scope == S.EvalBinary(old(scope), e, fuel).value.scope
      decreases fuel, e, 0
    {
      var l := VisitExpression(e.left, fuel);
      if l.Fail? {
        return l;
      }
      var lb := S.RequireBool(l.value);
      if lb.Fail? {
        return S.Fail(lb.failure);
      }
      if lb.value == (e.operator == "||") {
        return S.Ok(S.Bool(lb.value));
      }
      var rv := VisitExpression(e.right, fuel);
      if rv.Fail? {
        return rv;
      }
      var rb := S.RequireBool(rv.value);
      if rb.Fail? {
        return S.Fail(rb.failure);
      }
      r := S.Ok(S.Bool(rb.value));
    }

    /** < and >: two Comparable operands, compared with compareTo. */
    method VisitComparison(e: Expr, fuel: nat) returns (r: S.Outcome<S.Value>)
      requires e.Binary? && e.operator in {"<", ">"}
      modifies this
      ensures r == S.ValueOf(S.EvalBinary(old(scope), e, fuel))
      ensures r.Ok? ==> scope == S.EvalBinary(old(scope), e, fuel).value.scope
      decreases fuel, e, 0
    {
      var l := VisitExpression(e.left, fuel);
      if l.Fail? {
        return l;
      }
      if !S.IsComparable(l.value) {
        return S.Fail(S.WrongType(S.ComparableClass));
      }
      var rv := VisitExpression(e.right, fuel);
      if rv.Fail? {
        return rv;
      }
      if !S.IsComparable(rv.value) {
        return S.Fail(S.WrongType(S.ComparableClass));
      }
      var comparison := S.Compare(l.value, rv.value);
      if comparison.Fail? {
        return S.Fail(comparison.failure);
      }
      if e.operator == "<" {
        r := S.Ok(S.Bool(comparison.value < 0));
      } else {
        r := S.Ok(S.Bool(comparison.value > 0));
      }
    }

    /** == and !=: Objects.equals on the two values. */
    method VisitEquality(e: Expr, fuel: nat) returns (r: S.Outcome<S.Value>)
      requires e.Binary? && e.operator in {"==", "!="}
      modifies this
      ensures r == S.ValueOf(S.EvalBinary(old(scope), e, fuel))
      ensures r.Ok? ==> scope == S.EvalBinary(old(scope), e, fuel).value.scope
      decreases fuel, e, 0
    {
      var l := VisitExpression(e.left, fuel);
      if l.Fail? {
        return l;
      }
      var rv := VisitExpression(e.right, fuel);
      if rv.Fail? {
        return rv;
      }
      if e.operator == "==" {
        r := S.Ok(S.Bool(l.value == rv.value));
      } else {
        r := S.Ok(S.Bool(l.value != rv.value));
      }
    }

    /** +: both operands, then concatenation or a sum. */
    method VisitPlus(e: Expr, fuel: nat) returns (r: S.Outcome<S.Value>)
      requires e.Binary? && e.operator == "+"
      modifies this
      ensures r == S.ValueOf(S.EvalBinary(old(scope), e, fuel))
      ensures r.Ok? ==> scope == S.EvalBinary(old(scope), e, fuel).value.scope
      decreases fuel, e, 0
    {
      var left := VisitExpression(e.left, fuel);
      if left.Fail? {
        return left;
      }
      var right := VisitExpression(e.right, fuel);
      if right.Fail? {
        return right;
      }
      r := S.Plus(left.value, right.value);
    }

    /** -, * and ^: an Integer left operand, then an Integer right operand. */
    method VisitArithmetic(e: Expr, fuel: nat) returns (r: S.Outcome<S.Value>)
      requires e.Binary? && e.operator in {"-", "*", "^"}
      modifies this
      ensures r == S.ValueOf(S.EvalBinary(old(scope), e, fuel))
      ensures r.Ok? ==> scope == S.EvalBinary(old(scope), e, fuel).value.scope
      decreases fuel, e, 0
    {
      var l := VisitExpression(e.left, fuel);
      if l.Fail? {
        return l;
      }
      var li := S.RequireInteger(l.value);
      if li.Fail? {
        return S.Fail(li.failure);
      }
      var rv := VisitExpression(e.right, fuel);
      if rv.Fail? {
        return rv;
      }
      var ri := S.RequireInteger(rv.value);
      if ri.Fail? {
        return S.Fail(ri.failure);
      }
      if e.operator == "-" {
        r := S.Ok(S.Int(li.value - ri.value));
      } else if e.operator == "*" {
        r := S.Ok(S.Int(li.value * ri.value));
      } else {
        var p := S.Exponentiate(li.value, ri.value);
        if p.Fail? {
          return S.Fail(p.failure);
        }
        r := S.Ok(S.Int(p.value));
      }
    }

    /** /: the right operand first, checked for zero, then the left one. */
    method VisitDivision(e: Expr, fuel: nat) returns (r: S.Outcome<S.Value>)
      requires e.Binary? && e.operator == "/"
      modifies this
      ensures r == S.ValueOf(S.EvalBinary(old(scope), e, fuel))
      ensures r.Ok? ==> scope == S.EvalBinary(old(scope), e, fuel).value.scope
      decreases fuel, e, 0
    {
      var rv := VisitExpression(e.right, fuel);
      if rv.Fail? {
        return rv;
      }
      var rightDiv := S.RequireInteger(rv.value);
      if rightDiv.Fail? {
        return S.Fail(rightDiv.failure);
      }
      if rightDiv.value == 0 {
        return S.Fail(S.Thrown(S.DivideByZero));
      }
      var l := VisitExpression(e.left, fuel);
      if l.Fail? {
        return l;
      }
      var li := S.RequireInteger(l.value);
      if li.Fail? {
        return S.Fail(li.failure);
      }
      r := S.Ok(S.Int(S.TruncatedDivision(li.value, rightDiv.value)));
    }
  }
}
