/**
 * The Analyzer as the source writes it: a visitor whose scope field is swapped for
 * a child scope around each block and put back afterwards, and which records the
 * enclosing function's return type for the Return visit. Each visit is proved to
 * report what its function in AnalyzerSpec computes from the state it starts in,
 * and to leave the scope that function gives.
 */
module AnalyzerImpl {
  import opened Ast
  import Numerals
  import S = AnalyzerSpec

  class Analyzer {
    var scope: S.Scope
    var currentFunctionReturnType: Option<S.Type>

    /** A scope under the parent with print(Any) defined, and no enclosing function. */
    constructor (parent: Option<S.Scope>)
      ensures scope == S.InitialScope(parent) && currentFunctionReturnType == None
    {
      scope := S.InitialScope(parent);
      currentFunctionReturnType := None;
    }

    // ----------------------------------------------------------- expressions

    /** visit(Expression): the type written on e, or the failure; nothing else changes. */
    method VisitExpression(e: Expr) returns (r: S.Outcome<Option<S.Type>>)
      ensures r == S.TypeOf(scope, e)
      decreases e, 1
    {
      match e
      case Literal(v) =>
        r := S.LiteralType(v);
      case Group(inner) =>
        if !inner.Binary? {
          return S.Fail(S.Rejected(S.GroupNotBinary));
        }
        r := VisitExpression(inner);
      case Binary(_, _, _) =>
        r := VisitBinary(e);
      case Access(_, name) =>
        var v := S.LookupVariable(scope, name);
        if v.None? {
          return S.Fail(S.Rejected("Variable '" + name + "' not found."));
        }
        r := S.Ok(Some(v.value.varType));
      case Call(_, _) =>
        r := VisitCall(e);
      case PlcList(_) =>
        r := VisitList(e);
    }

    method VisitBinary(e: Expr) returns (r: S.Outcome<Option<S.Type>>)
      requires e.Binary?
      ensures r == S.TypeOf(scope, e)
      decreases e, 0
    {
      var left := VisitExpression(e.left);
      if left.Fail? {
        return S.Fail(left.failure);
      }
      var right := VisitExpression(e.right);
      if right.Fail? {
        return S.Fail(right.failure);
      }
      if left.value.None? || right.value.None? {
        return S.Fail(S.Untyped);
      }
      var t := S.BinaryType(e.operator, left.value.value, right.value.value);
      if t.Fail? {
        return S.Fail(t.failure);
      }
      r := S.Ok(Some(t.value));
    }

    /** visit(Function call): the function is looked up by name and arity, then each argument is checked. */
    method VisitCall(call: Expr) returns (r: S.Outcome<Option<S.Type>>)
      requires call.Call?
      ensures r == S.TypeOf(scope, call)
      decreases call, 0
    {
      var f := S.LookupFunction(scope, call.name, |call.arguments|);
      if f.None? {
        return S.Fail(S.Rejected("Function '" + call.name + "' with " + Numerals.IntToString(|call.arguments|) + " arguments not found."));
      }
      var parameterTypes := f.value.parameterTypes;
      var i := 0;
      while i < |call.arguments|
        invariant i <= |call.arguments|
        invariant S.ArgumentsFrom(scope, call, parameterTypes, 0) == S.ArgumentsFrom(scope, call, parameterTypes, i)
      {
        var a := VisitExpression(call.arguments[i]);
        if a.Fail? {
          return S.Fail(a.failure);
        }
        if i >= |parameterTypes| {
          return S.Fail(S.Crash);
        }
        if a.value.None? {
          return S.Fail(S.Untyped);
        }
        if !S.IsAssignable(parameterTypes[i], a.value.value) {
          return S.Fail(S.NotAssignable(parameterTypes[i], a.value.value));
        }
        i := i + 1;
      }
      r := S.Ok(Some(f.value.returnType));
    }

    /** visit(PlcList): every element after the first must have the first one's type. */
    method VisitList(list: Expr) returns (r: S.Outcome<Option<S.Type>>)
      requires list.PlcList?
      ensures r == S.TypeOf(scope, list)
      decreases list, 0
    {
      if |list.values| == 0 {
        return S.Ok(None);
      }
      var first := VisitExpression(list.values[0]);
      if first.Fail? {
        return S.Fail(first.failure);
      }
      if first.value.None? {
        return S.Fail(S.Untyped);
      }
      var expected := first.value.value;
      var i := 1;
      while i < |list.values|
        invariant 1 <= i <= |list.values|
        invariant S.ElementsFrom(scope, list, expected, 1) == S.ElementsFrom(scope, list, expected, i)
      {
        var v := VisitExpression(list.values[i]);
        if v.Fail? {
          return S.Fail(v.failure);
        }
        if v.value.None? {
          return S.Fail(S.Untyped);
        }
        if v.value.value != expected {
          return S.Fail(S.Rejected(S.MixedListElements));
        }
        i := i + 1;
      }
      r := S.Ok(None);
    }

    // ------------------------------------------------------------ statements

    /** visit(Statement): the outcome of the statement's check, and the scope it leaves. */
    method VisitStatement(s: Stmt) returns (r: S.Outcome<()>)
      modifies this
      ensures r == S.AnalyzeStatement(old(scope), old(currentFunctionReturnType), s).Drop()
      ensures r.Ok? ==> scope == S.AnalyzeStatement(old(scope), old(currentFunctionReturnType), s).value
      ensures currentFunctionReturnType == old(currentFunctionReturnType)
      decreases s, 1
    {
      match s
      case Expression(_) => r := VisitExpressionStatement(s);
      case Declaration(_, _, _) => r := VisitDeclaration(s);
      case Assignment(_, _) => r := VisitAssignment(s);
      case If(_, _, _) => r := VisitIf(s);
      case Switch(_, _) => r := VisitSwitch(s);
      case While(_, _) => r := VisitWhile(s);
      case Return(_) => r := VisitReturn(s);
    }

    /** The statements of a block in order, each in the scope the previous one leaves. */
    method VisitStatements(statements: seq<Stmt>) returns (r: S.Outcome<()>)
      modifies this
      ensures r == S.AnalyzeBlock(old(scope), old(currentFunctionReturnType), statements, 0).Drop()
      ensures r.Ok? ==> scope == S.AnalyzeBlock(old(scope), old(currentFunctionReturnType), statements, 0).value
      ensures currentFunctionReturnType == old(currentFunctionReturnType)
      decreases statements, 0
    {
      var i := 0;
      while i < |statements|
        invariant i <= |statements| && currentFunctionReturnType == old(currentFunctionReturnType)
        invariant S.AnalyzeBlock(old(scope), currentFunctionReturnType, statements, 0)
                  == S.AnalyzeBlock(scope, currentFunctionReturnType, statements, i)
      {
        r := VisitStatement(statements[i]);
        if r.Fail? {
          return;
        }
        i := i + 1;
      }
      r := S.Ok(());
    }

    method VisitExpressionStatement(s: Stmt) returns (r: S.Outcome<()>)
      requires s.Expression?
      ensures r == S.AnalyzeStatement(scope, currentFunctionReturnType, s).Drop()
    {
      if !s.expression.Call? {
        return S.Fail(S.Rejected(S.ExpressionNotCall));
      }
      var t := VisitCall(s.expression);
      r := t.Drop();
    }

    method VisitDeclaration(s: Stmt) returns (r: S.Outcome<()>)
      requires s.Declaration?
      modifies this
      ensures r == S.AnalyzeDeclaration(old(scope), s).Drop()
      ensures r.Ok? ==> scope == S.AnalyzeDeclaration(old(scope), s).value
      ensures currentFunctionReturnType == old(currentFunctionReturnType)
    {
      var declaredType: S.Type;
      if s.typeName.Some? {
        var t := S.TypeNamed(s.typeName.value);
        if t.None? {
          return S.Fail(S.UnknownType(s.typeName.value));
        }
        declaredType := t.value;
      } else if s.value.Some? {
        var v := VisitExpression(s.value.value);
        if v.Fail? {
          return S.Fail(v.failure);
        }
        if v.value.None? {
          return S.Fail(S.Untyped);
        }
        declaredType := v.value.value;
      } else {
        return S.Fail(S.Rejected(S.DeclarationUntyped));
      }
      if s.name in scope.variables {
        return S.Fail(S.Redefined(s.name));
      }
      scope := scope.(variables := scope.variables[s.name := S.Variable(s.name, declaredType, true)]);
      if s.value.Some? && s.typeName.Some? {
        // getType() on a value that was never visited
        return S.Fail(S.Untyped);
      }
      r := S.Ok(());
    }

    method VisitAssignment(s: Stmt) returns (r: S.Outcome<()>)
      requires s.Assignment?
      ensures r == S.AnalyzeStatement(scope, currentFunctionReturnType, s).Drop()
    {
      if !s.receiver.Access? {
        return S.Fail(S.Rejected(S.ReceiverNotAccess));
      }
      var v := VisitExpression(s.newValue);
      if v.Fail? {
        return S.Fail(v.failure);
      }
      var receiver := VisitExpression(s.receiver);
      if receiver.Fail? {
        return S.Fail(receiver.failure);
      }
      if v.value.None? {
        return S.Fail(S.Untyped);
      }
      var check := S.RequireAssignable(receiver.value.value, v.value.value);
      r := check;
    }

    /** The condition of an If or a While, which must be typed Boolean. */
    method VisitCondition(condition: Expr, message: string) returns (r: S.Outcome<()>)
      ensures r == S.BooleanCondition(scope, condition, message)
    {
      var c := VisitExpression(condition);
      if c.Fail? {
        return S.Fail(c.failure);
      }
      if c.value.None? {
        return S.Fail(S.Untyped);
      }
      if c.value.value != S.BooleanType {
        return S.Fail(S.Rejected(message));
      }
      r := S.Ok(());
    }

    /** visit(If): each branch in its own child scope, and the scope put back after each. */
    method VisitIf(s: Stmt) returns (r: S.Outcome<()>)
      requires s.If?
      modifies this
      ensures r == S.AnalyzeIf(old(scope), old(currentFunctionReturnType), s).Drop()
      ensures r.Ok? ==> scope == old(scope)
      ensures currentFunctionReturnType == old(currentFunctionReturnType)
      decreases s, 0
    {
      r := VisitCondition(s.condition, S.IfConditionNotBoolean);
      if r.Fail? {
        return;
      }
      if |s.thenStatements| == 0 {
        return S.Fail(S.Rejected(S.EmptyThenBlock));
      }
      var originalScope := scope;
      scope := S.Child(originalScope);
      r := VisitStatements(s.thenStatements);
      if r.Fail? {
        return;
      }
      scope := originalScope;
      match s.elseStatements
      case NoElse =>
        return S.Fail(S.Crash);
      case Else(elseStatements) =>
        if |elseStatements| > 0 {
          scope := S.Child(originalScope);
          r := VisitStatements(elseStatements);
          if r.Fail? {
            return;
          }
          scope := originalScope;
        }
    }

    /** visit(Switch): each case in a fresh child scope; the scope is put back after the last. */
    method VisitSwitch(s: Stmt) returns (r: S.Outcome<()>)
      requires s.Switch?
      modifies this
      ensures r == S.AnalyzeSwitch(old(scope), old(currentFunctionReturnType), s).Drop()
      ensures r.Ok? ==> scope == old(scope)
      ensures currentFunctionReturnType == old(currentFunctionReturnType)
      decreases s, 0
    {
      var c := VisitExpression(s.condition);
      if c.Fail? {
        return S.Fail(c.failure);
      }
      if c.value.None? {
        return S.Fail(S.Untyped);
      }
      r := VisitCases(c.value.value, s.cases);
      if r.Ok? {
        r := S.Ok(());
      }
    }

    /** The case loop of visit(Switch), against the condition's type. */
    method VisitCases(conditionType: S.Type, cases: seq<Case>) returns (r: S.Outcome<()>)
      modifies this
      ensures r == S.AnalyzeCases(old(scope), old(currentFunctionReturnType), conditionType, cases, 0, false)
      ensures r.Ok? ==> scope == old(scope)
      ensures currentFunctionReturnType == old(currentFunctionReturnType)
      decreases cases, |cases| + 1
    {
      var defaultCaseFound := false;
      var originalScope := scope;
      ghost var ret := currentFunctionReturnType;
      var i := 0;
      while i < |cases|
        invariant i <= |cases| && currentFunctionReturnType == ret
        invariant S.AnalyzeCases(originalScope, ret, conditionType, cases, 0, false)
                  == S.AnalyzeCases(originalScope, ret, conditionType, cases, i, defaultCaseFound)
      {
        var switchCase := cases[i];
        scope := S.Child(originalScope);
        if switchCase.value.Some? {
          r := VisitCaseValue(conditionType, switchCase.value.value);
          if r.Fail? {
            return;
          }
        } else {
          if defaultCaseFound || i != |cases| - 1 {
            return S.Fail(S.Rejected(S.MisplacedDefault));
          }
          defaultCaseFound := true;
        }
        r := VisitStatements(switchCase.statements);
        if r.Fail? {
          return;
        }
        i := i + 1;
      }
      scope := originalScope;
      r := S.Ok(());
    }

    /** The value of one case of a Switch, visited in the current scope and checked against the condition's type. */
    method VisitCaseValue(conditionType: S.Type, value: Expr) returns (r: S.Outcome<()>)
      ensures r == S.ValueOfType(scope, conditionType, value)
    {
      var v := VisitExpression(value);
      if v.Fail? {
        return S.Fail(v.failure);
      }
      if v.value.None? {
        return S.Fail(S.Untyped);
      }
      if v.value.value != conditionType {
        return S.Fail(S.Rejected(S.CaseTypeMismatch));
      }
      r := S.Ok(());
    }

    /** visit(Case), which no other visit calls: the value is visited, the statements checked in a child scope. */
    method VisitCase(c: Case) returns (r: S.Outcome<()>)
      modifies this
      ensures r == S.AnalyzeCase(old(scope), old(currentFunctionReturnType), c).Drop()
      ensures r.Ok? ==> scope == old(scope)
      ensures currentFunctionReturnType == old(currentFunctionReturnType)
    {
      var originalScope := scope;
      scope := S.Child(originalScope);
      if c.value.Some? {
        var v := VisitExpression(c.value.value);
        if v.Fail? {
          return S.Fail(v.failure);
        }
      }
      r := VisitStatements(c.statements);
      if r.Fail? {
        return;
      }
      scope := originalScope;
    }

    /** visit(While): the body in a child scope; the scope is put back whether or not the body passes. */
    method VisitWhile(s: Stmt) returns (r: S.Outcome<()>)
      requires s.While?
      modifies this
      ensures r == S.AnalyzeStatement(old(scope), old(currentFunctionReturnType), s).Drop()
      ensures scope == old(scope)
      ensures currentFunctionReturnType == old(currentFunctionReturnType)
      decreases s, 0
    {
      r := VisitCondition(s.condition, S.WhileConditionNotBoolean);
      if r.Fail? {
        return;
      }
      var originalScope := scope;
      scope := S.Child(originalScope);
      r := VisitStatements(s.statements);
      scope := originalScope;
    }

    /** visit(Return): only inside a function, and the value must fit its return type. */
    method VisitReturn(s: Stmt) returns (r: S.Outcome<()>)
      requires s.Return?
      ensures r == S.AnalyzeStatement(scope, currentFunctionReturnType, s).Drop()
    {
      if currentFunctionReturnType.None? {
        return S.Fail(S.Rejected(S.ReturnOutsideFunction));
      }
      var v := VisitExpression(s.returned);
      if v.Fail? {
        return S.Fail(v.failure);
      }
      if v.value.None? {
        return S.Fail(S.Untyped);
      }
      r := S.RequireAssignable(currentFunctionReturnType.value, v.value.value);
    }

    // ---------------------------------------------------- globals, functions

    /** visit(Global): the value is checked against the type name, then the variable is defined. */
    method VisitGlobal(g: Global) returns (r: S.Outcome<()>)
      modifies this
      ensures r == S.AnalyzeGlobal(old(scope), g).Drop()
      ensures r.Ok? ==> scope == S.AnalyzeGlobal(old(scope), g).value
      ensures currentFunctionReturnType == old(currentFunctionReturnType)
    {
      var variableType := S.TypeNamed(g.typeName);
      if variableType.None? {
        return S.Fail(S.UnknownType(g.typeName));
      }
      if g.value.Some? {
        var e := g.value.value;
        var v: S.Outcome<Option<S.Type>>;
        if e.Literal? || e.Binary? {
          v := VisitExpression(e);
        } else {
          v := S.Fail(S.Untyped);
        }
        if v.Fail? {
          return S.Fail(v.failure);
        }
        if v.value.None? {
          return S.Fail(S.Untyped);
        }
        r := S.RequireAssignable(variableType.value, v.value.value);
        if r.Fail? {
          return;
        }
      }
      if g.name in scope.variables {
        return S.Fail(S.Rejected(S.GlobalErrorPrefix + g.name));
      }
      scope := scope.(variables := scope.variables[g.name := S.Variable(g.name, variableType.value, g.mutable)]);
      r := S.Ok(());
    }

    /**
     * visit(Function): the function is defined, then its parameters and body are checked
     * in a child scope with its return type recorded; both are reset afterwards.
     */
    method VisitFunction(f: Function) returns (r: S.Outcome<()>)
      modifies this
      ensures r == S.AnalyzeFunction(old(scope), f).Drop()
      ensures r.Ok? ==> scope == S.AnalyzeFunction(old(scope), f).value && currentFunctionReturnType == None
    {
      var parameterTypes := S.TypesNamed(f.parameterTypeNames);
      if parameterTypes.Fail? {
        return S.Fail(parameterTypes.failure);
      }
      var returnType := S.TypeNamed(S.ReturnTypeName(f));
      if returnType.None? {
        return S.Fail(S.UnknownType(S.ReturnTypeName(f)));
      }
      currentFunctionReturnType := returnType;
      var key := (f.name, |parameterTypes.value|);
      if key in scope.functions {
        return S.Fail(S.Redefined(f.name));
      }
      scope := scope.(functions := scope.functions[key := S.Signature(parameterTypes.value, returnType.value)]);
      var originalScope := scope;
      scope := S.Child(originalScope);
      r := DefineParameters(f, parameterTypes.value);
      if r.Fail? {
        return;
      }
      r := VisitBody(f.statements);
      if r.Fail? {
        return;
      }
      scope := originalScope;
      currentFunctionReturnType := None;
    }

    /** The parameter loop of visit(Function): each parameter a mutable variable of the current scope. */
    method DefineParameters(f: Function, types: seq<S.Type>) returns (r: S.Outcome<()>)
      requires |types| == |f.parameterTypeNames|
      modifies this
      ensures r == S.DefineParameters(old(scope), f, types, 0).Drop()
      ensures r.Ok? ==> scope == S.DefineParameters(old(scope), f, types, 0).value
      ensures currentFunctionReturnType == old(currentFunctionReturnType)
    {
      var i := 0;
      while i < |f.parameters|
        invariant i <= |f.parameters|
        invariant S.DefineParameters(old(scope), f, types, 0) == S.DefineParameters(scope, f, types, i)
        invariant currentFunctionReturnType == old(currentFunctionReturnType)
      {
        if i >= |f.parameterTypeNames| {
          return S.Fail(S.Crash);
        }
        if f.parameters[i] in scope.variables {
          return S.Fail(S.Redefined(f.parameters[i]));
        }
        scope := scope.(variables := scope.variables[f.parameters[i] := S.Variable(f.parameters[i], types[i], true)]);
        i := i + 1;
      }
      r := S.Ok(());
    }

    /** The statement loop of visit(Function): a Switch is passed over, every other statement visited. */
    method VisitBody(statements: seq<Stmt>) returns (r: S.Outcome<()>)
      requires currentFunctionReturnType.Some?
      modifies this
      ensures r == S.AnalyzeBody(old(scope), old(currentFunctionReturnType).value, statements, 0).Drop()
      ensures r.Ok? ==> scope == S.AnalyzeBody(old(scope), old(currentFunctionReturnType).value, statements, 0).value
      ensures currentFunctionReturnType == old(currentFunctionReturnType)
    {
      ghost var ret := currentFunctionReturnType.value;
      var i := 0;
      while i < |statements|
        invariant i <= |statements| && currentFunctionReturnType == Some(ret)
        invariant S.AnalyzeBody(old(scope), ret, statements, 0) == S.AnalyzeBody(scope, ret, statements, i)
      {
        if !statements[i].Switch? {
          r := VisitStatement(statements[i]);
          if r.Fail? {
            return;
          }
        }
        i := i + 1;
      }
      r := S.Ok(());
    }

    /** visit(Source): the globals, then the functions, then the check that main() was found. */
    method VisitSource(source: Source) returns (r: S.Outcome<()>)
      modifies this
      ensures r == S.AnalyzeSource(old(scope), source).Drop()
      ensures r.Ok? ==> scope == S.AnalyzeSource(old(scope), source).value
    {
      r := VisitGlobals(source.globals);
      if r.Fail? {
        return;
      }
      var foundMain;
      r, foundMain := VisitFunctions(source.functions);
      if r.Fail? {
        return;
      }
      if !foundMain {
        return S.Fail(S.Rejected(S.MainNotFound));
      }
    }

    /** The global loop of visit(Source). */
    method VisitGlobals(globals: seq<Global>) returns (r: S.Outcome<()>)
      modifies this
      ensures r == S.AnalyzeGlobals(old(scope), globals, 0).Drop()
      ensures r.Ok? ==> scope == S.AnalyzeGlobals(old(scope), globals, 0).value
    {
      var i := 0;
      while i < |globals|
        invariant i <= |globals|
        invariant S.AnalyzeGlobals(old(scope), globals, 0) == S.AnalyzeGlobals(scope, globals, i)
      {
        r := VisitGlobal(globals[i]);
        if r.Fail? {
          return;
        }
        i := i + 1;
      }
      r := S.Ok(());
    }

    /** The function loop of visit(Source): whether a main was found, and that each main returns Integer. */
    method VisitFunctions(functions: seq<Function>) returns (r: S.Outcome<()>, foundMain: bool)
      modifies this
      ensures r == S.AnalyzeFunctions(old(scope), functions, 0, false).Drop()
      ensures r.Ok? ==> (scope, foundMain) == S.AnalyzeFunctions(old(scope), functions, 0, false).value
    {
      foundMain := false;
      var j := 0;
      while j < |functions|
        invariant j <= |functions|
        invariant S.AnalyzeFunctions(old(scope), functions, 0, false) == S.AnalyzeFunctions(scope, functions, j, foundMain)
      {
        var f := functions[j];
        r := VisitFunction(f);
        if r.Fail? {
          return;
        }
        if f.name == "main" && |f.parameters| == 0 {
          foundMain := true;
          if f.returnTypeName != Some("Integer") {
            return S.Fail(S.Rejected(S.MainNotInteger)), foundMain;
          }
        }
        j := j + 1;
      }
      r := S.Ok(());
    }
  }
}
