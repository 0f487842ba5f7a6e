/**
 * The syntax tree shared by the parser, the analyzer and the interpreter. Ast.java is
 * not part of this model: its node kinds are taken from the constructors and getters
 * that the core files call.
 */
module Ast {
  datatype Option<T> = None | Some(value: T)

  /** An exact decimal, the value unscaled / 10^scale (java.math.BigDecimal). */
  datatype Decimal = Decimal(unscaled: int, scale: nat)

  /** The Java object a Literal node holds. */
  datatype LitValue =
    | NilLit                // null
    | BoolLit(b: bool)      // Boolean
    | IntLit(i: int)        // BigInteger
    | DecLit(d: Decimal)    // BigDecimal
    | CharLit(c: char)      // Character
    | StrLit(s: string)     // String

  datatype Expr =
    | Literal(literal: LitValue)
    | Group(expression: Expr)
    | Binary(operator: string, left: Expr, right: Expr)
    | Access(offset: Option<Expr>, name: string)
    | Call(name: string, arguments: seq<Expr>)      // Ast.Expression.Function
    | PlcList(values: seq<Expr>)

  datatype Stmt =
    | Expression(expression: Expr)
    | Declaration(name: string, typeName: Option<string>, value: Option<Expr>)
    | Assignment(receiver: Expr, newValue: Expr)
    | If(condition: Expr, thenStatements: seq<Stmt>, elseStatements: ElseBlock)
    | Switch(condition: Expr, cases: seq<Case>)
    | While(condition: Expr, statements: seq<Stmt>)
    | Return(returned: Expr)

  /** The else list of an If: a Java null when the statement has no ELSE. */
  datatype ElseBlock = NoElse | Else(statements: seq<Stmt>)

  datatype Case = Case(value: Option<Expr>, statements: seq<Stmt>)

  datatype Global = Global(name: string, typeName: string, mutable: bool, value: Option<Expr>)

  datatype Function = Function(
    name: string, parameters: seq<string>, parameterTypeNames: seq<string>,
    returnTypeName: Option<string>, statements: seq<Stmt>)

  datatype Source = Source(globals: seq<Global>, functions: seq<Function>)
}
