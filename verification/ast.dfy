/** The syntax tree the parser builds (the dataclasses of src/parser.py).
    Types are kept as the source keeps them: the spelling of a type token. */
module Ast {

  datatype Expr =
    | Number(value: string)
    | Var(name: string)
    | BinaryOp(op: string, left: Expr, right: Expr)

  datatype Stmt =
    | VarAssign(name: string, value: Expr)
    | ReturnStmt(value: Expr)
    | PrintStmt(value: Expr)

  datatype Param = Param(name: string, typeName: string)

  datatype Function = Function(name: string, params: seq<Param>, returnType: string, body: seq<Stmt>)

  datatype Program = Program(functions: seq<Function>)

  predicate IsAdditive(op: string) {
    op == "+" || op == "-"
  }

  predicate IsMultiplicative(op: string) {
    op == "*" || op == "/"
  }

  /** Every operator node of `e` is one of the four arithmetic operators. */
  predicate ArithOnly(e: Expr) {
    match e
    case Number(_) => true
    case Var(_) => true
    case BinaryOp(op, l, r) => (IsAdditive(op) || IsMultiplicative(op)) && ArithOnly(l) && ArithOnly(r)
  }

  predicate StmtArithOnly(s: Stmt) {
    ArithOnly(s.value)
  }

  predicate FunctionArithOnly(f: Function) {
    forall k :: 0 <= k < |f.body| ==> StmtArithOnly(f.body[k])
  }

  predicate ProgramArithOnly(p: Program) {
    forall k :: 0 <= k < |p.functions| ==> FunctionArithOnly(p.functions[k])
  }
}
