/** The semantic analyzer of src/semantic_analyzer.py: every function is
    checked with a name-to-type table of its own, expression types are
    inferred bottom-up, and the first violation stops the whole analysis.
    Types are strings, as the source keeps them. */
module Semantics {
  import opened Results
  import opened Ast

  /** `SymbolTable.symbols`: the type recorded for every declared name. */
  type Scope = map<string, string>

  /** The `SemanticError`s the source raises, one per message. */
  datatype SemanticError =
    | AlreadyDeclared(name: string)
    | NotDeclared(name: string)
    | AssignMismatch(name: string)
    | BinaryMismatch(left: string, right: string)
    | ReturnMismatch(expected: string, got: string)

  /** The type every literal has, and hence the only type that ever gets
      recorded. */
  const IntType: string := "int"

  /** Every recorded type is `int`. */
  predicate AllInt(scope: Scope) {
    forall n :: n in scope ==> scope[n] == IntType
  }

  /** The errors that can arise once every recorded type is `int`: an
      unbound name, or an `int` value returned where another type is
      declared. A repeated declaration and both type mismatches on values
      cannot happen. */
  predicate Reachable(e: SemanticError) {
    e.NotDeclared? || (e.ReturnMismatch? && e.got == IntType && e.expected != IntType)
  }

  /** `declare`: refuse a bound name, otherwise bind it and change nothing
      else. */
  function Declare(scope: Scope, name: string, ty: string): (r: Result<Scope, SemanticError>)
    ensures r.Success? <==> name !in scope
    ensures r.Failure? ==> r.error == AlreadyDeclared(name)
    ensures r.Success? ==> r.value.Keys == scope.Keys + {name} && r.value[name] == ty
    ensures r.Success? ==> forall n :: n in scope ==> r.value[n] == scope[n]
  {
    if name in scope then Failure(AlreadyDeclared(name)) else Success(scope[name := ty])
  }

  /** `assign`: the name must be bound, to the same type; the table is
      handed back unchanged. */
  function Assign(scope: Scope, name: string, ty: string): (r: Result<Scope, SemanticError>)
    ensures r.Success? <==> name in scope && scope[name] == ty
    ensures r.Success? ==> r.value == scope
    ensures name !in scope ==> r == Failure(NotDeclared(name))
    ensures name in scope && scope[name] != ty ==> r == Failure(AssignMismatch(name))
  {
    if name !in scope then Failure(NotDeclared(name))
    else if scope[name] != ty then Failure(AssignMismatch(name))
    else Success(scope)
  }

  /** `lookup`: the recorded type of a bound name. */
  function Lookup(scope: Scope, name: string): (r: Result<string, SemanticError>)
    ensures r.Success? <==> name in scope
    ensures r.Success? ==> r.value == scope[name]
    ensures r.Failure? ==> r.error == NotDeclared(name)
  {
    if name !in scope then Failure(NotDeclared(name)) else Success(scope[name])
  }

  /** The names the expression reads, left to right: the order in which
      `visit_expr` looks them up. */
  function Reads(e: Expr): seq<string> {
    match e
    case Number(_) => []
    case Var(name) => [name]
    case BinaryOp(_, l, r) => Reads(l) + Reads(r)
  }

  /** The expression contains a literal. */
  predicate HasNumber(e: Expr) {
    match e
    case Number(_) => true
    case Var(_) => false
    case BinaryOp(_, l, r) => HasNumber(l) || HasNumber(r)
  }

  /** `visit_expr`: literals are `int`, names have their recorded type, and
      an operator node needs equal operand types and has that type, whatever
      the operator. The left operand is checked first. */
  function ExprType(e: Expr, scope: Scope): (r: Result<string, SemanticError>)
    ensures r.Success? ==> forall v :: v in Reads(e) ==> v in scope && scope[v] == r.value
    ensures r.Success? && HasNumber(e) ==> r.value == IntType
    ensures AllInt(scope) ==> (r.Success? ==> r.value == IntType) && (r.Failure? ==> r.error.NotDeclared?)
  {
    match e
    case Number(_) => Success(IntType)
    case Var(name) => Lookup(scope, name)
    case BinaryOp(_, l, r) =>
      var lt :- ExprType(l, scope);
      var rt :- ExprType(r, scope);
      if lt != rt then Failure(BinaryMismatch(lt, rt)) else Success(lt)
  }

  /** Every binding of `small` is in `big` with the same type. */
  predicate Extends(big: Scope, small: Scope) {
    forall n :: n in small ==> n in big && big[n] == small[n]
  }

  /** `visit_stmt`: an assignment declares a new name with the value's type
      or needs an equal type for a bound one; `return` needs the declared
      return type exactly; `print` needs only a well-typed value. The table
      only grows, by the assigned name at most. */
  function CheckStmt(s: Stmt, scope: Scope, expected: string): (r: Result<Scope, SemanticError>)
    ensures r.Success? ==> Extends(r.value, scope)
    ensures r.Success? ==> r.value.Keys == scope.Keys + (if s.VarAssign? then {s.name} else {})
    ensures AllInt(scope) && r.Success? ==> AllInt(r.value)
    ensures AllInt(scope) && r.Failure? ==> Reachable(r.error) && (r.error.ReturnMismatch? ==> r.error.expected == expected)
  {
    match s
    case VarAssign(name, value) =>
      var ty :- ExprType(value, scope);
      if name !in scope then Declare(scope, name, ty) else Assign(scope, name, ty)
    case ReturnStmt(value) =>
      var ty :- ExprType(value, scope);
      if ty != expected then Failure(ReturnMismatch(expected, ty)) else Success(scope)
    case PrintStmt(value) =>
      var _ :- ExprType(value, scope);
      Success(scope)
  }

  /** The loop of `visit_function`: statements in order on one table,
      stopping at the first error. */
  function CheckBody(ss: seq<Stmt>, scope: Scope, expected: string): (r: Result<Scope, SemanticError>)
    ensures r.Success? ==> Extends(r.value, scope)
    ensures AllInt(scope) && r.Success? ==> AllInt(r.value)
    ensures AllInt(scope) && r.Failure? ==> Reachable(r.error) && (r.error.ReturnMismatch? ==> r.error.expected == expected)
    decreases |ss|
  {
    if ss == [] then Success(scope)
    else
      var next :- CheckStmt(ss[0], scope, expected);
      CheckBody(ss[1..], next, expected)
  }

  /** `visit_function`: the body on a fresh, empty table; the parameters are
      never entered. */
  function CheckFunction(f: Function): (r: Outcome<SemanticError>)
    ensures r.Fail? ==> Reachable(r.error) && (r.error.ReturnMismatch? ==> r.error.expected == f.returnType)
  {
    match CheckBody(f.body, map[], f.returnType)
    case Success(_) => Pass
    case Failure(err) => Fail(err)
  }

  /** `analyze`: the functions in order, stopping at the first error. */
  function Analyze(p: Program): (r: Outcome<SemanticError>)
    ensures r.Fail? ==> Reachable(r.error)
  {
    AnalyzeFunctions(p.functions)
  }

  function AnalyzeFunctions(fs: seq<Function>): (r: Outcome<SemanticError>)
    ensures fs == [] ==> r.Pass?
    ensures r.Fail? ==> Reachable(r.error) && exists k :: 0 <= k < |fs| && CheckFunction(fs[k]) == r
    decreases |fs|
  {
    if fs == [] then Pass
    else
      :- CheckFunction(fs[0]);
      AnalyzeFunctions(fs[1..])
  }
}
