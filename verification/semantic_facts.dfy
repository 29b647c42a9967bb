/** What the semantic analyzer accepts, stated without running it. Since
    every literal is `int` and a fresh table is empty, every table the
    analyzer builds records `int` only; under that invariant a body passes
    exactly when each statement reads only names assigned by earlier
    statements and no `return` meets a function declared with another
    return type. */
module SemanticFacts {
  import opened Results
  import opened Ast
  import opened Semantics

  /** The first name of `vs` that is not in `known`. */
  function FirstMissing(vs: seq<string>, known: set<string>): (r: Option<string>)
    ensures r == None <==> forall v :: v in vs ==> v in known
    ensures r.Some? ==> r.value in vs && r.value !in known
    decreases |vs|
  {
    if vs == [] then None
    else if vs[0] !in known then Some(vs[0])
    else FirstMissing(vs[1..], known)
  }

  /** The names a statement introduces. */
  function AssignedBy(s: Stmt): set<string> {
    if s.VarAssign? then {s.name} else {}
  }

  /** The names a sequence of statements assigns. */
  function Assigned(ss: seq<Stmt>): set<string>
    decreases |ss|
  {
    if ss == [] then {} else AssignedBy(ss[0]) + Assigned(ss[1..])
  }

  /** A statement is acceptable once `known` names are bound to `int`. */
  predicate StmtOk(s: Stmt, known: set<string>, expected: string) {
    (forall v :: v in Reads(s.value) ==> v in known) && (s.ReturnStmt? ==> expected == IntType)
  }

  /** Declaration before use: statement k reads only names bound on entry or
      assigned by statements 0..k-1, and every `return` agrees with an `int`
      return type. */
  predicate BodyOk(ss: seq<Stmt>, known: set<string>, expected: string) {
    forall k :: 0 <= k < |ss| ==> StmtOk(ss[k], known + Assigned(ss[..k]), expected)
  }

  /** The table operations used together: a name declared once is found
      with its type, may be assigned that type again, and cannot be
      declared a second time. */
  lemma TableProtocol(scope: Scope, name: string, ty: string, other: string)
    requires name !in scope
    ensures Declare(scope, name, ty).Success?
    ensures Lookup(Declare(scope, name, ty).value, name) == Success(ty)
    ensures Assign(Declare(scope, name, ty).value, name, ty) == Success(Declare(scope, name, ty).value)
    ensures other != ty ==> Assign(Declare(scope, name, ty).value, name, other) == Failure(AssignMismatch(name))
    ensures Declare(Declare(scope, name, ty).value, name, other) == Failure(AlreadyDeclared(name))
  {
  }

  lemma {:induction false} FirstMissingAppend(a: seq<string>, b: seq<string>, known: set<string>)
    ensures FirstMissing(a + b, known) == if FirstMissing(a, known).Some? then FirstMissing(a, known) else FirstMissing(b, known)
    decreases |a|
  {
    if a == [] {
      assert a + b == b;
    } else {
      assert (a + b)[0] == a[0];
      assert (a + b)[1..] == a[1..] + b;
      FirstMissingAppend(a[1..], b, known);
    }
  }

  /** Typing in general: an expression has type `ty` exactly when every name
      it reads is bound to `ty` and, if it contains a literal, `ty` is
      `int`. The operators play no part. */
  lemma {:induction false} ExprTypeIff(e: Expr, scope: Scope, ty: string)
    ensures ExprType(e, scope) == Success(ty) <==>
      (forall v :: v in Reads(e) ==> v in scope && scope[v] == ty) && (HasNumber(e) ==> ty == IntType)
  {
    match e
    case Number(_) =>
    case Var(_) =>
    case BinaryOp(_, l, r) =>
      ExprTypeIff(l, scope, ty);
      ExprTypeIff(r, scope, ty);
      if (forall v :: v in Reads(e) ==> v in scope && scope[v] == ty) && (HasNumber(e) ==> ty == IntType) {
        assert ExprType(l, scope) == Success(ty);
        assert ExprType(r, scope) == Success(ty);
      }
  }

  /** Typing on an all-`int` table: the result is `int` unless a name is
      unbound, and then the error names the leftmost unbound read. No
      operand mismatch can arise. */
  lemma {:induction false} ExprTypeAllInt(e: Expr, scope: Scope)
    requires AllInt(scope)
    ensures ExprType(e, scope) ==
      match FirstMissing(Reads(e), scope.Keys)
      case None => Success(IntType)
      case Some(v) => Failure(NotDeclared(v))
  {
    match e
    case Number(_) =>
    case Var(_) =>
    case BinaryOp(_, l, r) =>
      ExprTypeAllInt(l, scope);
      ExprTypeAllInt(r, scope);
      FirstMissingAppend(Reads(l), Reads(r), scope.Keys);
  }

  /** One statement on an all-`int` table: when it passes, when it fails
      and with which error, and that the table stays all-`int`. */
  lemma StmtAllInt(s: Stmt, scope: Scope, expected: string)
    requires AllInt(scope)
    ensures CheckStmt(s, scope, expected).Success? <==> StmtOk(s, scope.Keys, expected)
    ensures CheckStmt(s, scope, expected).Success? ==> AllInt(CheckStmt(s, scope, expected).value)
    ensures CheckStmt(s, scope, expected).Failure? ==>
      CheckStmt(s, scope, expected).error ==
        match FirstMissing(Reads(s.value), scope.Keys)
        case Some(v) => NotDeclared(v)
        case None => ReturnMismatch(expected, IntType)
  {
    ExprTypeAllInt(s.value, scope);
  }

  lemma AssignedCons(ss: seq<Stmt>, k: nat)
    requires 0 <= k < |ss|
    ensures Assigned(ss[..k + 1]) == AssignedBy(ss[0]) + Assigned(ss[1..][..k])
  {
    assert ss[..k + 1][1..] == ss[1..][..k];
  }

  /** Declaration before use, unrolled by one statement. */
  lemma BodyOkCons(ss: seq<Stmt>, known: set<string>, expected: string)
    requires ss != []
    ensures BodyOk(ss, known, expected) <==>
      StmtOk(ss[0], known, expected) && BodyOk(ss[1..], known + AssignedBy(ss[0]), expected)
  {
    assert ss[..0] == [];
    forall k | 0 <= k < |ss| - 1
      ensures known + Assigned(ss[..k + 1]) == (known + AssignedBy(ss[0])) + Assigned(ss[1..][..k])
      ensures ss[k + 1] == ss[1..][k]
    {
      AssignedCons(ss, k);
    }
    if StmtOk(ss[0], known, expected) && BodyOk(ss[1..], known + AssignedBy(ss[0]), expected) {
      forall k | 0 <= k < |ss|
        ensures StmtOk(ss[k], known + Assigned(ss[..k]), expected)
      {
        if k > 0 {
          assert StmtOk(ss[1..][k - 1], (known + AssignedBy(ss[0])) + Assigned(ss[1..][..k - 1]), expected);
        }
      }
    }
  }

  /** A body on an all-`int` table passes exactly when it declares before
      use and returns only from `int` functions; the final table is all-`int`
      and binds exactly the names bound on entry and the assigned ones. */
  lemma {:induction false} BodyIff(ss: seq<Stmt>, scope: Scope, expected: string)
    requires AllInt(scope)
    ensures CheckBody(ss, scope, expected).Success? <==> BodyOk(ss, scope.Keys, expected)
    ensures CheckBody(ss, scope, expected).Success? ==>
      AllInt(CheckBody(ss, scope, expected).value) &&
      CheckBody(ss, scope, expected).value.Keys == scope.Keys + Assigned(ss)
    decreases |ss|
  {
    if ss != [] {
      StmtAllInt(ss[0], scope, expected);
      BodyOkCons(ss, scope.Keys, expected);
      var r := CheckStmt(ss[0], scope, expected);
      if r.Success? {
        assert r.value.Keys == scope.Keys + AssignedBy(ss[0]);
        BodyIff(ss[1..], r.value, expected);
      }
    }
  }

  /** Running a body is running a prefix and then the rest on the table the
      prefix leaves; an error in the prefix is the error of the whole. */
  lemma {:induction false} CheckBodySplit(ss: seq<Stmt>, scope: Scope, expected: string, k: nat)
    requires k <= |ss|
    ensures CheckBody(ss, scope, expected) ==
      match CheckBody(ss[..k], scope, expected)
      case Success(mid) => CheckBody(ss[k..], mid, expected)
      case Failure(e) => Failure(e)
    decreases k
  {
    if k == 0 {
      assert ss[..0] == [] && ss[0..] == ss;
    } else {
      assert ss[..k][0] == ss[0] && ss[..k][1..] == ss[1..][..k - 1] && ss[k..] == ss[1..][k - 1..];
      var r := CheckStmt(ss[0], scope, expected);
      if r.Success? {
        CheckBodySplit(ss[1..], r.value, expected, k - 1);
      }
    }
  }

  /** Statement `k` is the first to break declaration before use. */
  predicate FirstFailing(ss: seq<Stmt>, known: set<string>, expected: string, k: nat) {
    && k < |ss|
    && BodyOk(ss[..k], known, expected)
    && !StmtOk(ss[k], known + Assigned(ss[..k]), expected)
  }

  /** The first statement that breaks declaration before use decides the
      error of the whole body: its leftmost unbound read, or else the
      return type it cannot meet. Later statements play no part. */
  lemma BodyFirstError(ss: seq<Stmt>, scope: Scope, expected: string, k: nat)
    requires AllInt(scope) && FirstFailing(ss, scope.Keys, expected, k)
    ensures CheckBody(ss, scope, expected) == Failure(
      match FirstMissing(Reads(ss[k].value), scope.Keys + Assigned(ss[..k]))
      case Some(v) => NotDeclared(v)
      case None => ReturnMismatch(expected, IntType))
  {
    BodyIff(ss[..k], scope, expected);
    var mid := CheckBody(ss[..k], scope, expected).value;
    CheckBodySplit(ss, scope, expected, k);
    StmtAllInt(ss[k], mid, expected);
    assert ss[k..][0] == ss[k];
  }

  /** A failing body has such a first statement. */
  lemma BodyFailsAt(ss: seq<Stmt>, scope: Scope, expected: string)
    requires AllInt(scope) && CheckBody(ss, scope, expected).Failure?
    ensures exists k :: FirstFailing(ss, scope.Keys, expected, k)
  {
    BodyIff(ss, scope, expected);
    var k := 0;
    while k < |ss| && StmtOk(ss[k], scope.Keys + Assigned(ss[..k]), expected)
      invariant k <= |ss|
      invariant forall j :: 0 <= j < k ==> StmtOk(ss[j], scope.Keys + Assigned(ss[..j]), expected)
    {
      k := k + 1;
    }
    forall j | 0 <= j < k
      ensures StmtOk(ss[..k][j], scope.Keys + Assigned(ss[..k][..j]), expected)
    {
      assert ss[..k][j] == ss[j] && ss[..k][..j] == ss[..j];
    }
    assert FirstFailing(ss, scope.Keys, expected, k);
  }

  /** A function passes exactly when its body declares before use starting
      from nothing: parameters are never bound. */
  lemma FunctionIff(f: Function)
    ensures CheckFunction(f).Pass? <==> BodyOk(f.body, {}, f.returnType)
  {
    var empty: Scope := map[];
    BodyIff(f.body, empty, f.returnType);
    assert empty.Keys == {};
  }

  /** The parameter list has no influence on the verdict. */
  lemma ParamsIgnored(f: Function, ps: seq<Param>)
    ensures CheckFunction(f.(params := ps)) == CheckFunction(f)
  {
  }

  /** Reading a name that no earlier statement assigned fails the function,
      even when a later statement assigns it and even when it is a
      parameter. */
  lemma ReadBeforeAssignFails(f: Function, k: nat, v: string)
    requires k < |f.body|
    requires v in Reads(f.body[k].value) && v !in Assigned(f.body[..k])
    ensures CheckFunction(f).Fail?
  {
    FunctionIff(f);
    assert !StmtOk(f.body[k], {} + Assigned(f.body[..k]), f.returnType);
  }

  /** Since every value is `int`, a function declared with any other return
      type fails as soon as it has a `return` statement; when the statements
      before it pass and it reads only assigned names, it is the return
      itself that fails, with the declared type against `int`. */
  lemma NonIntReturnFails(f: Function, k: nat)
    requires k < |f.body| && f.body[k].ReturnStmt?
    requires f.returnType != IntType
    ensures CheckFunction(f).Fail?
    ensures BodyOk(f.body[..k], {}, f.returnType) && (forall v :: v in Reads(f.body[k].value) ==> v in Assigned(f.body[..k])) ==>
      CheckFunction(f) == Fail(ReturnMismatch(f.returnType, IntType))
  {
    FunctionIff(f);
    var empty: Scope := map[];
    assert empty.Keys == {};
    assert !StmtOk(f.body[k], empty.Keys + Assigned(f.body[..k]), f.returnType);
    if BodyOk(f.body[..k], {}, f.returnType) && (forall v :: v in Reads(f.body[k].value) ==> v in Assigned(f.body[..k])) {
      assert FirstFailing(f.body, empty.Keys, f.returnType, k);
      BodyFirstError(f.body, empty, f.returnType, k);
    }
  }

  /** The whole program passes exactly when every function passes; on
      failure the error is that of the first failing function, all earlier
      ones having passed. */
  lemma {:induction false} AnalyzeIff(fs: seq<Function>)
    ensures AnalyzeFunctions(fs).Pass? <==> forall k :: 0 <= k < |fs| ==> CheckFunction(fs[k]).Pass?
    ensures AnalyzeFunctions(fs).Fail? ==>
      exists k :: 0 <= k < |fs| && CheckFunction(fs[k]) == AnalyzeFunctions(fs) &&
        forall j :: 0 <= j < k ==> CheckFunction(fs[j]).Pass?
    decreases |fs|
  {
    if fs != [] {
      AnalyzeIff(fs[1..]);
      if CheckFunction(fs[0]).Pass? {
        assert forall k :: 0 < k < |fs| ==> fs[k] == fs[1..][k - 1];
        if AnalyzeFunctions(fs).Fail? {
          var k :| 0 <= k < |fs[1..]| && CheckFunction(fs[1..][k]) == AnalyzeFunctions(fs[1..]) &&
            forall j :: 0 <= j < k ==> CheckFunction(fs[1..][j]).Pass?;
          assert CheckFunction(fs[k + 1]) == AnalyzeFunctions(fs);
        }
      } else {
        assert CheckFunction(fs[0]) == AnalyzeFunctions(fs);
      }
    }
  }

  /** `fn main(): int { y = 1; return y; }`: the first assignment to a name
      declares it, so the body passes with no separate declaration. */
  lemma AssignmentDeclares()
    ensures CheckFunction(Function("main", [], "int", [VarAssign("y", Number("1")), ReturnStmt(Var("y"))])) == Pass
  {
  }

  /** `fn main(): bool { return 1; }`: the literal is `int`, which is not
      the declared return type. */
  lemma BoolReturnRefused()
    ensures CheckFunction(Function("main", [], "bool", [ReturnStmt(Number("1"))])) == Fail(ReturnMismatch("bool", "int"))
  {
  }

  /** `fn f(a, b): int { return a + b; }` with the parameters left out of
      the table: the first read fails. */
  lemma ParameterReadRefused()
    ensures CheckFunction(Function("f", [Param("a", "int"), Param("b", "int")], "int",
      [ReturnStmt(BinaryOp("+", Var("a"), Var("b")))])) == Fail(NotDeclared("a"))
  {
  }
}
