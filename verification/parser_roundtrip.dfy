/** The parser reads every printed tree back: `Parse(ProgramTokens(p)) ==
    Success(p)` for every program whose operators are the four arithmetic
    ones. The lemmas work on a token list `toks` that holds the printed
    tokens at a cursor, so that they compose inside larger inputs. */
module ParserRoundTrip {
  import opened Results
  import opened Ast
  import Lexer
  import opened Parser
  import opened Unparser

  /** `toks` holds `w` starting at `pos`. */
  predicate IsAt(toks: seq<Token>, pos: nat, w: seq<Token>)
    decreases |w|
  {
    pos + |w| <= |toks| && (|w| == 0 || (toks[pos] == w[0] && IsAt(toks, pos + 1, w[1..])))
  }

  /** The token at `q`, if any, does not continue a term. */
  predicate NotMulAt(toks: seq<Token>, q: nat)
    requires q <= |toks|
  {
    q == |toks| || !IsMultiplicative(toks[q].lexeme)
  }

  /** The token at `q`, if any, continues neither a term nor an expression. */
  predicate NotArithAt(toks: seq<Token>, q: nat)
    requires q <= |toks|
  {
    q == |toks| || (!IsAdditive(toks[q].lexeme) && !IsMultiplicative(toks[q].lexeme))
  }

  lemma {:induction false} IsAtAppend(toks: seq<Token>, pos: nat, a: seq<Token>, b: seq<Token>)
    requires IsAt(toks, pos, a + b)
    ensures IsAt(toks, pos, a) && IsAt(toks, pos + |a|, b)
    decreases |a|
  {
    if |a| == 0 {
      assert a + b == b;
    } else {
      assert (a + b)[0] == a[0];
      assert (a + b)[1..] == a[1..] + b;
      IsAtAppend(toks, pos + 1, a[1..], b);
    }
  }

  lemma {:induction false} IsAtJoin(toks: seq<Token>, pos: nat, a: seq<Token>, b: seq<Token>)
    requires IsAt(toks, pos, a) && IsAt(toks, pos + |a|, b)
    ensures IsAt(toks, pos, a + b)
    decreases |a|
  {
    if |a| == 0 {
      assert a + b == b;
    } else {
      assert (a + b)[0] == a[0];
      assert (a + b)[1..] == a[1..] + b;
      IsAtJoin(toks, pos + 1, a[1..], b);
    }
  }

  lemma {:induction false} IsAtSelf(toks: seq<Token>, pos: nat)
    requires pos <= |toks|
    ensures IsAt(toks, pos, toks[pos..])
    decreases |toks| - pos
  {
    if pos < |toks| {
      assert toks[pos..][1..] == toks[pos + 1..];
      IsAtSelf(toks, pos + 1);
    }
  }

  lemma {:induction false} IsAtGet(toks: seq<Token>, pos: nat, w: seq<Token>, k: nat)
    requires IsAt(toks, pos, w) && k < |w|
    ensures pos + k < |toks| && toks[pos + k] == w[k]
    decreases k
  {
    if k > 0 {
      IsAtGet(toks, pos + 1, w[1..], k - 1);
    }
  }

  lemma ConcatAssoc(a: seq<Token>, b: seq<Token>, c: seq<Token>, d: seq<Token>)
    ensures (a + b + c) + d == a + (b + (c + d))
  {
  }

  lemma IsAtHead(toks: seq<Token>, pos: nat, x: Token, b: seq<Token>)
    requires IsAt(toks, pos, [x] + b)
    ensures pos < |toks| && toks[pos] == x && IsAt(toks, pos + 1, b)
  {
    assert ([x] + b)[0] == x;
    assert ([x] + b)[1..] == b;
  }

  // ---------------------------------------------------------------------
  // One step of each expression rule, stated on its own so that the proofs
  // below never unfold more than one rule at a time.

  lemma FactorAtom(toks: seq<Token>, pos: nat)
    requires pos < |toks|
    requires toks[pos].kind == Lexer.Number || toks[pos].kind == Lexer.Ident
    ensures Factor(toks, pos) == Success((
      if toks[pos].kind == Lexer.Number then Number(toks[pos].lexeme) else Var(toks[pos].lexeme), pos + 1))
  {
  }

  lemma FactorParen(toks: seq<Token>, pos: nat, e: Expr, q: nat)
    requires pos < q < |toks|
    requires toks[pos].kind == Lexer.LParen && toks[q].kind == Lexer.RParen
    requires Expression(toks, pos + 1) == Success((e, q))
    ensures Factor(toks, pos) == Success((e, q + 1))
  {
    assert Expect(toks, q, Lexer.RParen) == Success((toks[q], q + 1));
  }

  lemma TermFromFactor(toks: seq<Token>, pos: nat, f: Expr, q: nat)
    requires pos < q <= |toks|
    requires Factor(toks, pos) == Success((f, q))
    ensures Term(toks, pos) == TermTail(toks, f, q)
  {
  }

  lemma ExprFromTerm(toks: seq<Token>, pos: nat, t: Expr, q: nat)
    requires pos < q <= |toks|
    requires Term(toks, pos) == Success((t, q))
    ensures Expression(toks, pos) == ExprTail(toks, t, q)
  {
  }

  lemma TermTailStep(toks: seq<Token>, left: Expr, q: nat, right: Expr, n: nat)
    requires q < |toks| && IsMultiplicative(toks[q].lexeme) && q < n <= |toks|
    requires Factor(toks, q + 1) == Success((right, n))
    ensures TermTail(toks, left, q) == TermTail(toks, BinaryOp(toks[q].lexeme, left, right), n)
  {
  }

  lemma TermTailStop(toks: seq<Token>, left: Expr, q: nat)
    requires q <= |toks| && NotMulAt(toks, q)
    ensures TermTail(toks, left, q) == Success((left, q))
  {
  }

  lemma ExprTailStep(toks: seq<Token>, left: Expr, q: nat, right: Expr, n: nat)
    requires q < |toks| && IsAdditive(toks[q].lexeme) && q < n <= |toks|
    requires Term(toks, q + 1) == Success((right, n))
    ensures ExprTail(toks, left, q) == ExprTail(toks, BinaryOp(toks[q].lexeme, left, right), n)
  {
  }

  lemma ExprTailStop(toks: seq<Token>, left: Expr, q: nat)
    requires q <= |toks| && (q == |toks| || !IsAdditive(toks[q].lexeme))
    ensures ExprTail(toks, left, q) == Success((left, q))
  {
  }

  lemma AddShape(e: Expr)
    requires IsAddNode(e)
    ensures ExprTokens(e) == ExprTokens(e.left) + ([Tok(Lexer.Op, e.op)] + TermTokens(e.right))
  {
  }

  lemma MulShape(e: Expr)
    requires IsMulNode(e)
    ensures TermTokens(e) == TermTokens(e.left) + ([Tok(Lexer.Op, e.op)] + FactorTokens(e.right))
  {
  }

  lemma ParenShape(e: Expr)
    requires e.BinaryOp?
    ensures FactorTokens(e) == [LParenTok] + (ExprTokens(e) + [RParenTok])
  {
  }

  /** Where the operands of a printed additive node sit: the left operand
      at `pos`, the operator token after it, the right operand after that. */
  lemma AddSplit(toks: seq<Token>, pos: nat, e: Expr)
    requires IsAddNode(e)
    requires IsAt(toks, pos, ExprTokens(e))
    ensures |ExprTokens(e)| == |ExprTokens(e.left)| + 1 + |TermTokens(e.right)|
    ensures IsAt(toks, pos, ExprTokens(e.left))
    ensures pos + |ExprTokens(e.left)| < |toks| && toks[pos + |ExprTokens(e.left)|] == Tok(Lexer.Op, e.op)
    ensures IsAt(toks, pos + |ExprTokens(e.left)| + 1, TermTokens(e.right))
  {
    AddShape(e);
    hide ExprTokens, TermTokens, IsAt;
    var a := ExprTokens(e.left);
    var b := TermTokens(e.right);
    IsAtAppend(toks, pos, a, [Tok(Lexer.Op, e.op)] + b);
    IsAtHead(toks, pos + |a|, Tok(Lexer.Op, e.op), b);
  }

  /** The same for a multiplicative node printed as a term. */
  lemma MulSplit(toks: seq<Token>, pos: nat, e: Expr)
    requires IsMulNode(e)
    requires IsAt(toks, pos, TermTokens(e))
    ensures |TermTokens(e)| == |TermTokens(e.left)| + 1 + |FactorTokens(e.right)|
    ensures IsAt(toks, pos, TermTokens(e.left))
    ensures pos + |TermTokens(e.left)| < |toks| && toks[pos + |TermTokens(e.left)|] == Tok(Lexer.Op, e.op)
    ensures IsAt(toks, pos + |TermTokens(e.left)| + 1, FactorTokens(e.right))
  {
    MulShape(e);
    hide TermTokens, FactorTokens, IsAt;
    var a := TermTokens(e.left);
    var b := FactorTokens(e.right);
    IsAtAppend(toks, pos, a, [Tok(Lexer.Op, e.op)] + b);
    IsAtHead(toks, pos + |a|, Tok(Lexer.Op, e.op), b);
  }

  /** Where the inside of a parenthesized operator node sits. */
  lemma ParenSplit(toks: seq<Token>, pos: nat, e: Expr)
    requires e.BinaryOp?
    requires IsAt(toks, pos, FactorTokens(e))
    ensures |FactorTokens(e)| == |ExprTokens(e)| + 2
    ensures pos + 1 + |ExprTokens(e)| < |toks|
    ensures toks[pos] == LParenTok && toks[pos + 1 + |ExprTokens(e)|] == RParenTok
    ensures IsAt(toks, pos + 1, ExprTokens(e))
  {
    ParenShape(e);
    hide ExprTokens, FactorTokens, IsAt;
    var inner := ExprTokens(e);
    IsAtHead(toks, pos, LParenTok, inner + [RParenTok]);
    IsAtAppend(toks, pos + 1, inner, [RParenTok]);
    IsAtGet(toks, pos + 1 + |inner|, [RParenTok], 0);
  }

  /** A printed atom is one token, at every level. */
  lemma AtomSplit(toks: seq<Token>, pos: nat, e: Expr)
    requires !e.BinaryOp?
    requires IsAt(toks, pos, ExprTokens(e)) || IsAt(toks, pos, TermTokens(e)) || IsAt(toks, pos, FactorTokens(e))
    ensures |ExprTokens(e)| == |TermTokens(e)| == |FactorTokens(e)| == 1
    ensures pos < |toks| && Factor(toks, pos) == Success((e, pos + 1))
  {
    assert ExprTokens(e) == TermTokens(e) == FactorTokens(e) == [AtomToken(e)];
    FactorAtom(toks, pos);
  }

  /** A multiplicative node prints the same as an expression and as a term. */
  lemma MulTokens(e: Expr)
    requires IsMulNode(e)
    ensures ExprTokens(e) == TermTokens(e)
  {
  }

  /** An additive node prints the same as a term and as a factor. */
  lemma AddTokens(e: Expr)
    requires IsAddNode(e)
    ensures TermTokens(e) == FactorTokens(e)
  {
  }

  lemma AddNotMul(op: string)
    requires IsAdditive(op)
    ensures !IsMultiplicative(op)
  {
  }

  /** The parser's side of an additive node: the left operand parsed as an
      expression, the right one as a term, then one more loop iteration. */
  lemma AddStep(toks: seq<Token>, pos: nat, e: Expr, q: nat, n: nat)
    requires IsAddNode(e) && pos < q < n <= |toks|
    requires toks[q] == Tok(Lexer.Op, e.op)
    requires NotMulAt(toks, n)
    requires Expression(toks, pos) == ExprTail(toks, e.left, q)
    requires Term(toks, q + 1) == TermTail(toks, e.right, n)
    ensures Expression(toks, pos) == ExprTail(toks, e, n)
  {
    TermTailStop(toks, e.right, n);
    ExprTailStep(toks, e.left, q, e.right, n);
  }

  /** The parser's side of a multiplicative node. */
  lemma MulStep(toks: seq<Token>, pos: nat, e: Expr, q: nat, n: nat)
    requires IsMulNode(e) && ArithOnly(e) && pos < q < n <= |toks|
    requires toks[q] == Tok(Lexer.Op, e.op)
    requires Term(toks, pos) == TermTail(toks, e.left, q)
    requires Factor(toks, q + 1) == Success((e.right, n))
    ensures Term(toks, pos) == TermTail(toks, e, n)
  {
    TermTailStep(toks, e.left, q, e.right, n);
  }

  /** The parser's side of a parenthesized node. */
  lemma ParenStep(toks: seq<Token>, pos: nat, e: Expr, q: nat)
    requires pos < q < |toks|
    requires toks[pos] == LParenTok && toks[q] == RParenTok
    requires Expression(toks, pos + 1) == ExprTail(toks, e, q)
    ensures Factor(toks, pos) == Success((e, q + 1))
  {
    ExprTailStop(toks, e, q);
    FactorParen(toks, pos, e, q);
  }

  /** An expression that is a single term. */
  lemma TermStep(toks: seq<Token>, pos: nat, e: Expr, n: nat)
    requires pos < n <= |toks| && NotMulAt(toks, n)
    requires Term(toks, pos) == TermTail(toks, e, n)
    ensures Expression(toks, pos) == ExprTail(toks, e, n)
  {
    TermTailStop(toks, e, n);
    ExprFromTerm(toks, pos, e, n);
  }

  // ---------------------------------------------------------------------
  // Expressions. The three lemmas follow the printer's levels; an operator
  // node is handed between levels without shrinking, so the measure adds a
  // rank that depends on the node's kind. `end` is where the printed tokens
  // stop.

  lemma {:induction false} ExprAt(toks: seq<Token>, pos: nat, e: Expr, end: nat)
    requires ArithOnly(e)
    requires IsAt(toks, pos, ExprTokens(e)) && end == pos + |ExprTokens(e)|
    requires NotMulAt(toks, end)
    ensures Expression(toks, pos) == ExprTail(toks, e, end)
    decreases e, if IsMulNode(e) then 1 else 0
  {
    hide Expression, ExprTail, Term, TermTail, Factor;
    if !e.BinaryOp? {
      AtomSplit(toks, pos, e);
      TermFromFactor(toks, pos, e, end);
      TermStep(toks, pos, e, end);
    } else if IsAdditive(e.op) {
      AddSplit(toks, pos, e);
      var q := pos + |ExprTokens(e.left)|;
      AddNotMul(e.op);
      ExprAt(toks, pos, e.left, q);
      TermAt(toks, q + 1, e.right, end);
      AddStep(toks, pos, e, q, end);
    } else {
      MulTokens(e);
      TermAt(toks, pos, e, end);
      TermStep(toks, pos, e, end);
    }
  }

  lemma {:induction false} TermAt(toks: seq<Token>, pos: nat, e: Expr, end: nat)
    requires ArithOnly(e)
    requires IsAt(toks, pos, TermTokens(e)) && end == pos + |TermTokens(e)|
    ensures Term(toks, pos) == TermTail(toks, e, end)
    decreases e, if IsAddNode(e) then 2 else 0
  {
    hide Expression, ExprTail, Term, TermTail, Factor, IsAt;
    if !e.BinaryOp? {
      AtomSplit(toks, pos, e);
      TermFromFactor(toks, pos, e, end);
    } else if IsAdditive(e.op) {
      AddTokens(e);
      FactorAt(toks, pos, e, end);
      TermFromFactor(toks, pos, e, end);
    } else {
      MulSplit(toks, pos, e);
      var q := pos + |TermTokens(e.left)|;
      TermAt(toks, pos, e.left, q);
      FactorAt(toks, q + 1, e.right, end);
      MulStep(toks, pos, e, q, end);
    }
  }

  lemma {:induction false} FactorAt(toks: seq<Token>, pos: nat, e: Expr, end: nat)
    requires ArithOnly(e)
    requires IsAt(toks, pos, FactorTokens(e)) && end == pos + |FactorTokens(e)|
    ensures Factor(toks, pos) == Success((e, end))
    decreases e, if IsAddNode(e) then 1 else if IsMulNode(e) then 2 else 0
  {
    hide Expression, ExprTail, Term, TermTail, Factor, IsAt;
    if !e.BinaryOp? {
      AtomSplit(toks, pos, e);
    } else {
      ParenSplit(toks, pos, e);
      var q := pos + 1 + |ExprTokens(e)|;
      ExprAt(toks, pos + 1, e, q);
      ParenStep(toks, pos, e, q);
    }
  }

  /** A printed expression followed by a token that continues no level is
      read back exactly, consuming just its own tokens. */
  lemma ExpressionRoundTrip(toks: seq<Token>, pos: nat, e: Expr)
    requires ArithOnly(e)
    requires IsAt(toks, pos, ExprTokens(e))
    requires NotArithAt(toks, pos + |ExprTokens(e)|)
    ensures Expression(toks, pos) == Success((e, pos + |ExprTokens(e)|))
  {
    var end := pos + |ExprTokens(e)|;
    ExprAt(toks, pos, e, end);
    ExprTailStop(toks, e, end);
  }

  // ---------------------------------------------------------------------
  // Statements and blocks. Each printed layout is split into its pieces by
  // a lemma of its own, and each parser rule is stepped over by another, so
  // that the round-trip proofs only put the pieces together.

  /** The statement rule picks its branch by the kind of the first token. */
  lemma StatementIsReturn(toks: seq<Token>, pos: nat, r: Parsed<Stmt>)
    requires pos < |toks| && toks[pos].kind == Lexer.Return
    requires ReturnStatement(toks, pos + 1) == r
    ensures Statement(toks, pos) == r
  {
  }

  lemma StatementIsPrint(toks: seq<Token>, pos: nat, r: Parsed<Stmt>)
    requires pos < |toks| && toks[pos].kind == Lexer.Print
    requires PrintStatement(toks, pos + 1) == r
    ensures Statement(toks, pos) == r
  {
  }

  lemma StatementIsAssign(toks: seq<Token>, pos: nat, r: Parsed<Stmt>)
    requires pos < |toks| && toks[pos].kind == Lexer.Ident
    requires AssignStatement(toks, toks[pos].lexeme, pos + 1) == r
    ensures Statement(toks, pos) == r
  {
  }

  lemma ReturnStep(toks: seq<Token>, pos: nat, value: Expr, q: nat)
    requires pos < q < |toks| && toks[q].kind == Lexer.Semicolon
    requires Expression(toks, pos) == Success((value, q))
    ensures ReturnStatement(toks, pos) == Success((ReturnStmt(value), q + 1))
  {
    assert Expect(toks, q, Lexer.Semicolon) == Success((toks[q], q + 1));
  }

  lemma PrintStep(toks: seq<Token>, pos: nat, value: Expr, q: nat)
    requires pos < q && q + 1 < |toks|
    requires toks[pos].kind == Lexer.LParen && toks[q].kind == Lexer.RParen && toks[q + 1].kind == Lexer.Semicolon
    requires Expression(toks, pos + 1) == Success((value, q))
    ensures PrintStatement(toks, pos) == Success((PrintStmt(value), q + 2))
  {
    assert Expect(toks, pos, Lexer.LParen) == Success((toks[pos], pos + 1));
    assert Expect(toks, q, Lexer.RParen) == Success((toks[q], q + 1));
    assert Expect(toks, q + 1, Lexer.Semicolon) == Success((toks[q + 1], q + 2));
  }

  lemma AssignStep(toks: seq<Token>, name: string, pos: nat, value: Expr, q: nat)
    requires pos < q < |toks|
    requires toks[pos].kind == Lexer.Op && toks[q].kind == Lexer.Semicolon
    requires Expression(toks, pos + 1) == Success((value, q))
    ensures AssignStatement(toks, name, pos) == Success((VarAssign(name, value), q + 1))
  {
    assert Expect(toks, pos, Lexer.Op) == Success((toks[pos], pos + 1));
    assert Expect(toks, q, Lexer.Semicolon) == Success((toks[q], q + 1));
  }

  /** The printed statement layouts, each a head token, the rest of the
      statement, and so on. */
  lemma StmtShape(s: Stmt)
    ensures s.ReturnStmt? ==> StmtTokens(s) == [Tok(Lexer.Return, "return")] + (ExprTokens(s.value) + [SemicolonTok])
    ensures s.PrintStmt? ==>
      StmtTokens(s) == [Tok(Lexer.Print, "print")] + ([LParenTok] + (ExprTokens(s.value) + [RParenTok, SemicolonTok]))
  {
  }

  lemma AssignShape(name: string, op: string, value: Expr)
    ensures AssignTokens(name, op, value)
         == [Tok(Lexer.Ident, name)] + ([Tok(Lexer.Op, op)] + (ExprTokens(value) + [SemicolonTok]))
  {
  }

  /** Where the pieces of a printed `return` statement sit. */
  lemma ReturnSplit(toks: seq<Token>, pos: nat, value: Expr)
    requires IsAt(toks, pos, StmtTokens(ReturnStmt(value)))
    ensures |StmtTokens(ReturnStmt(value))| == |ExprTokens(value)| + 2
    ensures pos + 1 + |ExprTokens(value)| < |toks|
    ensures toks[pos].kind == Lexer.Return && toks[pos + 1 + |ExprTokens(value)|] == SemicolonTok
    ensures IsAt(toks, pos + 1, ExprTokens(value))
  {
    StmtShape(ReturnStmt(value));
    hide StmtTokens, ExprTokens, IsAt;
    var ev := ExprTokens(value);
    var kw := Tok(Lexer.Return, "return");
    IsAtHead(toks, pos, kw, ev + [SemicolonTok]);
    IsAtAppend(toks, pos + 1, ev, [SemicolonTok]);
    IsAtGet(toks, pos + 1 + |ev|, [SemicolonTok], 0);
  }

  /** Where the pieces of a printed `print` statement sit. */
  lemma PrintSplit(toks: seq<Token>, pos: nat, value: Expr)
    requires IsAt(toks, pos, StmtTokens(PrintStmt(value)))
    ensures |StmtTokens(PrintStmt(value))| == |ExprTokens(value)| + 4
    ensures pos + 3 + |ExprTokens(value)| < |toks|
    ensures toks[pos].kind == Lexer.Print && toks[pos + 1] == LParenTok
    ensures toks[pos + 2 + |ExprTokens(value)|] == RParenTok && toks[pos + 3 + |ExprTokens(value)|] == SemicolonTok
    ensures IsAt(toks, pos + 2, ExprTokens(value))
  {
    StmtShape(PrintStmt(value));
    hide StmtTokens, ExprTokens, IsAt;
    var ev := ExprTokens(value);
    var kw := Tok(Lexer.Print, "print");
    IsAtHead(toks, pos, kw, [LParenTok] + (ev + [RParenTok, SemicolonTok]));
    IsAtHead(toks, pos + 1, LParenTok, ev + [RParenTok, SemicolonTok]);
    IsAtAppend(toks, pos + 2, ev, [RParenTok, SemicolonTok]);
    IsAtGet(toks, pos + 2 + |ev|, [RParenTok, SemicolonTok], 0);
    IsAtGet(toks, pos + 2 + |ev|, [RParenTok, SemicolonTok], 1);
  }

  /** Where the pieces of a printed assignment sit. */
  lemma AssignSplit(toks: seq<Token>, pos: nat, name: string, op: string, value: Expr)
    requires IsAt(toks, pos, AssignTokens(name, op, value))
    ensures |AssignTokens(name, op, value)| == |ExprTokens(value)| + 3
    ensures pos + 2 + |ExprTokens(value)| < |toks|
    ensures toks[pos] == Tok(Lexer.Ident, name) && toks[pos + 1] == Tok(Lexer.Op, op)
    ensures toks[pos + 2 + |ExprTokens(value)|] == SemicolonTok
    ensures IsAt(toks, pos + 2, ExprTokens(value))
  {
    AssignShape(name, op, value);
    hide AssignTokens, ExprTokens, IsAt;
    var ev := ExprTokens(value);
    IsAtHead(toks, pos, Tok(Lexer.Ident, name), [Tok(Lexer.Op, op)] + (ev + [SemicolonTok]));
    IsAtHead(toks, pos + 1, Tok(Lexer.Op, op), ev + [SemicolonTok]);
    IsAtAppend(toks, pos + 2, ev, [SemicolonTok]);
    IsAtGet(toks, pos + 2 + |ev|, [SemicolonTok], 0);
  }

  /** An assignment statement is read back whatever operator token it is
      written with. */
  lemma AssignRoundTrip(toks: seq<Token>, pos: nat, name: string, op: string, value: Expr)
    requires ArithOnly(value)
    requires IsAt(toks, pos, AssignTokens(name, op, value))
    ensures Statement(toks, pos) == Success((VarAssign(name, value), pos + |AssignTokens(name, op, value)|))
  {
    hide Statement, ReturnStatement, PrintStatement, AssignStatement, Expression, IsAt, AssignTokens;
    AssignSplit(toks, pos, name, op, value);
    var q := pos + 2 + |ExprTokens(value)|;
    ExpressionRoundTrip(toks, pos + 2, value);
    AssignStep(toks, name, pos + 1, value, q);
    StatementIsAssign(toks, pos, Success((VarAssign(name, value), q + 1)));
    assert pos + |AssignTokens(name, op, value)| == q + 1;
  }

  lemma ReturnRoundTrip(toks: seq<Token>, pos: nat, value: Expr)
    requires ArithOnly(value)
    requires IsAt(toks, pos, StmtTokens(ReturnStmt(value)))
    ensures Statement(toks, pos) == Success((ReturnStmt(value), pos + |StmtTokens(ReturnStmt(value))|))
  {
    hide Statement, ReturnStatement, PrintStatement, AssignStatement, Expression, IsAt, StmtTokens;
    ReturnSplit(toks, pos, value);
    var q := pos + 1 + |ExprTokens(value)|;
    ExpressionRoundTrip(toks, pos + 1, value);
    ReturnStep(toks, pos + 1, value, q);
    StatementIsReturn(toks, pos, Success((ReturnStmt(value), q + 1)));
    assert pos + |StmtTokens(ReturnStmt(value))| == q + 1;
  }

  lemma PrintRoundTrip(toks: seq<Token>, pos: nat, value: Expr)
    requires ArithOnly(value)
    requires IsAt(toks, pos, StmtTokens(PrintStmt(value)))
    ensures Statement(toks, pos) == Success((PrintStmt(value), pos + |StmtTokens(PrintStmt(value))|))
  {
    hide Statement, ReturnStatement, PrintStatement, AssignStatement, Expression, IsAt, StmtTokens;
    PrintSplit(toks, pos, value);
    var q := pos + 2 + |ExprTokens(value)|;
    ExpressionRoundTrip(toks, pos + 2, value);
    PrintStep(toks, pos + 1, value, q);
    StatementIsPrint(toks, pos, Success((PrintStmt(value), q + 2)));
    assert pos + |StmtTokens(PrintStmt(value))| == q + 2;
  }

  lemma StmtRoundTrip(toks: seq<Token>, pos: nat, s: Stmt)
    requires StmtArithOnly(s)
    requires IsAt(toks, pos, StmtTokens(s))
    ensures Statement(toks, pos) == Success((s, pos + |StmtTokens(s)|))
  {
    hide Statement, IsAt;
    match s
    case VarAssign(name, value) => AssignRoundTrip(toks, pos, name, "=", value);
    case ReturnStmt(value) => ReturnRoundTrip(toks, pos, value);
    case PrintStmt(value) => PrintRoundTrip(toks, pos, value);
  }

  /** One iteration of the block loop, and its exit. */
  lemma StatementsStep(toks: seq<Token>, pos: nat, s: Stmt, q: nat, rest: seq<Stmt>, end: nat)
    requires pos < q <= |toks| && toks[pos].kind != Lexer.RBrace
    requires Statement(toks, pos) == Success((s, q))
    requires Statements(toks, q) == Success((rest, end))
    ensures Statements(toks, pos) == Success(([s] + rest, end))
  {
  }

  lemma StatementsStop(toks: seq<Token>, pos: nat)
    requires pos < |toks| && toks[pos].kind == Lexer.RBrace
    ensures Statements(toks, pos) == Success(([], pos))
  {
  }

  /** Where the first statement of a printed body sits. */
  lemma BodySplit(toks: seq<Token>, pos: nat, ss: seq<Stmt>)
    requires ss != []
    requires IsAt(toks, pos, BodyTokens(ss) + [Tok(Lexer.RBrace, "}")])
    ensures |BodyTokens(ss)| == |StmtTokens(ss[0])| + |BodyTokens(ss[1..])|
    ensures pos < |toks| && toks[pos].kind != Lexer.RBrace
    ensures IsAt(toks, pos, StmtTokens(ss[0]))
    ensures IsAt(toks, pos + |StmtTokens(ss[0])|, BodyTokens(ss[1..]) + [Tok(Lexer.RBrace, "}")])
  {
    var close := Tok(Lexer.RBrace, "}");
    var a := StmtTokens(ss[0]);
    var b := BodyTokens(ss[1..]);
    ConcatAssoc3(a, b, [close]);
    IsAtAppend(toks, pos, a, b + [close]);
    assert a[0].kind != Lexer.RBrace;
    IsAtGet(toks, pos, a, 0);
  }

  lemma ConcatAssoc3(a: seq<Token>, b: seq<Token>, c: seq<Token>)
    ensures (a + b) + c == a + (b + c)
  {
  }

  lemma {:induction false} StatementsRoundTrip(toks: seq<Token>, pos: nat, ss: seq<Stmt>, end: nat)
    requires forall k :: 0 <= k < |ss| ==> StmtArithOnly(ss[k])
    requires IsAt(toks, pos, BodyTokens(ss) + [Tok(Lexer.RBrace, "}")]) && end == pos + |BodyTokens(ss)|
    ensures Statements(toks, pos) == Success((ss, end))
    decreases |ss|, 1
  {
    if ss == [] {
      assert BodyTokens(ss) + [Tok(Lexer.RBrace, "}")] == [Tok(Lexer.RBrace, "}")];
      IsAtGet(toks, pos, [Tok(Lexer.RBrace, "}")], 0);
      StatementsStop(toks, pos);
    } else {
      StatementsConsRoundTrip(toks, pos, ss, end);
    }
  }

  /** The step of `StatementsRoundTrip` for a non-empty body: the first
      statement is read back, then the rest. */
  lemma {:induction false} StatementsConsRoundTrip(toks: seq<Token>, pos: nat, ss: seq<Stmt>, end: nat)
    requires ss != []
    requires forall k :: 0 <= k < |ss| ==> StmtArithOnly(ss[k])
    requires IsAt(toks, pos, BodyTokens(ss) + [Tok(Lexer.RBrace, "}")]) && end == pos + |BodyTokens(ss)|
    ensures Statements(toks, pos) == Success((ss, end))
    decreases |ss|, 0
  {
    hide *;
    BodySplit(toks, pos, ss);
    var q := pos + |StmtTokens(ss[0])|;
    StmtRoundTrip(toks, pos, ss[0]);
    StatementsRoundTrip(toks, q, ss[1..], end);
    StatementsStep(toks, pos, ss[0], q, ss[1..], end);
    assert [ss[0]] + ss[1..] == ss;
  }

  // ---------------------------------------------------------------------
  // Parameters, functions, programs

  /** The three tokens of a printed parameter, one by one. */
  lemma ParamAt(toks: seq<Token>, pos: nat, p: Param)
    requires IsAt(toks, pos, ParamTokens(p))
    ensures Expect(toks, pos, Lexer.Ident) == Success((Tok(Lexer.Ident, p.name), pos + 1))
    ensures Expect(toks, pos + 1, Lexer.Colon) == Success((Tok(Lexer.Colon, ":"), pos + 2))
    ensures Expect(toks, pos + 2, Lexer.Ident) == Success((Tok(Lexer.Ident, p.typeName), pos + 3))
  {
    IsAtGet(toks, pos, ParamTokens(p), 0);
    IsAtGet(toks, pos, ParamTokens(p), 1);
    IsAtGet(toks, pos, ParamTokens(p), 2);
  }

  /** The parameter rule on one printed parameter, followed by a comma (and
      more parameters) or by anything else. */
  lemma ParamStep(toks: seq<Token>, pos: nat, p: Param)
    requires IsAt(toks, pos, ParamTokens(p)) && pos + 3 < |toks|
    ensures toks[pos + 3].kind != Lexer.Comma ==> Params(toks, pos) == Success(([p], pos + 3))
    ensures toks[pos + 3].kind == Lexer.Comma ==>
      Params(toks, pos) == (var rest :- Params(toks, pos + 4); Success(([p] + rest.0, rest.1)))
  {
    ParamAt(toks, pos, p);
  }

  lemma ParamsShape(ps: seq<Param>, close: Token)
    requires |ps| > 1
    ensures ParamsTokens(ps) + [close]
      == ParamTokens(ps[0]) + ([Tok(Lexer.Comma, ",")] + (ParamsTokens(ps[1..]) + [close]))
  {
    ConcatAssoc(ParamTokens(ps[0]), [Tok(Lexer.Comma, ",")], ParamsTokens(ps[1..]), [close]);
  }

  lemma {:induction false} ParamsRoundTrip(toks: seq<Token>, pos: nat, ps: seq<Param>, end: nat)
    requires ps != []
    requires IsAt(toks, pos, ParamsTokens(ps) + [RParenTok]) && end == pos + |ParamsTokens(ps)|
    ensures Params(toks, pos) == Success((ps, end))
    decreases |ps|, 1
  {
    if |ps| == 1 {
      var p := ps[0];
      var a := ParamTokens(p);
      assert ParamsTokens(ps) == a;
      IsAtAppend(toks, pos, a, [RParenTok]);
      IsAtGet(toks, pos + 3, [RParenTok], 0);
      ParamStep(toks, pos, p);
      assert [p] == ps;
    } else {
      ParamsConsRoundTrip(toks, pos, ps, end);
    }
  }

  /** The step of `ParamsRoundTrip` past a parameter and its comma. */
  lemma {:induction false} ParamsConsRoundTrip(toks: seq<Token>, pos: nat, ps: seq<Param>, end: nat)
    requires |ps| > 1
    requires IsAt(toks, pos, ParamsTokens(ps) + [RParenTok]) && end == pos + |ParamsTokens(ps)|
    ensures Params(toks, pos) == Success((ps, end))
    decreases |ps|, 0
  {
    hide Params, IsAt, ParamsTokens;
    var p := ps[0];
    var a := ParamTokens(p);
    var comma := Tok(Lexer.Comma, ",");
    var b := ParamsTokens(ps[1..]);
    ParamsShape(ps, RParenTok);
    IsAtAppend(toks, pos, a, [comma] + (b + [RParenTok]));
    IsAtHead(toks, pos + 3, comma, b + [RParenTok]);
    assert |ParamsTokens(ps)| == 4 + |b|;
    ParamsRoundTrip(toks, pos + 4, ps[1..], end);
    ParamStep(toks, pos, p);
    assert [p] + ps[1..] == ps;
  }

  /** The parameter list of a printed function, empty or not. */
  lemma ParamListRoundTrip(toks: seq<Token>, pos: nat, ps: seq<Param>, end: nat)
    requires IsAt(toks, pos, ParamsTokens(ps) + [RParenTok]) && end == pos + |ParamsTokens(ps)|
    ensures ParamList(toks, pos) == Success((ps, end))
  {
    if |ps| == 0 {
      assert ParamsTokens(ps) + [RParenTok] == [RParenTok];
      IsAtGet(toks, pos, [RParenTok], 0);
    } else {
      IsAtGet(toks, pos, ParamsTokens(ps) + [RParenTok], 0);
      assert ParamTokens(ps[0])[0] == (ParamsTokens(ps) + [RParenTok])[0];
      ParamsRoundTrip(toks, pos, ps, end);
    }
  }

  /** The pieces of a printed function: header, parameters, the tokens
      between them and the body, and the body up to the closing brace. */
  lemma FunctionShape(f: Function, retTok: Token)
    ensures FunctionTokensWith(f, retTok)
      == [Tok(Lexer.Fn, "fn"), Tok(Lexer.Ident, f.name), LParenTok]
       + (ParamsTokens(f.params)
       + ([RParenTok, Tok(Lexer.Colon, ":"), retTok, Tok(Lexer.LBrace, "{")]
       + (BodyTokens(f.body) + [Tok(Lexer.RBrace, "}")])))
  {
  }

  /** Where the pieces of a printed function sit in `toks`. */
  lemma FunctionSplit(toks: seq<Token>, pos: nat, f: Function, retTok: Token)
    requires IsAt(toks, pos, FunctionTokensWith(f, retTok))
    ensures |FunctionTokensWith(f, retTok)| == |ParamsTokens(f.params)| + |BodyTokens(f.body)| + 8
    ensures var m := pos + 3 + |ParamsTokens(f.params)|;
      && m + 4 <= |toks|
      && toks[pos] == Tok(Lexer.Fn, "fn")
      && toks[pos + 1] == Tok(Lexer.Ident, f.name)
      && toks[pos + 2] == LParenTok
      && IsAt(toks, pos + 3, ParamsTokens(f.params) + [RParenTok])
      && toks[m] == RParenTok
      && toks[m + 1] == Tok(Lexer.Colon, ":")
      && toks[m + 2] == retTok
      && toks[m + 3] == Tok(Lexer.LBrace, "{")
      && IsAt(toks, m + 4, BodyTokens(f.body) + [Tok(Lexer.RBrace, "}")])
  {
    var head := [Tok(Lexer.Fn, "fn"), Tok(Lexer.Ident, f.name), LParenTok];
    var ps := ParamsTokens(f.params);
    var mid := [RParenTok, Tok(Lexer.Colon, ":"), retTok, Tok(Lexer.LBrace, "{")];
    var rest := BodyTokens(f.body) + [Tok(Lexer.RBrace, "}")];
    FunctionShape(f, retTok);
    hide *;
    IsAtAppend(toks, pos, head, ps + (mid + rest));
    IsAtAppend(toks, pos + 3, ps, mid + rest);
    var m := pos + 3 + |ps|;
    IsAtAppend(toks, m, mid, rest);
    IsAtGet(toks, pos, head, 0);
    IsAtGet(toks, pos, head, 1);
    IsAtGet(toks, pos, head, 2);
    IsAtGet(toks, m, mid, 0);
    IsAtGet(toks, m, mid, 1);
    IsAtGet(toks, m, mid, 2);
    IsAtGet(toks, m, mid, 3);
    assert mid + rest == [RParenTok] + (mid[1..] + rest);
    IsAtAppend(toks, m, [RParenTok], mid[1..] + rest);
    IsAtJoin(toks, pos + 3, ps, [RParenTok]);
  }

  /** The part of `function` before the body, over tokens whose pieces are
      already known. */
  lemma SignatureStep(toks: seq<Token>, pos: nat, name: string, ps: seq<Param>, retTok: Token, m: nat)
    requires m + 3 <= |toks| && pos + 3 <= m
    requires toks[pos].kind == Lexer.Fn && toks[pos + 1] == Tok(Lexer.Ident, name) && toks[pos + 2].kind == Lexer.LParen
    requires ParamList(toks, pos + 3) == Success((ps, m))
    requires toks[m].kind == Lexer.RParen && toks[m + 1].kind == Lexer.Colon && toks[m + 2] == retTok
    ensures Signature(toks, pos) ==
      if retTok.kind == Lexer.Ident || retTok.kind == Lexer.Int
      then Success((Header(name, ps, retTok.lexeme), m + 3))
      else Failure(BadReturnType(retTok))
  {
    hide ParamList, Params;
    assert Expect(toks, pos, Lexer.Fn) == Success((toks[pos], pos + 1));
    assert Expect(toks, pos + 1, Lexer.Ident) == Success((toks[pos + 1], pos + 2));
    assert Expect(toks, pos + 2, Lexer.LParen) == Success((toks[pos + 2], pos + 3));
    assert Expect(toks, m, Lexer.RParen) == Success((toks[m], m + 1));
    assert Expect(toks, m + 1, Lexer.Colon) == Success((toks[m + 1], m + 2));
  }

  lemma BlockStep(toks: seq<Token>, p: nat, ss: seq<Stmt>, e: nat)
    requires p < e < |toks|
    requires toks[p].kind == Lexer.LBrace
    requires Statements(toks, p + 1) == Success((ss, e))
    ensures Block(toks, p) == Success((ss, e + 1))
  {
    hide Statements, Statement;
    assert Expect(toks, p, Lexer.LBrace) == Success((toks[p], p + 1));
  }

  /** `function` is its signature followed by a block. */
  lemma FunctionStep(toks: seq<Token>, pos: nat, h: Header, body: seq<Stmt>, m: nat, e: nat)
    requires pos < m < e <= |toks|
    requires Signature(toks, pos) == Success((h, m))
    requires Block(toks, m) == Success((body, e))
    ensures ParseFunction(toks, pos) == Success((Function(h.name, h.params, h.returnType, body), e))
  {
  }

  lemma FunctionStepFails(toks: seq<Token>, pos: nat, err: ParseError)
    requires pos <= |toks|
    requires Signature(toks, pos) == Failure(err)
    ensures ParseFunction(toks, pos) == Failure(err)
  {
  }

  /** The signature of a printed function, read back. */
  lemma SignatureRoundTrip(toks: seq<Token>, pos: nat, name: string, ps: seq<Param>, retTok: Token, m: nat)
    requires m + 3 <= |toks| && m == pos + 3 + |ParamsTokens(ps)|
    requires toks[pos].kind == Lexer.Fn && toks[pos + 1] == Tok(Lexer.Ident, name) && toks[pos + 2].kind == Lexer.LParen
    requires IsAt(toks, pos + 3, ParamsTokens(ps) + [RParenTok])
    requires toks[m].kind == Lexer.RParen && toks[m + 1].kind == Lexer.Colon && toks[m + 2] == retTok
    ensures Signature(toks, pos) ==
      if retTok.kind == Lexer.Ident || retTok.kind == Lexer.Int
      then Success((Header(name, ps, retTok.lexeme), m + 3))
      else Failure(BadReturnType(retTok))
  {
    ParamListRoundTrip(toks, pos + 3, ps, m);
    SignatureStep(toks, pos, name, ps, retTok, m);
  }

  /** A printed block, read back. */
  lemma BlockRoundTrip(toks: seq<Token>, p: nat, ss: seq<Stmt>, e: nat)
    requires forall k :: 0 <= k < |ss| ==> StmtArithOnly(ss[k])
    requires p < |toks| && toks[p].kind == Lexer.LBrace
    requires IsAt(toks, p + 1, BodyTokens(ss) + [Tok(Lexer.RBrace, "}")]) && e == p + 1 + |BodyTokens(ss)|
    ensures e < |toks| && Block(toks, p) == Success((ss, e + 1))
  {
    StatementsRoundTrip(toks, p + 1, ss, e);
    BlockStep(toks, p, ss, e);
  }

  /** A printed function is read back with the spelling of whatever
      return-type token it carries, provided that token is an identifier or
      `int`. */
  lemma FunctionRoundTrip(toks: seq<Token>, pos: nat, f: Function, retTok: Token, end: nat)
    requires FunctionArithOnly(f)
    requires retTok.kind == Lexer.Ident || retTok.kind == Lexer.Int
    requires IsAt(toks, pos, FunctionTokensWith(f, retTok)) && end == pos + |FunctionTokensWith(f, retTok)|
    ensures ParseFunction(toks, pos) == Success((Function(f.name, f.params, retTok.lexeme, f.body), end))
  {
    FunctionSplit(toks, pos, f, retTok);
    hide ParseFunction, Signature, Block, FunctionTokensWith, IsAt;
    var m := pos + 3 + |ParamsTokens(f.params)|;
    FunctionParts(toks, pos, f, retTok, m, end);
  }

  /** The pieces of a printed function, each already located, read back. */
  lemma FunctionParts(toks: seq<Token>, pos: nat, f: Function, retTok: Token, m: nat, end: nat)
    requires forall k :: 0 <= k < |f.body| ==> StmtArithOnly(f.body[k])
    requires retTok.kind == Lexer.Ident || retTok.kind == Lexer.Int
    requires m == pos + 3 + |ParamsTokens(f.params)| && end == m + 5 + |BodyTokens(f.body)| && m + 4 <= |toks|
    requires toks[pos].kind == Lexer.Fn && toks[pos + 1] == Tok(Lexer.Ident, f.name) && toks[pos + 2].kind == Lexer.LParen
    requires IsAt(toks, pos + 3, ParamsTokens(f.params) + [RParenTok])
    requires toks[m].kind == Lexer.RParen && toks[m + 1].kind == Lexer.Colon && toks[m + 2] == retTok
    requires toks[m + 3].kind == Lexer.LBrace
    requires IsAt(toks, m + 4, BodyTokens(f.body) + [Tok(Lexer.RBrace, "}")])
    ensures ParseFunction(toks, pos) == Success((Function(f.name, f.params, retTok.lexeme, f.body), end))
  {
    hide *;
    SignatureRoundTrip(toks, pos, f.name, f.params, retTok, m);
    BlockRoundTrip(toks, m + 3, f.body, end - 1);
    FunctionStep(toks, pos, Header(f.name, f.params, retTok.lexeme), f.body, m + 3, end);
  }

  /** A function printed with its own return type is read back unchanged. */
  lemma PrintedFunctionRoundTrip(toks: seq<Token>, pos: nat, f: Function, end: nat)
    requires FunctionArithOnly(f)
    requires IsAt(toks, pos, FunctionTokens(f)) && end == pos + |FunctionTokens(f)|
    ensures ParseFunction(toks, pos) == Success((f, end))
  {
    var retTok := ReturnTypeToken(f.returnType);
    FunctionRoundTrip(toks, pos, f, retTok, end);
    assert Function(f.name, f.params, retTok.lexeme, f.body) == f;
  }

  /** A printed function with any other token in the return-type place is
      refused, and the error names that token; the body is never read. */
  lemma FunctionBadReturnType(toks: seq<Token>, pos: nat, f: Function, retTok: Token)
    requires retTok.kind != Lexer.Ident && retTok.kind != Lexer.Int
    requires IsAt(toks, pos, FunctionTokensWith(f, retTok))
    ensures ParseFunction(toks, pos) == Failure(BadReturnType(retTok))
  {
    FunctionSplit(toks, pos, f, retTok);
    hide ParseFunction, Signature, FunctionTokensWith, IsAt;
    SignatureRoundTrip(toks, pos, f.name, f.params, retTok, pos + 3 + |ParamsTokens(f.params)|);
    FunctionStepFails(toks, pos, BadReturnType(retTok));
  }

  /** One iteration of the loop of `parse`. */
  lemma FunctionsStep(toks: seq<Token>, pos: nat, f: Function, q: nat, rest: seq<Function>)
    requires pos < q <= |toks|
    requires ParseFunction(toks, pos) == Success((f, q))
    requires Functions(toks, q) == Success(rest)
    ensures Functions(toks, pos) == Success([f] + rest)
  {
  }

  lemma FunctionsShape(fs: seq<Function>)
    requires fs != []
    ensures FunctionsTokens(fs) == FunctionTokens(fs[0]) + FunctionsTokens(fs[1..])
  {
  }

  lemma {:induction false} FunctionsRoundTrip(toks: seq<Token>, pos: nat, fs: seq<Function>)
    requires forall k :: 0 <= k < |fs| ==> FunctionArithOnly(fs[k])
    requires IsAt(toks, pos, FunctionsTokens(fs)) && pos + |FunctionsTokens(fs)| == |toks|
    ensures Functions(toks, pos) == Success(fs)
    decreases |fs|, 1
  {
    if fs != [] {
      FunctionsConsRoundTrip(toks, pos, fs);
    }
  }

  /** The step of `FunctionsRoundTrip` for a non-empty list: the first
      function is read back, then the rest. */
  lemma {:induction false} FunctionsConsRoundTrip(toks: seq<Token>, pos: nat, fs: seq<Function>)
    requires fs != []
    requires forall k :: 0 <= k < |fs| ==> FunctionArithOnly(fs[k])
    requires IsAt(toks, pos, FunctionsTokens(fs)) && pos + |FunctionsTokens(fs)| == |toks|
    ensures Functions(toks, pos) == Success(fs)
    decreases |fs|, 0
  {
    hide *;
    var f := fs[0];
    var a := FunctionTokens(f);
    var q := pos + |a|;
    FunctionsShape(fs);
    IsAtAppend(toks, pos, a, FunctionsTokens(fs[1..]));
    PrintedFunctionRoundTrip(toks, pos, f, q);
    FunctionsRoundTrip(toks, q, fs[1..]);
    FunctionsStep(toks, pos, f, q, fs[1..]);
    assert [f] + fs[1..] == fs;
  }

  /** The parser inverts the printer on every program whose operators are
      + - * /. */
  lemma ProgramRoundTrip(p: Program)
    requires ProgramArithOnly(p)
    ensures Parse(ProgramTokens(p)) == Success(p)
  {
    var toks := ProgramTokens(p);
    IsAtSelf(toks, 0);
    assert toks[0..] == toks;
    FunctionsRoundTrip(toks, 0, p.functions);
  }
}
