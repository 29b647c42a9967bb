/** Facts about the parser beyond the round trip: the token layout of any
    header, statement and block that parses, which tokens may start a
    statement, what the grammar refuses, how operators group, and that a
    cut token list parses only when the cut falls between functions. */
module ParserFacts {
  import opened Results
  import opened Ast
  import Lexer
  import opened Parser
  import opened Unparser
  import opened ParserRoundTrip

  // ---------------------------------------------------------------------
  // The program loop

  /** The empty program and only the empty token list: the loop of `parse`
      stops only when the tokens run out, and every iteration adds a
      function. */
  lemma ParseEmptyIff(toks: seq<Token>)
    ensures Parse(toks) == Success(Program([])) <==> |toks| == 0
  {
    if |toks| > 0 {
      match ParseFunction(toks, 0)
      case Failure(_) =>
      case Success((f, q)) =>
        match Functions(toks, q)
        case Failure(_) =>
        case Success(rest) =>
          assert Functions(toks, 0) == Success([f] + rest);
    }
  }

  /** What a function header read successfully consists of: `fn`, the
      name, `(`, a parameter list (empty exactly when `)` follows at once),
      `)`, `:` and a return type that is an identifier or `int`; the name
      and the return type are kept as spelled. */
  lemma SignatureShape(toks: seq<Token>, pos: nat)
    requires pos <= |toks| && Signature(toks, pos).Success?
    ensures var (h, m) := Signature(toks, pos).value;
      pos + 6 <= m <= |toks| &&
      toks[pos].kind == Lexer.Fn && toks[pos + 1].kind == Lexer.Ident && h.name == toks[pos + 1].lexeme &&
      toks[pos + 2].kind == Lexer.LParen && (h.params == [] <==> m == pos + 6) &&
      toks[m - 3].kind == Lexer.RParen && toks[m - 2].kind == Lexer.Colon &&
      (toks[m - 1].kind == Lexer.Ident || toks[m - 1].kind == Lexer.Int) && h.returnType == toks[m - 1].lexeme
  {
  }

  // ---------------------------------------------------------------------
  // Statements

  /** Only `return`, `print` and an identifier start a statement; any other
      token is refused as it stands. */
  lemma StatementStarts(toks: seq<Token>, pos: nat)
    requires pos < |toks|
    ensures Statement(toks, pos).Success? ==> toks[pos].kind in {Lexer.Return, Lexer.Print, Lexer.Ident}
    ensures toks[pos].kind !in {Lexer.Return, Lexer.Print, Lexer.Ident} ==>
      Statement(toks, pos) == Failure(BadStatement(toks[pos]))
  {
  }

  /** What a statement read successfully consists of, branch by branch: it
      always ends in `;`; `return` is followed by the returned expression;
      `print` by `(`, the printed expression and `)`; an identifier by an
      operator token and the assigned expression, and the identifier's
      spelling is the target. */
  lemma StatementShape(toks: seq<Token>, pos: nat)
    requires pos <= |toks| && Statement(toks, pos).Success?
    ensures var (st, m) := Statement(toks, pos).value;
      pos + 3 <= m <= |toks| && toks[m - 1].kind == Lexer.Semicolon &&
      (toks[pos].kind == Lexer.Return ==>
        st.ReturnStmt? && Expression(toks, pos + 1) == Success((st.value, m - 1))) &&
      (toks[pos].kind == Lexer.Print ==>
        st.PrintStmt? && toks[pos + 1].kind == Lexer.LParen && toks[m - 2].kind == Lexer.RParen &&
        Expression(toks, pos + 2) == Success((st.value, m - 2))) &&
      (toks[pos].kind == Lexer.Ident ==>
        st == VarAssign(toks[pos].lexeme, st.value) && toks[pos + 1].kind == Lexer.Op &&
        Expression(toks, pos + 2) == Success((st.value, m - 1)))
  {
  }

  /** What a block read successfully consists of: `{`, the statements up to
      the first closing brace, and that brace; the block is empty exactly
      when `}` follows `{` at once, and otherwise its first statement is
      the one read right after `{`. */
  lemma BlockShape(toks: seq<Token>, pos: nat)
    requires pos <= |toks| && Block(toks, pos).Success?
    ensures var (ss, m) := Block(toks, pos).value;
      pos + 2 <= m <= |toks| && toks[pos].kind == Lexer.LBrace && toks[m - 1].kind == Lexer.RBrace &&
      Statements(toks, pos + 1) == Success((ss, m - 1)) &&
      (ss == [] <==> m == pos + 2) &&
      (ss != [] ==> Statement(toks, pos + 1).Success? && Statement(toks, pos + 1).value.0 == ss[0])
  {
  }

  /** `print` needs its parentheses: `print 1 ;` is refused at the number,
      where `(` was expected. */
  lemma PrintNeedsParens()
    ensures var toks := [Tok(Lexer.Print, "print"), Tok(Lexer.Number, "1"), SemicolonTok];
      Statement(toks, 0) == Failure(Expected(Lexer.LParen, Some(toks[1])))
  {
  }

  /** `return` must be followed by an expression: `return ;` is refused at
      the semicolon, where a factor was expected. */
  lemma ReturnNeedsValue(toks: seq<Token>, pos: nat)
    requires pos + 1 < |toks|
    requires toks[pos].kind == Lexer.Return && toks[pos + 1].kind == Lexer.Semicolon
    ensures Statement(toks, pos) == Failure(BadFactor(toks[pos + 1]))
  {
    assert Factor(toks, pos + 1) == Failure(BadFactor(toks[pos + 1]));
    assert Term(toks, pos + 1) == Failure(BadFactor(toks[pos + 1]));
    assert Expression(toks, pos + 1) == Failure(BadFactor(toks[pos + 1]));
  }

  /** The type of a parameter must be an identifier token: a keyword such as
      `int` in that place is refused, although `int` is an accepted return
      type. */
  lemma ParamKeywordType(toks: seq<Token>, pos: nat)
    requires pos + 2 < |toks|
    requires toks[pos].kind == Lexer.Ident && toks[pos + 1].kind == Lexer.Colon
    requires toks[pos + 2].kind != Lexer.Ident
    ensures Params(toks, pos) == Failure(Expected(Lexer.Ident, Some(toks[pos + 2])))
  {
    assert Expect(toks, pos, Lexer.Ident) == Success((toks[pos], pos + 1));
    assert Expect(toks, pos + 1, Lexer.Colon) == Success((toks[pos + 1], pos + 2));
  }

  // ---------------------------------------------------------------------
  // Expressions

  /** `( e )` is read as `e` itself: parentheses leave no node behind. */
  lemma ParenTransparent(toks: seq<Token>, pos: nat, e: Expr)
    requires ArithOnly(e)
    requires IsAt(toks, pos, Paren(ExprTokens(e)))
    ensures Factor(toks, pos) == Success((e, pos + |ExprTokens(e)| + 2))
  {
    var inner := ExprTokens(e);
    var q := pos + 1 + |inner|;
    assert Paren(inner) == [LParenTok] + (inner + [RParenTok]);
    IsAtHead(toks, pos, LParenTok, inner + [RParenTok]);
    IsAtAppend(toks, pos + 1, inner, [RParenTok]);
    IsAtGet(toks, q, [RParenTok], 0);
    ExprAt(toks, pos + 1, e, q);
    ParenStep(toks, pos, e, q);
  }

  /** The printed tokens of `e`, alone, are read back as `e`. */
  lemma ExpressionOf(toks: seq<Token>, e: Expr)
    requires ArithOnly(e) && toks == ExprTokens(e)
    ensures Expression(toks, 0) == Success((e, |toks|))
  {
    IsAtSelf(toks, 0);
    assert toks[0..] == toks;
    ExpressionRoundTrip(toks, 0, e);
  }

  /** A printed operand that is a single token. */
  predicate IsAtom(e: Expr) {
    !e.BinaryOp?
  }

  /** An atom prints as its one token at every level. */
  lemma AtomTokens(e: Expr)
    requires IsAtom(e)
    ensures ExprTokens(e) == [AtomToken(e)] && TermTokens(e) == [AtomToken(e)] && FactorTokens(e) == [AtomToken(e)]
  {
  }

  /** `a o1 b o2 c` with two operators of one level groups to the left. */
  lemma LeftAssociative(a: Expr, o1: string, b: Expr, o2: string, c: Expr)
    requires IsAtom(a) && IsAtom(b) && IsAtom(c)
    requires (IsAdditive(o1) && IsAdditive(o2)) || (IsMultiplicative(o1) && IsMultiplicative(o2))
    ensures var toks := [AtomToken(a), Tok(Lexer.Op, o1), AtomToken(b), Tok(Lexer.Op, o2), AtomToken(c)];
      Expression(toks, 0) == Success((BinaryOp(o2, BinaryOp(o1, a, b), c), 5))
  {
    var toks := [AtomToken(a), Tok(Lexer.Op, o1), AtomToken(b), Tok(Lexer.Op, o2), AtomToken(c)];
    var inner := BinaryOp(o1, a, b);
    var e := BinaryOp(o2, inner, c);
    AtomTokens(a);
    AtomTokens(b);
    AtomTokens(c);
    if IsAdditive(o1) {
      AddShape(inner);
      AddShape(e);
      assert ExprTokens(e) == toks;
    } else {
      MulShape(inner);
      MulShape(e);
      MulTokens(e);
      assert ExprTokens(e) == toks;
    }
    ExpressionOf(toks, e);
  }

  /** `a + b * c` groups the multiplication first. */
  lemma MulBindsTighterRight(a: Expr, o1: string, b: Expr, o2: string, c: Expr)
    requires IsAtom(a) && IsAtom(b) && IsAtom(c)
    requires IsAdditive(o1) && IsMultiplicative(o2)
    ensures var toks := [AtomToken(a), Tok(Lexer.Op, o1), AtomToken(b), Tok(Lexer.Op, o2), AtomToken(c)];
      Expression(toks, 0) == Success((BinaryOp(o1, a, BinaryOp(o2, b, c)), 5))
  {
    var toks := [AtomToken(a), Tok(Lexer.Op, o1), AtomToken(b), Tok(Lexer.Op, o2), AtomToken(c)];
    var inner := BinaryOp(o2, b, c);
    var e := BinaryOp(o1, a, inner);
    AtomTokens(a);
    AtomTokens(b);
    AtomTokens(c);
    MulShape(inner);
    AddShape(e);
    assert ExprTokens(e) == toks;
    ExpressionOf(toks, e);
  }

  /** `a * b + c` also groups the multiplication first. */
  lemma MulBindsTighterLeft(a: Expr, o1: string, b: Expr, o2: string, c: Expr)
    requires IsAtom(a) && IsAtom(b) && IsAtom(c)
    requires IsMultiplicative(o1) && IsAdditive(o2)
    ensures var toks := [AtomToken(a), Tok(Lexer.Op, o1), AtomToken(b), Tok(Lexer.Op, o2), AtomToken(c)];
      Expression(toks, 0) == Success((BinaryOp(o2, BinaryOp(o1, a, b), c), 5))
  {
    var toks := [AtomToken(a), Tok(Lexer.Op, o1), AtomToken(b), Tok(Lexer.Op, o2), AtomToken(c)];
    var inner := BinaryOp(o1, a, b);
    var e := BinaryOp(o2, inner, c);
    AtomTokens(a);
    AtomTokens(b);
    AtomTokens(c);
    MulShape(inner);
    MulTokens(inner);
    AddShape(e);
    assert ExprTokens(e) == toks;
    ExpressionOf(toks, e);
  }

  // ---------------------------------------------------------------------
  // Cutting the token list. The parser never looks past the token that
  // ends what it has read, so a rule that succeeds on a prefix `t[..k]`
  // gives the same result on `t`; the expression rules, which look one
  // token ahead, need their end to lie before the cut.

  lemma ExpectCut(t: seq<Token>, k: nat, pos: nat, kind: Lexer.Kind)
    requires pos <= k <= |t|
    requires Expect(t[..k], pos, kind).Success?
    ensures Expect(t, pos, kind) == Expect(t[..k], pos, kind)
  {
    assert t[..k][pos] == t[pos];
  }

  lemma {:induction false} ExpressionCut(t: seq<Token>, k: nat, pos: nat)
    requires pos <= k <= |t|
    requires Expression(t[..k], pos).Success? && Expression(t[..k], pos).value.1 < k
    ensures Expression(t, pos) == Expression(t[..k], pos)
    decreases k - pos, 4
  {
    var x := Term(t[..k], pos).value;
    TermCut(t, k, pos);
    ExprTailCut(t, k, x.0, x.1);
  }

  lemma {:induction false} ExprTailCut(t: seq<Token>, k: nat, left: Expr, pos: nat)
    requires pos <= k <= |t|
    requires ExprTail(t[..k], left, pos).Success? && ExprTail(t[..k], left, pos).value.1 < k
    ensures ExprTail(t, left, pos) == ExprTail(t[..k], left, pos)
    decreases k - pos, 3
  {
    var u := t[..k];
    assert u[pos] == t[pos];
    if IsAdditive(u[pos].lexeme) {
      var y := Term(u, pos + 1).value;
      TermCut(t, k, pos + 1);
      ExprTailCut(t, k, BinaryOp(u[pos].lexeme, left, y.0), y.1);
    }
  }

  lemma {:induction false} TermCut(t: seq<Token>, k: nat, pos: nat)
    requires pos <= k <= |t|
    requires Term(t[..k], pos).Success? && Term(t[..k], pos).value.1 < k
    ensures Term(t, pos) == Term(t[..k], pos)
    decreases k - pos, 2
  {
    var x := Factor(t[..k], pos).value;
    FactorCut(t, k, pos);
    TermTailCut(t, k, x.0, x.1);
  }

  lemma {:induction false} TermTailCut(t: seq<Token>, k: nat, left: Expr, pos: nat)
    requires pos <= k <= |t|
    requires TermTail(t[..k], left, pos).Success? && TermTail(t[..k], left, pos).value.1 < k
    ensures TermTail(t, left, pos) == TermTail(t[..k], left, pos)
    decreases k - pos, 1
  {
    var u := t[..k];
    assert u[pos] == t[pos];
    if IsMultiplicative(u[pos].lexeme) {
      var y := Factor(u, pos + 1).value;
      FactorCut(t, k, pos + 1);
      TermTailCut(t, k, BinaryOp(u[pos].lexeme, left, y.0), y.1);
    }
  }

  lemma {:induction false} FactorCut(t: seq<Token>, k: nat, pos: nat)
    requires pos <= k <= |t|
    requires Factor(t[..k], pos).Success? && Factor(t[..k], pos).value.1 < k
    ensures Factor(t, pos) == Factor(t[..k], pos)
    decreases k - pos, 0
  {
    hide Expect;
    var u := t[..k];
    assert u[pos] == t[pos];
    if u[pos].kind == Lexer.LParen {
      var x := Expression(u, pos + 1).value;
      ExpressionCut(t, k, pos + 1);
      ExpectCut(t, k, x.1, Lexer.RParen);
    }
  }

  lemma StatementCut(t: seq<Token>, k: nat, pos: nat)
    requires pos <= k <= |t|
    requires Statement(t[..k], pos).Success?
    ensures Statement(t, pos) == Statement(t[..k], pos)
  {
    hide Expect;
    var u := t[..k];
    assert u[pos] == t[pos];
    if u[pos].kind == Lexer.Return {
      var x := Expression(u, pos + 1).value;
      ExpressionCut(t, k, pos + 1);
      ExpectCut(t, k, x.1, Lexer.Semicolon);
    } else if u[pos].kind == Lexer.Print {
      ExpectCut(t, k, pos + 1, Lexer.LParen);
      var x := Expression(u, pos + 2).value;
      ExpressionCut(t, k, pos + 2);
      ExpectCut(t, k, x.1, Lexer.RParen);
      ExpectCut(t, k, x.1 + 1, Lexer.Semicolon);
    } else {
      ExpectCut(t, k, pos + 1, Lexer.Op);
      var x := Expression(u, pos + 2).value;
      ExpressionCut(t, k, pos + 2);
      ExpectCut(t, k, x.1, Lexer.Semicolon);
    }
  }

  lemma {:induction false} StatementsCut(t: seq<Token>, k: nat, pos: nat)
    requires pos <= k <= |t|
    requires Statements(t[..k], pos).Success?
    ensures Statements(t, pos) == Statements(t[..k], pos)
    decreases k - pos
  {
    var u := t[..k];
    assert u[pos] == t[pos];
    if u[pos].kind != Lexer.RBrace {
      var x := Statement(u, pos).value;
      StatementCut(t, k, pos);
      StatementsCut(t, k, x.1);
    }
  }

  lemma BlockCut(t: seq<Token>, k: nat, pos: nat)
    requires pos <= k <= |t|
    requires Block(t[..k], pos).Success?
    ensures Block(t, pos) == Block(t[..k], pos)
  {
    hide Expect, Statements;
    ExpectCut(t, k, pos, Lexer.LBrace);
    StatementsCut(t, k, pos + 1);
  }

  lemma {:induction false} ParamsCut(t: seq<Token>, k: nat, pos: nat)
    requires pos <= k <= |t|
    requires Params(t[..k], pos).Success?
    ensures Params(t, pos) == Params(t[..k], pos)
    decreases k - pos
  {
    hide Expect;
    var u := t[..k];
    ExpectCut(t, k, pos, Lexer.Ident);
    ExpectCut(t, k, pos + 1, Lexer.Colon);
    ExpectCut(t, k, pos + 2, Lexer.Ident);
    assert u[pos + 3] == t[pos + 3];
    if u[pos + 3].kind == Lexer.Comma {
      ParamsCut(t, k, pos + 4);
    }
  }

  lemma SignatureCut(t: seq<Token>, k: nat, pos: nat)
    requires pos <= k <= |t|
    requires Signature(t[..k], pos).Success?
    ensures Signature(t, pos) == Signature(t[..k], pos)
  {
    hide Expect;
    var u := t[..k];
    ExpectCut(t, k, pos, Lexer.Fn);
    ExpectCut(t, k, pos + 1, Lexer.Ident);
    ExpectCut(t, k, pos + 2, Lexer.LParen);
    assert u[pos + 3] == t[pos + 3];
    if u[pos + 3].kind != Lexer.RParen {
      ParamsCut(t, k, pos + 3);
    }
    var m := ParamList(u, pos + 3).value.1;
    ExpectCut(t, k, m, Lexer.RParen);
    ExpectCut(t, k, m + 1, Lexer.Colon);
    assert u[m + 2] == t[m + 2];
  }

  lemma ParseFunctionCut(t: seq<Token>, k: nat, pos: nat)
    requires pos <= k <= |t|
    requires ParseFunction(t[..k], pos).Success?
    ensures ParseFunction(t, pos) == ParseFunction(t[..k], pos)
  {
    SignatureCut(t, k, pos);
    BlockCut(t, k, Signature(t[..k], pos).value.1);
  }

  /** A function cut short is refused: running out of tokens anywhere
      inside it is a failure, never a shorter function. */
  lemma FunctionTruncated(t: seq<Token>, pos: nat, k: nat)
    requires pos <= k <= |t|
    requires ParseFunction(t, pos).Success? && k < ParseFunction(t, pos).value.1
    ensures ParseFunction(t[..k], pos).Failure?
  {
    if ParseFunction(t[..k], pos).Success? {
      ParseFunctionCut(t, k, pos);
    }
  }

  lemma {:induction false} FunctionsCut(t: seq<Token>, k: nat, pos: nat, gs: seq<Function>, fs: seq<Function>)
    requires pos <= k <= |t|
    requires Functions(t[..k], pos) == Success(gs) && Functions(t, pos) == Success(fs)
    ensures |gs| <= |fs| && gs == fs[..|gs|]
    ensures Functions(t, k) == Success(fs[|gs|..])
    decreases k - pos
  {
    if pos == k {
      assert gs == [];
    }
    hide Expect, Functions, ParseFunction;
    if pos < k {
      var u := t[..k];
      FunctionsUnfold(u, pos);
      var x := ParseFunction(u, pos).value;
      ParseFunctionCut(t, k, pos);
      FunctionsUnfold(t, pos);
      var gs' := Functions(u, x.1).value;
      var fs' := Functions(t, x.1).value;
      FunctionsCut(t, k, x.1, gs', fs');
      assert fs[|gs|..] == fs'[|gs'|..];
    }
  }

  /** One iteration of the loop of `parse`, read off a successful run. */
  lemma FunctionsUnfold(t: seq<Token>, pos: nat)
    requires pos < |t| && Functions(t, pos).Success?
    ensures ParseFunction(t, pos).Success?
    ensures var x := ParseFunction(t, pos).value;
      Functions(t, x.1).Success? && Functions(t, pos).value == [x.0] + Functions(t, x.1).value
  {
  }

  /** A token list cut at `k` parses only if the cut falls between two
      functions of the whole list: the functions read are then the first
      ones of the whole program, and the loop of `parse` on the whole list
      would go on from `k` with the rest. */
  lemma ParseCut(t: seq<Token>, k: nat)
    requires k <= |t|
    requires Parse(t).Success? && Parse(t[..k]).Success?
    ensures var fs := Parse(t).value.functions;
      var gs := Parse(t[..k]).value.functions;
      |gs| <= |fs| && gs == fs[..|gs|] && Functions(t, k) == Success(fs[|gs|..])
  {
    FunctionsCut(t, k, 0, Functions(t[..k], 0).value, Functions(t, 0).value);
  }
}
