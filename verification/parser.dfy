/** The recursive-descent parser of src/parser.py. The source keeps a cursor
    into the token list; here every rule is a function from a cursor to
    either the parsed value with the cursor after it, or the first syntax
    error. Lookahead is the token at the cursor, absent at the end. */
module Parser {
  import opened Results
  import opened Ast
  import Lexer

  type Token = Lexer.Token
  type Kind = Lexer.Kind

  /** The source raises `SyntaxError` from `expect` and from three rules,
      and an `AttributeError` wherever it reads `.type` of the absent token
      past the end; the latter is `EndOfTokens`. */
  datatype ParseError =
    | Expected(kind: Kind, got: Option<Token>)
    | BadReturnType(found: Token)
    | BadStatement(found: Token)
    | BadFactor(found: Token)
    | EndOfTokens

  /** A parsed value and the cursor just after it. */
  type Parsed<T> = Result<(T, nat), ParseError>

  /** `current()`: the token at the cursor, or none past the end. */
  function Current(toks: seq<Token>, pos: nat): (r: Option<Token>)
    ensures r.Some? <==> pos < |toks|
    ensures r.Some? ==> r.value == toks[pos]
  {
    if pos < |toks| then Some(toks[pos]) else None
  }

  /** `expect(kind)`: consume one token of the given kind. */
  function Expect(toks: seq<Token>, pos: nat, kind: Kind): (r: Parsed<Token>)
    requires pos <= |toks|
    ensures r.Success? <==> pos < |toks| && toks[pos].kind == kind
    ensures r.Success? ==> r.value == (toks[pos], pos + 1)
    ensures r.Failure? ==> r.error == Expected(kind, Current(toks, pos))
  {
    if pos < |toks| && toks[pos].kind == kind then Success((toks[pos], pos + 1))
    else Failure(Expected(kind, Current(toks, pos)))
  }

  // ---------------------------------------------------------------------
  // Expressions: expression := term (('+'|'-') term)*,
  //              term := factor (('*'|'/') factor)*,
  //              factor := NUMBER | IDENT | '(' expression ')'.
  // The operator loops test the token's text, not its kind.

  function Expression(toks: seq<Token>, pos: nat): (r: Parsed<Expr>)
    requires pos <= |toks|
    ensures r.Success? ==> pos < r.value.1 <= |toks| && ArithOnly(r.value.0)
    decreases |toks| - pos, 4
  {
    var t :- Term(toks, pos);
    ExprTail(toks, t.0, t.1)
  }

  /** The loop of `expression`, with the operand built so far. */
  function ExprTail(toks: seq<Token>, left: Expr, pos: nat): (r: Parsed<Expr>)
    requires pos <= |toks|
    ensures r.Success? ==> pos <= r.value.1 <= |toks|
    ensures r.Success? && ArithOnly(left) ==> ArithOnly(r.value.0)
    decreases |toks| - pos, 3
  {
    if pos < |toks| && IsAdditive(toks[pos].lexeme) then
      var t :- Term(toks, pos + 1);
      ExprTail(toks, BinaryOp(toks[pos].lexeme, left, t.0), t.1)
    else
      Success((left, pos))
  }

  function Term(toks: seq<Token>, pos: nat): (r: Parsed<Expr>)
    requires pos <= |toks|
    ensures r.Success? ==> pos < r.value.1 <= |toks| && ArithOnly(r.value.0)
    decreases |toks| - pos, 2
  {
    var f :- Factor(toks, pos);
    TermTail(toks, f.0, f.1)
  }

  /** The loop of `term`, with the operand built so far. */
  function TermTail(toks: seq<Token>, left: Expr, pos: nat): (r: Parsed<Expr>)
    requires pos <= |toks|
    ensures r.Success? ==> pos <= r.value.1 <= |toks|
    ensures r.Success? && ArithOnly(left) ==> ArithOnly(r.value.0)
    decreases |toks| - pos, 1
  {
    if pos < |toks| && IsMultiplicative(toks[pos].lexeme) then
      var f :- Factor(toks, pos + 1);
      TermTail(toks, BinaryOp(toks[pos].lexeme, left, f.0), f.1)
    else
      Success((left, pos))
  }

  function Factor(toks: seq<Token>, pos: nat): (r: Parsed<Expr>)
    requires pos <= |toks|
    ensures r.Success? ==> pos < r.value.1 <= |toks| && ArithOnly(r.value.0)
    decreases |toks| - pos, 0
  {
    if pos == |toks| then Failure(EndOfTokens)
    else
      var tok := toks[pos];
      if tok.kind == Kind.Number then Success((Number(tok.lexeme), pos + 1))
      else if tok.kind == Kind.Ident then Success((Var(tok.lexeme), pos + 1))
      else if tok.kind == Kind.LParen then
        var e :- Expression(toks, pos + 1);
        var close :- Expect(toks, e.1, Kind.RParen);
        Success((e.0, close.1))
      else
        Failure(BadFactor(tok))
  }

  // ---------------------------------------------------------------------
  // Statements

  /** `statement`: `return e ;`, `print ( e ) ;`, or `IDENT OP e ;`; the
      token at the cursor picks the branch and anything else is refused. */
  function Statement(toks: seq<Token>, pos: nat): (r: Parsed<Stmt>)
    requires pos <= |toks|
    ensures r.Success? ==> pos < r.value.1 <= |toks| && StmtArithOnly(r.value.0)
  {
    if pos == |toks| then Failure(EndOfTokens)
    else if toks[pos].kind == Kind.Return then ReturnStatement(toks, pos + 1)
    else if toks[pos].kind == Kind.Print then PrintStatement(toks, pos + 1)
    else if toks[pos].kind == Kind.Ident then AssignStatement(toks, toks[pos].lexeme, pos + 1)
    else Failure(BadStatement(toks[pos]))
  }

  /** After `return`: an expression, which is not optional, and `;`. */
  function ReturnStatement(toks: seq<Token>, pos: nat): (r: Parsed<Stmt>)
    requires pos <= |toks|
    ensures r.Success? ==> pos < r.value.1 <= |toks| && StmtArithOnly(r.value.0)
  {
    var e :- Expression(toks, pos);
    var semi :- Expect(toks, e.1, Kind.Semicolon);
    Success((ReturnStmt(e.0), semi.1))
  }

  /** After `print`: `( e ) ;`. */
  function PrintStatement(toks: seq<Token>, pos: nat): (r: Parsed<Stmt>)
    requires pos <= |toks|
    ensures r.Success? ==> pos < r.value.1 <= |toks| && StmtArithOnly(r.value.0)
  {
    var open :- Expect(toks, pos, Kind.LParen);
    var e :- Expression(toks, open.1);
    var close :- Expect(toks, e.1, Kind.RParen);
    var semi :- Expect(toks, close.1, Kind.Semicolon);
    Success((PrintStmt(e.0), semi.1))
  }

  /** After the target name: any operator token (the source only comments
      that it should be `=`), an expression and `;`. */
  function AssignStatement(toks: seq<Token>, name: string, pos: nat): (r: Parsed<Stmt>)
    requires pos <= |toks|
    ensures r.Success? ==> pos < r.value.1 <= |toks| && StmtArithOnly(r.value.0)
  {
    var op :- Expect(toks, pos, Kind.Op);
    var e :- Expression(toks, op.1);
    var semi :- Expect(toks, e.1, Kind.Semicolon);
    Success((VarAssign(name, e.0), semi.1))
  }

  /** The loop of `block`: statements up to (not including) the closing
      brace. */
  function Statements(toks: seq<Token>, pos: nat): (r: Parsed<seq<Stmt>>)
    requires pos <= |toks|
    ensures r.Success? ==> pos <= r.value.1 < |toks| && toks[r.value.1].kind == Kind.RBrace
    ensures r.Success? ==> forall k :: 0 <= k < |r.value.0| ==> StmtArithOnly(r.value.0[k])
    decreases |toks| - pos
  {
    if pos == |toks| then Failure(EndOfTokens)
    else if toks[pos].kind == Kind.RBrace then Success(([], pos))
    else
      var s :- Statement(toks, pos);
      var rest :- Statements(toks, s.1);
      Success(([s.0] + rest.0, rest.1))
  }

  function Block(toks: seq<Token>, pos: nat): (r: Parsed<seq<Stmt>>)
    requires pos <= |toks|
    ensures r.Success? ==> pos < r.value.1 <= |toks| && toks[r.value.1 - 1].kind == Kind.RBrace
    ensures r.Success? ==> forall k :: 0 <= k < |r.value.0| ==> StmtArithOnly(r.value.0[k])
  {
    var open :- Expect(toks, pos, Kind.LBrace);
    var ss :- Statements(toks, open.1);
    // The loop stops only at a closing brace, so the final `expect` consumes it.
    Success((ss.0, ss.1 + 1))
  }

  // ---------------------------------------------------------------------
  // Functions and the program

  /** `params`: `IDENT : IDENT` pairs separated by commas. The type must be
      an identifier token, so a keyword such as `int` is refused here. */
  function Params(toks: seq<Token>, pos: nat): (r: Parsed<seq<Param>>)
    requires pos <= |toks|
    ensures r.Success? ==> pos < r.value.1 <= |toks| && |r.value.0| > 0
    decreases |toks| - pos
  {
    var name :- Expect(toks, pos, Kind.Ident);
    var colon :- Expect(toks, name.1, Kind.Colon);
    var ty :- Expect(toks, colon.1, Kind.Ident);
    var p := Param(name.0.lexeme, ty.0.lexeme);
    if ty.1 == |toks| then Failure(EndOfTokens)
    else if toks[ty.1].kind == Kind.Comma then
      var rest :- Params(toks, ty.1 + 1);
      Success(([p] + rest.0, rest.1))
    else
      Success(([p], ty.1))
  }

  /** The optional parameter list of `function`: empty when the next token
      is the closing parenthesis. */
  function ParamList(toks: seq<Token>, pos: nat): (r: Parsed<seq<Param>>)
    requires pos <= |toks|
    ensures r.Success? ==> pos <= r.value.1 <= |toks|
  {
    if pos == |toks| then Failure(EndOfTokens)
    else if toks[pos].kind == Kind.RParen then Success(([], pos))
    else Params(toks, pos)
  }

  /** The mandatory return type of `function`: an identifier or `int`. */
  function ReturnType(toks: seq<Token>, pos: nat): (r: Parsed<string>)
    requires pos <= |toks|
    ensures r.Success? ==> r.value.1 == pos + 1 <= |toks|
    ensures r.Success? ==> (toks[pos].kind == Kind.Ident || toks[pos].kind == Kind.Int) && r.value.0 == toks[pos].lexeme
  {
    if pos == |toks| then Failure(EndOfTokens)
    else if toks[pos].kind == Kind.Ident || toks[pos].kind == Kind.Int then Success((toks[pos].lexeme, pos + 1))
    else Failure(BadReturnType(toks[pos]))
  }

  /** `function`: `fn IDENT ( params? ) : type block`. */
  function ParseFunction(toks: seq<Token>, pos: nat): (r: Parsed<Function>)
    requires pos <= |toks|
    ensures r.Success? ==> pos < r.value.1 <= |toks| && FunctionArithOnly(r.value.0)
  {
    var sig :- Signature(toks, pos);
    var body :- Block(toks, sig.1);
    Success((Function(sig.0.name, sig.0.params, sig.0.returnType, body.0), body.1))
  }

  /** What `function` reads before the body. */
  datatype Header = Header(name: string, params: seq<Param>, returnType: string)

  /** The part of `function` before the body: `fn IDENT ( params? ) : type`. */
  function Signature(toks: seq<Token>, pos: nat): (r: Parsed<Header>)
    requires pos <= |toks|
    ensures r.Success? ==> pos < r.value.1 <= |toks|
  {
    var fn :- Expect(toks, pos, Kind.Fn);
    var name :- Expect(toks, fn.1, Kind.Ident);
    var open :- Expect(toks, name.1, Kind.LParen);
    var ps :- ParamList(toks, open.1);
    var close :- Expect(toks, ps.1, Kind.RParen);
    var colon :- Expect(toks, close.1, Kind.Colon);
    var ty :- ReturnType(toks, colon.1);
    Success((Header(name.0.lexeme, ps.0, ty.0), ty.1))
  }

  /** The loop of `parse`: functions until the tokens run out. */
  function Functions(toks: seq<Token>, pos: nat): (r: Result<seq<Function>, ParseError>)
    requires pos <= |toks|
    ensures r.Success? ==> forall k :: 0 <= k < |r.value| ==> FunctionArithOnly(r.value[k])
    decreases |toks| - pos
  {
    if pos == |toks| then Success([])
    else
      var f :- ParseFunction(toks, pos);
      var rest :- Functions(toks, f.1);
      Success([f.0] + rest)
  }

  /** `parse`: a whole token list as a program; every operator in the tree
      it builds is one of + - * /. */
  function Parse(toks: seq<Token>): (r: Result<Program, ParseError>)
    ensures r.Success? ==> ProgramArithOnly(r.value)
  {
    var fs :- Functions(toks, 0);
    Success(Program(fs))
  }
}
