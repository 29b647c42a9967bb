/** The inverse of the parser: the token list of a syntax tree, with just
    the parentheses the grammar needs (a right operand of the same or looser
    level, an additive operand of a multiplicative node). Proving that the
    parser reads every printed tree back unchanged settles precedence and
    left associativity, and shows that printed statements and functions
    are read back as built. */
module Unparser {
  import opened Results
  import opened Ast
  import Lexer
  import opened Parser

  /** A token the printer emits; the parser never reads positions. */
  function Tok(kind: Kind, lexeme: string): Token {
    Lexer.Token(kind, lexeme, 1, 0)
  }

  const LParenTok: Token := Tok(Lexer.LParen, "(")
  const RParenTok: Token := Tok(Lexer.RParen, ")")
  const SemicolonTok: Token := Tok(Lexer.Semicolon, ";")

  function Paren(ts: seq<Token>): seq<Token> {
    [LParenTok] + ts + [RParenTok]
  }

  predicate IsAddNode(e: Expr) {
    e.BinaryOp? && IsAdditive(e.op)
  }

  predicate IsMulNode(e: Expr) {
    e.BinaryOp? && !IsAdditive(e.op)
  }

  function AtomToken(e: Expr): Token
    requires !e.BinaryOp?
  {
    if e.Number? then Tok(Lexer.Number, e.value) else Tok(Lexer.Ident, e.name)
  }

  /** `e` where an expression is expected. */
  function ExprTokens(e: Expr): seq<Token>
    decreases e, 2
  {
    if e.BinaryOp? then BinTokens(e) else [AtomToken(e)]
  }

  /** `e` where a term is expected: additive nodes need parentheses. */
  function TermTokens(e: Expr): seq<Token>
    decreases e, 2
  {
    if IsAddNode(e) then Paren(BinTokens(e))
    else if e.BinaryOp? then BinTokens(e)
    else [AtomToken(e)]
  }

  /** `e` where a factor is expected: every operator node needs
      parentheses. */
  function FactorTokens(e: Expr): seq<Token>
    decreases e, 2
  {
    if e.BinaryOp? then Paren(BinTokens(e)) else [AtomToken(e)]
  }

  /** An operator node: the left operand at its own level, the right one a
      level tighter. */
  function BinTokens(e: Expr): seq<Token>
    requires e.BinaryOp?
    decreases e, 1
  {
    if IsAdditive(e.op) then ExprTokens(e.left) + [Tok(Lexer.Op, e.op)] + TermTokens(e.right)
    else TermTokens(e.left) + [Tok(Lexer.Op, e.op)] + FactorTokens(e.right)
  }

  /** An assignment statement written with the operator token `op`. */
  function AssignTokens(name: string, op: string, value: Expr): seq<Token> {
    [Tok(Lexer.Ident, name), Tok(Lexer.Op, op)] + ExprTokens(value) + [SemicolonTok]
  }

  function StmtTokens(s: Stmt): seq<Token> {
    match s
    case VarAssign(name, value) => AssignTokens(name, "=", value)
    case ReturnStmt(value) => [Tok(Lexer.Return, "return")] + ExprTokens(value) + [SemicolonTok]
    case PrintStmt(value) => [Tok(Lexer.Print, "print"), LParenTok] + ExprTokens(value) + [RParenTok, SemicolonTok]
  }

  function BodyTokens(ss: seq<Stmt>): seq<Token> {
    if ss == [] then [] else StmtTokens(ss[0]) + BodyTokens(ss[1..])
  }

  function ParamTokens(p: Param): seq<Token> {
    [Tok(Lexer.Ident, p.name), Tok(Lexer.Colon, ":"), Tok(Lexer.Ident, p.typeName)]
  }

  function ParamsTokens(ps: seq<Param>): seq<Token> {
    if ps == [] then []
    else if |ps| == 1 then ParamTokens(ps[0])
    else ParamTokens(ps[0]) + [Tok(Lexer.Comma, ",")] + ParamsTokens(ps[1..])
  }

  /** The return-type token: `int` is a keyword, any other type an
      identifier. */
  function ReturnTypeToken(t: string): Token {
    if t == "int" then Tok(Lexer.Int, t) else Tok(Lexer.Ident, t)
  }

  /** A function written with `retTok` as its return-type token. */
  function FunctionTokensWith(f: Function, retTok: Token): seq<Token> {
    [Tok(Lexer.Fn, "fn"), Tok(Lexer.Ident, f.name), LParenTok]
      + ParamsTokens(f.params)
      + [RParenTok, Tok(Lexer.Colon, ":"), retTok, Tok(Lexer.LBrace, "{")]
      + BodyTokens(f.body)
      + [Tok(Lexer.RBrace, "}")]
  }

  function FunctionTokens(f: Function): seq<Token> {
    FunctionTokensWith(f, ReturnTypeToken(f.returnType))
  }

  function FunctionsTokens(fs: seq<Function>): seq<Token> {
    if fs == [] then [] else FunctionTokens(fs[0]) + FunctionsTokens(fs[1..])
  }

  function ProgramTokens(p: Program): seq<Token> {
    FunctionsTokens(p.functions)
  }
}
