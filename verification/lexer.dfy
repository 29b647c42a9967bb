/** The MiniLang lexer: one left-to-right scan from characters to positioned
    tokens (src/lexer.py). The source combines its token table into a single
    alternation of regular expressions; at every offset the first alternative
    that matches wins and each alternative is a greedy run. Here the same table
    is a character-class scanner, `Match`, and `Lex` is the scan loop over it. */
module Lexer {
  import opened Results

  /** Every name of the token table plus the upper-cased keywords. Newline,
      Skip and Mismatch name alternatives of the table that never become
      tokens. */
  datatype Kind =
    | Number | Ident | Op
    | LParen | RParen | LBrace | RBrace | Colon | Comma | Semicolon
    | Newline | Skip | Mismatch
    | Fn | Return | If | Else | While | Int | Float | Print

  /** The token type as the source spells it. */
  function KindName(k: Kind): string {
    match k
    case Number => "NUMBER"
    case Ident => "IDENT"
    case Op => "OP"
    case LParen => "LPAREN"
    case RParen => "RPAREN"
    case LBrace => "LBRACE"
    case RBrace => "RBRACE"
    case Colon => "COLON"
    case Comma => "COMMA"
    case Semicolon => "SEMICOLON"
    case Newline => "NEWLINE"
    case Skip => "SKIP"
    case Mismatch => "MISMATCH"
    case Fn => "FN"
    case Return => "RETURN"
    case If => "IF"
    case Else => "ELSE"
    case While => "WHILE"
    case Int => "INT"
    case Float => "FLOAT"
    case Print => "PRINT"
  }

  /** A token: its kind, the matched text as written, its 1-based line and
      its 0-based column within that line. */
  datatype Token = Token(kind: Kind, lexeme: string, line: int, column: int)

  /** The one failure of the lexer: a character no token rule accepts, with
      the line it is on. */
  datatype LexError = LexError(ch: char, line: int)

  /** Reserved words; an identifier-shaped lexeme among them is reclassified. */
  const Keywords: set<string> := {"fn", "return", "if", "else", "while", "int", "float", "print"}

  // Character classes of the token table (ASCII only).

  predicate IsDigit(c: char) {
    '0' <= c <= '9'
  }

  predicate IsIdentStart(c: char) {
    ('A' <= c <= 'Z') || ('a' <= c <= 'z') || c == '_'
  }

  predicate IsIdentChar(c: char) {
    IsIdentStart(c) || IsDigit(c)
  }

  predicate IsOpChar(c: char) {
    c == '+' || c == '-' || c == '*' || c == '/' || c == '=' || c == '<' || c == '>' || c == '!'
  }

  predicate IsBlank(c: char) {
    c == ' ' || c == '\t'
  }

  /** The single-character punctuation alternatives, in table order. */
  function PunctKind(c: char): Option<Kind> {
    if c == '(' then Some(LParen)
    else if c == ')' then Some(RParen)
    else if c == '{' then Some(LBrace)
    else if c == '}' then Some(RBrace)
    else if c == ':' then Some(Colon)
    else if c == ',' then Some(Comma)
    else if c == ';' then Some(Semicolon)
    else None
  }

  /** The characters that some rule other than the catch-all accepts on its
      own. A '.' is accepted only inside a number, so it is not listed. */
  predicate Accepted(c: char) {
    IsDigit(c) || IsIdentChar(c) || IsOpChar(c) || PunctKind(c).Some? || c == '\n' || IsBlank(c)
  }

  datatype CharClass = Digits | IdentChars | OpChars | Blanks

  predicate InClass(c: char, cls: CharClass) {
    match cls
    case Digits => IsDigit(c)
    case IdentChars => IsIdentChar(c)
    case OpChars => IsOpChar(c)
    case Blanks => IsBlank(c)
  }

  /** The end of the longest run of `cls` characters starting at `i`. */
  function RunEnd(s: string, i: nat, cls: CharClass): (j: nat)
    requires i <= |s|
    ensures i <= j <= |s|
    ensures forall k :: i <= k < j ==> InClass(s[k], cls)
    ensures j == |s| || !InClass(s[j], cls)
    decreases |s| - i
  {
    if i < |s| && InClass(s[i], cls) then RunEnd(s, i + 1, cls) else i
  }

  /** Offset `k` has a digit on either side. */
  predicate BetweenDigits(s: string, k: nat) {
    0 < k < |s| - 1 && IsDigit(s[k - 1]) && IsDigit(s[k + 1])
  }

  /** The end of the number starting at `i`: digits, then optionally a '.'
      and at least one more digit. A '.' not followed by a digit is left
      for the next match. */
  function NumberEnd(s: string, i: nat): (j: nat)
    requires i < |s| && IsDigit(s[i])
    ensures i < j <= |s|
    ensures forall k :: i <= k < j ==> IsDigit(s[k]) || s[k] == '.'
    ensures forall k :: i <= k < j && s[k] == '.' ==> i < k < j - 1 && BetweenDigits(s, k)
    ensures IsDigit(s[j - 1]) && (j == |s| || !IsDigit(s[j]))
  {
    var d := RunEnd(s, i, Digits);
    if d + 1 < |s| && s[d] == '.' && IsDigit(s[d + 1]) then RunEnd(s, d + 1, Digits) else d
  }

  /** The alternative of the token table that matches at `i`, and where the
      match ends. The first characters of the alternatives are disjoint, so
      testing them in table order is the regex's first-match rule. */
  function Match(s: string, i: nat): (m: (Kind, nat))
    requires i < |s|
    ensures i < m.1 <= |s|
    ensures m.0 == Mismatch <==> !Accepted(s[i])
    ensures m.0 == Newline <==> s[i] == '\n'
    ensures m.0 == Mismatch || m.0 == Newline ==> m.1 == i + 1
    ensures m.0 != Mismatch ==> forall k :: i <= k < m.1 ==> Accepted(s[k]) || s[k] == '.'
    ensures forall k :: i <= k < m.1 && s[k] == '.' ==> m.0 == Mismatch || (m.0 == Number && i < k < m.1 - 1 && BetweenDigits(s, k))
  {
    var c := s[i];
    if IsDigit(c) then (Number, NumberEnd(s, i))
    else if IsIdentStart(c) then (Ident, RunEnd(s, i, IdentChars))
    else if IsOpChar(c) then (Op, RunEnd(s, i, OpChars))
    else if PunctKind(c).Some? then (PunctKind(c).value, i + 1)
    else if c == '\n' then (Newline, i + 1)
    else if IsBlank(c) then (Skip, RunEnd(s, i, Blanks))
    else (Mismatch, i + 1)
  }

  /** ASCII upper-casing, as `str.upper` does on identifier characters. */
  function Upper(w: string): (u: string)
    ensures |u| == |w|
  {
    seq(|w|, k requires 0 <= k < |w| => if 'a' <= w[k] <= 'z' then (w[k] as int - 32) as char else w[k])
  }

  /** The kind of an identifier-shaped lexeme: a keyword's own kind, otherwise
      `Ident`. */
  function Classify(w: string): (k: Kind)
    ensures w in Keywords ==> KindName(k) == Upper(w)
    ensures w !in Keywords ==> k == Ident
    ensures k == Ident || k.Fn? || k.Return? || k.If? || k.Else? || k.While? || k.Int? || k.Float? || k.Print?
  {
    if w == "fn" then assert Upper(w) == "FN"; Fn
    else if w == "return" then assert Upper(w) == "RETURN"; Return
    else if w == "if" then assert Upper(w) == "IF"; If
    else if w == "else" then assert Upper(w) == "ELSE"; Else
    else if w == "while" then assert Upper(w) == "WHILE"; While
    else if w == "int" then assert Upper(w) == "INT"; Int
    else if w == "float" then assert Upper(w) == "FLOAT"; Float
    else if w == "print" then assert Upper(w) == "PRINT"; Print
    else Ident
  }

  /** A token the scan can hand out on line `line` or later: newlines and
      blank runs are consumed, never emitted, and columns count from 0. */
  predicate Emittable(t: Token, line: int) {
    t.kind != Newline && t.kind != Skip && t.kind != Mismatch && t.line >= line && t.column >= 0
  }

  /** A token together with the offset its match starts at. */
  datatype Located = Located(tok: Token, start: nat)

  /** The scan loop from offset `i`, with the running line number and the
      offset at which the current line starts. Newlines advance the line,
      blank runs are dropped, an unmatched character aborts the whole scan. */
  function Scan(s: string, i: nat, line: int, lineStart: nat): (r: Result<seq<Located>, LexError>)
    requires lineStart <= i <= |s|
    ensures r.Success? ==> |r.value| <= |s| - i
    ensures r.Success? ==> forall k :: 0 <= k < |r.value| ==> i <= r.value[k].start < |s|
    ensures r.Success? ==> forall k :: 0 <= k < |r.value| ==> Emittable(r.value[k].tok, line)
    ensures r.Failure? ==> !Accepted(r.error.ch) && r.error.line >= line
    decreases |s| - i
  {
    if i == |s| then Success([])
    else
      var (kind, j) := Match(s, i);
      if kind == Newline then Scan(s, j, line + 1, j)
      else if kind == Skip then Scan(s, j, line, lineStart)
      else if kind == Mismatch then Failure(LexError(s[i], line))
      else
        var lexeme := s[i..j];
        var k := if kind == Ident then Classify(lexeme) else kind;
        var rest :- Scan(s, j, line, lineStart);
        Success([Located(Token(k, lexeme, line, i - lineStart), i)] + rest)
  }

  function Tokens(ls: seq<Located>): (ts: seq<Token>)
    ensures |ts| == |ls|
    ensures forall k :: 0 <= k < |ls| ==> ts[k] == ls[k].tok
  {
    seq(|ls|, k requires 0 <= k < |ls| => ls[k].tok)
  }

  /** `lex(code)`: the tokens of the whole input, or the first unmatched
      character. */
  function Lex(code: string): (r: Result<seq<Token>, LexError>)
    ensures r.Success? ==> |r.value| <= |code| && forall k :: 0 <= k < |r.value| ==> Emittable(r.value[k], 1)
    ensures r.Failure? ==> !Accepted(r.error.ch) && r.error.line >= 1
  {
    var r :- Scan(code, 0, 1, 0);
    Success(Tokens(r))
  }
}
