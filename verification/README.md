# MiniLang front end in Dafny

This project models the front end of the MiniLang compiler: the lexer of
`src/lexer.py`, the recursive-descent parser of `src/parser.py` and the
semantic analyzer of `src/semantic_analyzer.py`. Each stage is a pure
function that returns either its output or its first error. The project
then proves what each stage promises.

- **Lexer** (`lexer.dfy`, module `Lexer`). The token table becomes a
  character-class scanner, `Match`, and `Lex` is the scan loop.
  - `Match` applies the table's first-match rule with greedy runs.
  - The scan counts lines and keeps the start offset of the current line.
  - Keywords get their upper-cased spelling as their kind.
  - Newlines and blank runs are dropped. An unmatched character ends the
    whole scan with `LexError(char, line)`.

  `lexer_facts.dfy` (`LexerFacts`) states these properties against
  reference definitions that never mention the scan:
  - where each token sits in the input, and its line and column;
  - what shape each lexeme has for its kind;
  - that tokens are greedy;
  - that the lexemes reassemble the input minus its blanks;
  - which inputs are rejected: every input with a character outside the
    alphabet, and every input with a `.` that lacks a digit on either side;
  - that every input made only of alphabet characters lexes;
  - that a failure reports the first character the scan cannot get past:
    the character has no rule, it starts a match on the scan's own path
    (so a `.` already read into a number never qualifies), at most one
    offset meets these conditions, and everything before it lexes.

  A `.` with a digit on each side is left undecided by these properties,
  since a number takes at most one dot: `1.5` lexes and `1.2.3` does not.
  `lexer_examples.dfy` (`LexerExamples`) works eight small inputs through the
  scanner: `x=-1`, `1.`, `.`, `."`, `1.5`, `1.2.3`, `1.2` then `.` on the
  next line, and `fn` then `  while` on the next line.
- **Parser** (`parser.dfy`, module `Parser`). Every grammar rule is a
  function from a cursor to `Success((value, next cursor))` or
  `Failure(ParseError)`. The rules mirror the source's methods: `Expect`,
  `Parse`, `ParseFunction` and the others.
  - `function` is split into `Signature` (everything before the body) and
    `Block`. Together they read the same tokens in the same order.
  - The operator loops of `expression` and `term` are `ExprTail` and
    `TermTail`.
  - The loop of `block` is `Statements`; the loop of `parse` is `Functions`.

  `unparser.dfy` (`Unparser`) is a printer from trees to tokens. It has no
  counterpart in the source; it exists to state the round trip.
  `parser_roundtrip.dfy` (`ParserRoundTrip`) proves that the parser reads
  every printed program back unchanged. That theorem settles precedence,
  left associativity and transparent parentheses, and shows that printed
  statements, parameters and functions are read back as built.
  `parser_facts.dfy` (`ParserFacts`) proves the remaining properties:
  - the token layout of any header, statement and block that parses;
  - which tokens may start a statement;
  - what the grammar refuses;
  - grouping examples;
  - that a token list cut inside a function never parses.
- **Semantic analyzer** (`semantics.dfy`, module `Semantics`). The symbol
  table is a `map<string, string>`.
  - `Declare`, `Assign` and `Lookup` are the three `SymbolTable` methods.
  - `ExprType` is `visit_expr` and `CheckStmt` is `visit_stmt`.
  - `CheckBody` is the statement loop of `visit_function`, and
    `CheckFunction` is `visit_function` itself.
  - `Analyze` with `AnalyzeFunctions` is `analyze`.

  `semantic_facts.dfy` (`SemanticFacts`) first characterises typing with
  no reference to the analyzer. It then proves the following:
  - every table the analyzer builds records `int` only;
  - a function passes exactly when each statement reads only names that
    earlier statements assigned, and no `return` appears in a function
    whose declared return type is not `int`;
  - a failing function fails with the error of its first statement that
    breaks that rule, and that error is always an undeclared name or a
    return mismatch with `int`;
  - a program passes exactly when each of its functions passes, and
    otherwise fails with the error of the first function that fails.

`results.dfy` (`Results`) holds `Option`, `Result` and `Outcome`.
`ast.dfy` (`Ast`) holds the syntax-tree dataclasses of `src/parser.py`.

The language the code accepts is small:
- The only statements are assignment, `return` and `print`. The lexer
  reserves `if`, `else` and `while`, but no rule of the parser reads them.
- The only values are integer and decimal literals, names and `+ - * /`.
  There are no string literals and no comparison operators, and no value
  is ever given the type `bool`.
- Variables have no declarations. The first assignment to a name binds it
  with the type of the value. The parser checks nothing about names; only
  the analyzer does.
- Every function has `: type` after its parameters, and every `return` has
  a value.
- The analyzer never enters the parameters in the table.

As a result, `fn main(): int { y = 1; return y; }` passes the analyzer
(`SemanticFacts.AssignmentDeclares`). `fn f(a: int, b: int)` is already
refused by the parser, because `int` lexes as a keyword and a parameter
type must be an identifier (`ParserFacts.ParamKeywordType`). Without
parameter types, the parameters are not in the table
(`SemanticFacts.ParameterReadRefused`).

## Model

| member | source | states |
|---|---|---|
| Lexer.RunEnd | src/lexer.py:19-20 | the end of a greedy run: every character before it is in the class and the character at it is not |
| Lexer.Classify | src/lexer.py:12-14 | a reserved word gets the kind spelled as its upper-cased text; any other identifier gets `IDENT` |
| Lexer.NumberEnd | src/lexer.py:18 | a number ends on a digit and is not followed by one; it holds only digits and `.`, and each `.` in it has a digit on either side |
| Lexer.Match | src/lexer.py:17-34 | the catch-all wins exactly on the characters no other alternative accepts, and a newline match exactly on `\n`, each taking one character; any other match holds only accepted characters and `.`, and a `.` only inside a number, with a digit on each side |
| Lexer.Scan | src/lexer.py:42-62 | every emitted token starts inside the unscanned rest of the input; there are at most as many tokens as characters; no token is a newline, blank run or mismatch; lines never go back and columns are never negative; a failure reports a character no alternative accepts |
| LexerFacts.NumberEndFacts | src/lexer.py:18 | a number lexeme is digits, optionally followed by `.` and at least one digit, and cannot be extended by the next character |
| LexerFacts.MatchFacts | src/lexer.py:17-31 | the catch-all matches exactly the characters no other rule accepts; a newline matches exactly `\n`; blank runs hold only blanks; no other match contains a blank or a line break |
| LexerFacts.MatchToken | src/lexer.py:42-53 | the token emitted for a match is the input text at its offset, with the line and column of that offset, maximal, and shaped for its kind |
| LexerFacts.ScanPlaced | src/lexer.py:39-62 | a successful scan places its tokens in order, without overlap, at their line and column, and every token is well formed |
| LexerFacts.ScanReassembles | src/lexer.py:42-62 | on success the lexemes concatenate to the scanned input with every space, tab and newline removed |
| LexerFacts.ScanFailureWitness | src/lexer.py:42-60 | a failed scan stops at some offset `p` (`StopsAt`): it reports the character there, which no rule accepts, with that character's line; `p` starts a match on the scan's path (`Reaches`), every earlier character is accepted or a `.`, and the scan of everything before `p` succeeds |
| LexerFacts.StopsAtUnique | src/lexer.py:42-60 | at most one offset is where a failed scan stops, so the offset `ScanFailureWitness` gives is the first character the scan cannot get past |
| LexerFacts.ReachesUnique | src/lexer.py:42-60 | at most one match start on the scan's path holds a character no rule accepts |
| LexerFacts.ReachesStep | src/lexer.py:42-60 | a match other than the catch-all extends the scan's path to the end of the match |
| LexerFacts.RunEndPrefix | src/lexer.py:17-31 | a character run that ends within a prefix of the input ends at the same place in that prefix |
| LexerFacts.MatchPrefix | src/lexer.py:17-31 | a match that ends within a prefix of the input is the same match in that prefix |
| LexerFacts.ScanFailureAt | src/lexer.py:42-60 | gives the offset of the character a failed scan reports: unaccepted, on the reported line, a match start on the scan's path, and with a successful scan of everything before it |
| LexerFacts.ScanPrefixStep | src/lexer.py:42-60 | a prefix of the input that holds the whole first match takes the same first step, so its scan succeeds when the rest of it does |
| LexerFacts.PrefixReadsAlphabet | src/lexer.py:30 | a prefix that scans successfully holds only accepted characters and dots |
| LexerFacts.ScanRejects | src/lexer.py:30 | any unaccepted character other than `.` in the rest of the input makes the scan fail |
| LexerFacts.ScanStrayDot | src/lexer.py:18-30 | a `.` in the rest of the input without a digit on either side makes the scan fail, since no number takes it |
| LexerFacts.ScanAccepts | src/lexer.py:42-62 | an input made only of accepted characters always scans |
| LexerFacts.LexReassembles | src/lexer.py:36-63 | `lex` output concatenates to the input minus blanks and newlines |
| LexerFacts.LexPositions | src/lexer.py:39-56 | each token of `lex` sits at an increasing offset: its line is 1 plus the newlines before it, and its column is the distance from the last line start |
| Lexer.Lex | src/lexer.py:36-63 | at most one token per input character; no token is NEWLINE, SKIP or MISMATCH; every token is on line 1 or later at a column of 0 or more; a failure reports a character no alternative accepts, on line 1 or later |
| LexerFacts.LexTokensWellFormed | src/lexer.py:47-62 | no token of `lex` has kind NEWLINE, SKIP or MISMATCH; numbers, operator runs and identifiers have their shapes; reserved words are reclassified |
| LexerFacts.LexFailureWitness | src/lexer.py:42-60 | a failing `lex` reports the first character it cannot get past, with its line: no rule accepts it, it starts a match on the scan's path from offset 0, every earlier character is accepted or a `.`, and `lex` of everything before it succeeds |
| LexerFacts.LexAlphabet | src/lexer.py:17-31 | an input with a character outside the accepted alphabet fails, and so does an input with a `.` that lacks a digit on either side; an input made only of accepted characters succeeds |
| LexerExamples.OperatorRun | src/lexer.py:20 | `x=-1` lexes to `IDENT x`, `OP =-`, `NUMBER 1` with their columns |
| LexerExamples.DanglingDot | src/lexer.py:18 | `1.` and `.` fail at the dot on line 1 |
| LexerExamples.DotAfterNumberLine | src/lexer.py:18-60 | `1.2` then `.` on the next line fails at that `.` on line 2 |
| LexerExamples.DotAfterNumberStop | src/lexer.py:18-60 | in `1.2` then `.` on the next line, the final `.` starts a match on the scan's path and the `.` inside `1.2` does not |
| LexerExamples.FirstStopReported | src/lexer.py:42-60 | in `."` both characters have no rule, and the error names the `.` on line 1 |
| LexerExamples.DottedNumbers | src/lexer.py:18 | `1.5` is one number token; `1.2.3` fails at its second dot |
| LexerExamples.KeywordLines | src/lexer.py:49-56 | `fn` then a newline and `  while` give `FN` at 1:0 and `WHILE` at 2:2 |
| Parser.Current | src/parser.py:67-68 | there is a current token exactly when the cursor is before the end, and it is the token at the cursor |
| Parser.Expect | src/parser.py:73-78 | succeeds exactly when the token at the cursor has the expected kind, and then returns that token and moves one step; otherwise the error names the expected kind and the token found, or none past the end |
| Parser.Expression | src/parser.py:157-164 | on success at least one token is consumed and every operator node built is `+ - * /` |
| Parser.ExprTail | src/parser.py:159-163 | the loop never moves back and keeps every operator arithmetic |
| Parser.Term | src/parser.py:166-173 | on success at least one token is consumed and every operator node is arithmetic |
| Parser.TermTail | src/parser.py:168-172 | the loop never moves back and keeps every operator arithmetic |
| Parser.Factor | src/parser.py:175-190 | on success at least one token is consumed and the tree is arithmetic |
| Parser.Statement | src/parser.py:127-154 | on success at least one token is consumed and the statement's expression is arithmetic |
| Parser.ReturnStatement | src/parser.py:130-134 | a return statement consumes tokens and holds an arithmetic value |
| Parser.PrintStatement | src/parser.py:136-142 | a print statement consumes tokens and holds an arithmetic value |
| Parser.AssignStatement | src/parser.py:144-151 | an assignment consumes tokens and holds an arithmetic value |
| Parser.Statements | src/parser.py:122-123 | the statement loop stops only at a `}` token, which it leaves for `expect` |
| Parser.Block | src/parser.py:119-125 | a block ends just after a `}` token and all its statements are arithmetic |
| Parser.Params | src/parser.py:105-117 | a parameter list that parses is not empty and consumes tokens |
| Parser.ParamList | src/parser.py:92 | the optional parameter list never moves the cursor back or past the end |
| Parser.ReturnType | src/parser.py:95-100 | the return type is one token of kind `IDENT` or `INT`, kept as spelled |
| Parser.ParseFunction | src/parser.py:88-103 | on success a function consumes tokens and all its statements are arithmetic |
| Parser.Signature | src/parser.py:89-100 | on success a header consumes tokens |
| Parser.Functions | src/parser.py:83-85 | every function read is arithmetic |
| Parser.Parse | src/parser.py:82-86 | every operator node of a parsed program is one of `+ - * /` |
| ParserRoundTrip.ExpressionRoundTrip | src/parser.py:157-190 | an arithmetic tree printed with minimal parentheses parses back to the same tree and consumes exactly the printed tokens |
| ParserRoundTrip.AssignRoundTrip | src/parser.py:144-151 | `name OP e ;` parses back to `VarAssign(name, e)` for any operator text |
| ParserRoundTrip.ReturnRoundTrip | src/parser.py:130-134 | `return e ;` parses back to `ReturnStmt(e)` |
| ParserRoundTrip.PrintRoundTrip | src/parser.py:136-142 | `print ( e ) ;` parses back to `PrintStmt(e)` |
| ParserRoundTrip.StmtRoundTrip | src/parser.py:127-154 | every printed statement parses back to itself |
| ParserRoundTrip.StatementsRoundTrip | src/parser.py:122-123 | a printed statement list followed by `}` parses back to the list and stops at the brace |
| ParserRoundTrip.BlockRoundTrip | src/parser.py:119-125 | a printed block parses back to its statements and ends after the `}` |
| ParserRoundTrip.ParamsRoundTrip | src/parser.py:105-117 | a printed non-empty parameter list parses back to itself |
| ParserRoundTrip.ParamListRoundTrip | src/parser.py:92 | a printed, possibly empty parameter list before `)` parses back to itself |
| ParserRoundTrip.SignatureRoundTrip | src/parser.py:89-100 | a printed header parses back to its name, parameters and return type |
| ParserRoundTrip.FunctionRoundTrip | src/parser.py:88-103 | a printed function with an `IDENT` or `INT` return-type token parses back to itself |
| ParserRoundTrip.PrintedFunctionRoundTrip | src/parser.py:88-103 | every printed function parses back to itself |
| ParserRoundTrip.FunctionBadReturnType | src/parser.py:95-100 | a header whose return-type token is neither `IDENT` nor `INT` (for example `float`) is refused at that token |
| ParserRoundTrip.FunctionsRoundTrip | src/parser.py:82-86 | the printed functions parse back one by one until the tokens run out |
| ParserRoundTrip.ProgramRoundTrip | src/parser.py:82-190 | `parse` of a printed arithmetic program gives the program back |
| ParserFacts.ParseEmptyIff | src/parser.py:82-86 | a token list parses to the empty program exactly when it is empty |
| ParserFacts.SignatureShape | src/parser.py:88-100 | a header reads `fn IDENT ( params ) : type`, where `type` is an `IDENT` or `INT` token; an empty parameter list is exactly an immediate `)` |
| ParserFacts.StatementShape | src/parser.py:127-154 | a statement that parses ends in `;`; after `return` comes the returned expression; after `print` come `(`, the printed expression and `)`; after an `IDENT` come an `OP` token and the assigned expression, and the identifier is the target |
| ParserFacts.BlockShape | src/parser.py:119-125 | a block that parses is `{`, the statements up to the first `}`, and that `}`; it is empty exactly when `}` follows `{` at once, and otherwise its first statement is the one read after `{` |
| ParserFacts.PrintNeedsParens | src/parser.py:136-142 | `print 1 ;` is refused at the `1`, where `(` was expected |
| ParserFacts.StatementStarts | src/parser.py:127-154 | only `RETURN`, `PRINT` and `IDENT` start a statement; any other token is refused as found |
| ParserFacts.ReturnNeedsValue | src/parser.py:130-134 | `return ;` is refused at the `;`, where a factor was expected |
| ParserFacts.ParamKeywordType | src/parser.py:108-110 | a parameter type that is not an `IDENT` token, such as the keyword `int`, is refused at that token |
| ParserFacts.ParenTransparent | src/parser.py:184-188 | `( e )` yields exactly the tree of `e`, with no wrapper node |
| ParserFacts.ExpressionOf | src/parser.py:157-190 | the printed tokens of a tree, on their own, parse to that tree and are all consumed |
| ParserFacts.LeftAssociative | src/parser.py:157-173 | two operators of the same level group to the left |
| ParserFacts.MulBindsTighterRight | src/parser.py:157-173 | in `a + b * c` the multiplicative operator groups first |
| ParserFacts.MulBindsTighterLeft | src/parser.py:157-173 | in `a * b + c` the multiplicative operator groups first |
| ParserFacts.StatementCut | src/parser.py:127-154 | a statement that parses from a prefix of the tokens parses the same way from the whole list |
| ParserFacts.ParseFunctionCut | src/parser.py:88-103 | a function that parses from a prefix of the tokens parses the same way from the whole list |
| ParserFacts.FunctionTruncated | src/parser.py:75-76 | a function cut short anywhere inside is refused, never read as a shorter function |
| ParserFacts.ParseCut | src/parser.py:82-86 | a cut token list parses only when the cut falls between functions, and then yields the leading functions of the whole program |
| Semantics.Declare | src/semantic_analyzer.py:13-16 | fails exactly when the name is bound; otherwise adds exactly that binding and keeps every other |
| Semantics.Assign | src/semantic_analyzer.py:18-22 | succeeds exactly when the name is bound to the same type and leaves the table as it was; otherwise fails as undeclared or as a mismatch |
| Semantics.Lookup | src/semantic_analyzer.py:24-27 | succeeds exactly for a bound name and returns its recorded type |
| Semantics.ExprType | src/semantic_analyzer.py:69-79 | a typed expression reads only names bound to its type, and is `int` whenever it contains a literal; on an all-`int` table it is `int` or fails as undeclared |
| Semantics.CheckStmt | src/semantic_analyzer.py:50-64 | the table only grows, by the assigned name at most, and no recorded type changes; on an all-`int` table it stays all-`int`, and the only errors are an undeclared name or `int` returned against another declared type |
| Semantics.CheckBody | src/semantic_analyzer.py:47-48 | no recorded type changes over a whole body; from an all-`int` table it stays all-`int`, and the only errors are an undeclared name or `int` returned against another declared type |
| Semantics.CheckFunction | src/semantic_analyzer.py:40-48 | a function fails only as undeclared or as a return mismatch between its own declared type and `int`; a repeated declaration, an assignment mismatch and an operand mismatch never happen |
| Semantics.AnalyzeFunctions | src/semantic_analyzer.py:36-38 | an empty list of functions passes; a failure is the verdict of one of the functions, and is an undeclared name or a return mismatch with `int` as the type found |
| Semantics.Analyze | src/semantic_analyzer.py:36-38 | a program fails only as undeclared or as a return mismatch with `int` as the type found |
| SemanticFacts.TableProtocol | src/semantic_analyzer.py:13-27 | after `declare`, `lookup` finds the type, `assign` of that type passes, another type is a mismatch, and a second `declare` fails |
| SemanticFacts.ExprTypeIff | src/semantic_analyzer.py:69-79 | an expression has type T exactly when every name it reads is bound to T and, if it has a literal, T is `int`; the operator plays no part |
| SemanticFacts.ExprTypeAllInt | src/semantic_analyzer.py:69-79 | on an all-`int` table an expression is `int`, or fails as undeclared at its leftmost unbound name |
| SemanticFacts.StmtAllInt | src/semantic_analyzer.py:50-64 | on an all-`int` table a statement passes exactly when its names are bound and it is not a `return` in a non-`int` function; it gives the exact error otherwise, and the table stays all-`int` |
| SemanticFacts.BodyIff | src/semantic_analyzer.py:47-56 | from an all-`int` table a body passes exactly when each statement reads only names bound before it; then the final table is all-`int` and binds exactly the assigned names as well |
| SemanticFacts.FunctionIff | src/semantic_analyzer.py:40-48 | a function passes exactly when its body declares before use starting from an empty table |
| SemanticFacts.ParamsIgnored | src/semantic_analyzer.py:40-48 | the parameter list does not affect the verdict |
| SemanticFacts.ReadBeforeAssignFails | src/semantic_analyzer.py:72-73 | reading a name before its first assignment fails, even if it is assigned later |
| SemanticFacts.CheckBodySplit | src/semantic_analyzer.py:47-48 | a body runs as any prefix followed by the rest on the table the prefix leaves, and an error in the prefix is the error of the whole |
| SemanticFacts.BodyFirstError | src/semantic_analyzer.py:47-61 | the first statement that breaks declaration before use gives the error of the whole body: its leftmost unbound read, or else a return mismatch with `int` |
| SemanticFacts.BodyFailsAt | src/semantic_analyzer.py:47-48 | a failing body has a first statement that breaks declaration before use |
| SemanticFacts.NonIntReturnFails | src/semantic_analyzer.py:58-61 | a function with any `return` fails when its declared return type is not `int`; if the statements before that return pass and it reads only assigned names, the error is the return mismatch of the declared type against `int` |
| SemanticFacts.AnalyzeIff | src/semantic_analyzer.py:36-38 | a program passes exactly when every function passes; otherwise the error is that of the first failing function, after all earlier ones passed |
| SemanticFacts.AssignmentDeclares | src/semantic_analyzer.py:51-56 | `y = 1; return y;` in an `int` function passes |
| SemanticFacts.BoolReturnRefused | src/semantic_analyzer.py:58-61 | `return 1;` in a `bool` function is a return mismatch, expected `bool` and got `int` |
| SemanticFacts.ParameterReadRefused | src/semantic_analyzer.py:40-48 | the tree of a function `f` with parameters `a` and `b` of type `int` whose body is `return a + b;` fails with `a` undeclared, because the parameters are never entered in the table |

## Left out

- Code generation, optimisation, JIT execution, the driver and packaging
  (`src/codegen.py`, `src/optimize.py`, `src/jit_runner.py`, `src/main.py`,
  `src/cli.py`, `setup.py`). They are foreign-library glue and file I/O.
  They also use syntax-tree classes that `src/parser.py` does not define.
- `pretty_print` (src/parser.py:194-205), the "Analyzing function" print
  (src/semantic_analyzer.py:45) and the `__main__` demos. These are console
  output only.
- The unused `global_scope` (src/semantic_analyzer.py:33).
- The regular-expression engine. The scanner works directly on characters.
  Digits are ASCII `0-9`, whereas Python's `\d` also matches other Unicode
  digits.
- Error messages and exception classes. They are tagged error values:
  - `LexError(char, line)` for the lexer's `RuntimeError`;
  - the `ParseError` constructors for `SyntaxError`;
  - `EndOfTokens` for the `AttributeError` raised when the parser reads
    the type of the absent token past the end;
  - one `SemanticError` constructor per message of the analyzer.
- The "Unknown statement" and "Unknown expression" branches of the
  analyzer (src/semantic_analyzer.py:66-67, 80-81). The syntax-tree types
  are closed datatypes here, so those branches cannot be reached.
- `while self.current()` in `parse` is modelled as "not at the end". A
  token is a non-empty tuple, so it is always truthy.
- Token positions in the round trip. The printer emits tokens at line 1,
  column 0. The parser never reads positions.
- Python's recursion limit. `expression`, `term` and `factor` call one
  another for every parenthesis (src/parser.py:157-190), and `visit_expr`
  recurses into both operands (src/semantic_analyzer.py:74-76). A few
  hundred nested parentheses, or a left-deep sum of about a thousand
  terms, raise `RecursionError` in the program. The model has no depth
  bound and returns a result for them.
- ParserRoundTrip.ProgramRoundTrip: covers only programs whose operators
  are `+ - * /`, because `Parser.Parse` never builds any other operator.

Source files outside the three named above are not part of this model.
