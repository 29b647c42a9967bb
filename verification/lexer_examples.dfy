/** Small inputs worked through the scanner: a maximal operator run, dots
    that a number does and does not take, where a failing scan stops, and
    keyword reclassification across a line break. */
module LexerExamples {
  import opened Results
  import opened Lexer
  import LexerFacts

  /** `x=-1`: the operator alternative takes the whole run `=-`, so the
      minus never reaches the number. */
  lemma OperatorRun()
    ensures Lex("x=-1") == Success([Token(Ident, "x", 1, 0), Token(Op, "=-", 1, 1), Token(Number, "1", 1, 3)])
  {
    var a := Located(Token(Ident, "x", 1, 0), 0);
    var b := Located(Token(Op, "=-", 1, 1), 1);
    var c := Located(Token(Number, "1", 1, 3), 3);
    OperatorRunScan();
    assert Tokens([a, b, c]) == [a.tok, b.tok, c.tok];
  }

  lemma OperatorRunMatches()
    ensures Match("x=-1", 0) == (Ident, 1) && Match("x=-1", 1) == (Op, 3) && Match("x=-1", 3) == (Number, 4)
  {
    var s := "x=-1";
    assert RunEnd(s, 1, IdentChars) == 1;
    assert RunEnd(s, 3, OpChars) == 3;
    assert RunEnd(s, 3, Digits) == 4;
  }

  lemma OperatorRunScan()
    ensures Scan("x=-1", 0, 1, 0) ==
      Success([Located(Token(Ident, "x", 1, 0), 0), Located(Token(Op, "=-", 1, 1), 1), Located(Token(Number, "1", 1, 3), 3)])
  {
    var s := "x=-1";
    OperatorRunMatches();
    assert Scan(s, 4, 1, 0) == Success([]);
    var a := Located(Token(Ident, "x", 1, 0), 0);
    var b := Located(Token(Op, "=-", 1, 1), 1);
    var c := Located(Token(Number, "1", 1, 3), 3);
    var r3 := Scan(s, 3, 1, 0);
    assert r3.Success? && |r3.value| == 1 && r3.value[0] == c;
    assert r3.value == [c];
    var r1 := Scan(s, 1, 1, 0);
    assert r1.Success? && |r1.value| == 2 && r1.value[0] == b && r1.value[1..] == [c];
    assert r1.value == [b, c];
    var r0 := Scan(s, 0, 1, 0);
    assert r0.Success? && |r0.value| == 3 && r0.value[0] == a && r0.value[1..] == [b, c];
    assert r0.value == [a, b, c];
  }

  /** A '.' is only ever read as part of a number with digits on both
      sides; `1.` leaves it for the catch-all and the whole input fails. */
  lemma DanglingDot()
    ensures Lex("1.") == Failure(LexError('.', 1))
    ensures Lex(".") == Failure(LexError('.', 1))
  {
  }

  /** Both characters of `."` stop the scan; the error names the first. */
  lemma FirstStopReported()
    ensures Lex(".\"") == Failure(LexError('.', 1))
  {
  }

  /** The dot inside `1.2` is read into the number; the stray dot on the
      next line is where the scan stops, and the error names line 2. */
  lemma DotAfterNumberLine()
    ensures Lex("1.2\n.") == Failure(LexError('.', 2))
  {
  }

  /** In `1.2\n.` the stop is the dot at offset 4, on the scan's path; the
      dot at offset 1 lies inside the number and is never a match start. */
  lemma DotAfterNumberStop()
    ensures LexerFacts.Reaches("1.2\n.", 0, 4)
    ensures !LexerFacts.Reaches("1.2\n.", 0, 1)
  {
    assert Match("1.2\n.", 0) == (Number, 3);
    assert Match("1.2\n.", 3) == (Newline, 4);
  }

  /** A dot between digits is read into the number once: `1.5` is one
      number, but in `1.2.3` the second dot follows a complete number and
      fails, although it too has a digit on each side. */
  lemma DottedNumbers()
    ensures Lex("1.5") == Success([Token(Number, "1.5", 1, 0)])
    ensures Lex("1.2.3") == Failure(LexError('.', 1))
  {
    var s := "1.5";
    assert RunEnd(s, 1, Digits) == 1;
    assert RunEnd(s, 3, Digits) == 3;
    assert s[0..3] == "1.5";
    var r := Scan(s, 0, 1, 0);
    var a := Located(Token(Number, "1.5", 1, 0), 0);
    assert r.Success? && |r.value| == 1 && r.value[0] == a;
    assert r.value == [a];
    assert Tokens([a]) == [a.tok];
    var t := "1.2.3";
    assert RunEnd(t, 1, Digits) == 1;
    assert RunEnd(t, 3, Digits) == 3;
  }

  /** Keywords take their upper-cased spelling as kind; after a line break
      the line advances and columns restart at 0. */
  lemma KeywordLines()
    ensures Lex("fn\n  while") == Success([Token(Fn, "fn", 1, 0), Token(While, "while", 2, 2)])
  {
    var a := Located(Token(Fn, "fn", 1, 0), 0);
    var b := Located(Token(While, "while", 2, 2), 5);
    KeywordLinesScan();
    assert Tokens([a, b]) == [a.tok, b.tok];
  }

  lemma KeywordLinesMatches()
    ensures var s := "fn\n  while";
      Match(s, 0) == (Ident, 2) && Match(s, 2) == (Newline, 3) && Match(s, 3) == (Skip, 5) && Match(s, 5) == (Ident, 10)
  {
    KeywordLinesWords();
    KeywordLinesGap();
  }

  lemma KeywordLinesWords()
    ensures var s := "fn\n  while"; Match(s, 0) == (Ident, 2) && Match(s, 5) == (Ident, 10)
  {
    var s := "fn\n  while";
    assert RunEnd(s, 2, IdentChars) == 2;
    assert RunEnd(s, 10, IdentChars) == 10;
  }

  lemma KeywordLinesGap()
    ensures var s := "fn\n  while"; Match(s, 2) == (Newline, 3) && Match(s, 3) == (Skip, 5)
  {
    var s := "fn\n  while";
    assert RunEnd(s, 5, Blanks) == 5;
  }

  lemma KeywordLinesScan()
    ensures Scan("fn\n  while", 0, 1, 0) == Success([Located(Token(Fn, "fn", 1, 0), 0), Located(Token(While, "while", 2, 2), 5)])
  {
    var s := "fn\n  while";
    KeywordLinesMatches();
    KeywordLinesTail();
    assert s[0..2] == "fn";
    assert Classify("fn") == Fn;
    var a := Located(Token(Fn, "fn", 1, 0), 0);
    var b := Located(Token(While, "while", 2, 2), 5);
    var r0 := Scan(s, 0, 1, 0);
    assert r0.Success? && |r0.value| == 2 && r0.value[0] == a && r0.value[1..] == [b];
    assert r0.value == [a, b];
  }

  /** The scan after the first token: the line break and the blanks are
      dropped, and `while` is the one token on line 2. */
  lemma KeywordLinesTail()
    ensures Scan("fn\n  while", 2, 1, 0) == Success([Located(Token(While, "while", 2, 2), 5)])
  {
    var s := "fn\n  while";
    KeywordLinesMatches();
    assert s[5..10] == "while";
    assert Classify("while") == While;
    var b := Located(Token(While, "while", 2, 2), 5);
    assert Scan(s, 10, 2, 3) == Success([]);
    var r5 := Scan(s, 5, 2, 3);
    assert r5.Success? && |r5.value| == 1 && r5.value[0] == b;
    assert r5.value == [b];
    assert Scan(s, 2, 1, 0) == r5;
  }
}
