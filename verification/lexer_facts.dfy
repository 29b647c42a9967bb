/** What the lexer promises, stated against reference definitions that do not
    mention the scan: where each token sits in the input, what its text looks
    like, that the lexemes reassemble the input minus its blanks, which inputs
    are accepted, two sufficient conditions for rejection, and where a
    rejected input first fails. */
module LexerFacts {
  import opened Results
  import opened Lexer

  /** Number of line breaks strictly before offset `p`. */
  function NewlinesBefore(s: string, p: nat): nat
    requires p <= |s|
  {
    if p == 0 then 0 else NewlinesBefore(s, p - 1) + (if s[p - 1] == '\n' then 1 else 0)
  }

  /** The offset just after the last line break before `p`, or 0. */
  function LineStartOf(s: string, p: nat): nat
    requires p <= |s|
  {
    if p == 0 then 0 else if s[p - 1] == '\n' then p else LineStartOf(s, p - 1)
  }

  /** The input with every space, tab and line break removed. */
  function Strip(s: string): string {
    if s == [] then [] else (if IsBlank(s[0]) || s[0] == '\n' then [] else [s[0]]) + Strip(s[1..])
  }

  /** The lexemes of `ts`, concatenated in order. */
  function Concat(ts: seq<Token>): string {
    if ts == [] then [] else ts[0].lexeme + Concat(ts[1..])
  }

  predicate AllDigits(w: string) {
    |w| > 0 && forall k :: 0 <= k < |w| ==> IsDigit(w[k])
  }

  /** Digits, optionally followed by '.' and at least one digit. */
  predicate NumberShape(w: string) {
    AllDigits(w) || exists d :: 0 < d < |w| && w[d] == '.' && AllDigits(w[..d]) && AllDigits(w[d + 1..])
  }

  predicate IdentShape(w: string) {
    |w| > 0 && IsIdentStart(w[0]) && forall k :: 0 < k < |w| ==> IsIdentChar(w[k])
  }

  predicate OpShape(w: string) {
    |w| > 0 && forall k :: 0 <= k < |w| ==> IsOpChar(w[k])
  }

  /** The token a successful scan may emit: its text fits its kind, keywords
      carry their upper-cased spelling as kind, and the three table entries
      that are never tokens do not occur. */
  predicate WellFormedToken(t: Token) {
    match t.kind
    case Number => NumberShape(t.lexeme)
    case Op => OpShape(t.lexeme)
    case Newline => false
    case Skip => false
    case Mismatch => false
    case LParen => t.lexeme == "("
    case RParen => t.lexeme == ")"
    case LBrace => t.lexeme == "{"
    case RBrace => t.lexeme == "}"
    case Colon => t.lexeme == ":"
    case Comma => t.lexeme == ","
    case Semicolon => t.lexeme == ";"
    case _ =>
      && IdentShape(t.lexeme)
      && (t.lexeme in Keywords ==> KindName(t.kind) == Upper(t.lexeme))
      && (t.lexeme !in Keywords ==> t.kind == Ident)
  }

  /** Greedy runs: the character after a token cannot extend it. */
  predicate Maximal(s: string, t: Token, p: nat)
    requires p + |t.lexeme| <= |s|
  {
    var e := p + |t.lexeme|;
    if t.kind == Number then
      && (e == |s| || !IsDigit(s[e]))
      && (AllDigits(t.lexeme) ==> !(e + 1 < |s| && s[e] == '.' && IsDigit(s[e + 1])))
    else if t.kind == Op then e == |s| || !IsOpChar(s[e])
    else if IdentShape(t.lexeme) then e == |s| || !IsIdentChar(s[e])
    else true
  }

  /** Token `t` is the text of `s` at offset `p`, with the line and column
      of that offset. */
  predicate At(s: string, t: Token, p: nat) {
    && p + |t.lexeme| <= |s|
    && s[p..p + |t.lexeme|] == t.lexeme
    && t.line == 1 + NewlinesBefore(s, p)
    && t.column == p - LineStartOf(s, p)
    && Maximal(s, t, p)
  }

  /** `ts` occurs in `s` at the offsets `starts`, in order and without
      overlap. */
  predicate PlacedIn(s: string, ts: seq<Token>, starts: seq<nat>) {
    && |starts| == |ts|
    && (forall k :: 0 <= k < |ts| ==> At(s, ts[k], starts[k]))
    && (forall k :: 0 <= k < |ts| - 1 ==> starts[k] + |ts[k].lexeme| <= starts[k + 1])
  }

  function Starts(ls: seq<Located>): (ps: seq<nat>)
    ensures |ps| == |ls|
    ensures forall k :: 0 <= k < |ls| ==> ps[k] == ls[k].start
  {
    seq(|ls|, k requires 0 <= k < |ls| => ls[k].start)
  }

  // ---------------------------------------------------------------------
  // Scanner building blocks

  lemma {:induction false} NoNewlineSpan(s: string, i: nat, j: nat)
    requires i <= j <= |s|
    requires forall k :: i <= k < j ==> s[k] != '\n'
    ensures NewlinesBefore(s, j) == NewlinesBefore(s, i)
    ensures LineStartOf(s, j) == LineStartOf(s, i)
    decreases j - i
  {
    if i < j {
      NoNewlineSpan(s, i, j - 1);
    }
  }

  lemma NumberEndFacts(s: string, i: nat)
    requires i < |s| && IsDigit(s[i])
    ensures forall k :: i <= k < NumberEnd(s, i) ==> IsDigit(s[k]) || s[k] == '.'
    ensures NumberShape(s[i..NumberEnd(s, i)])
    ensures Maximal(s, Token(Number, s[i..NumberEnd(s, i)], 0, 0), i)
  {
    var d := RunEnd(s, i, Digits);
    var j := NumberEnd(s, i);
    var w := s[i..j];
    if d + 1 < |s| && s[d] == '.' && IsDigit(s[d + 1]) {
      assert j == RunEnd(s, d + 1, Digits);
      assert w[d - i] == '.' && !AllDigits(w);
      assert w[..d - i] == s[i..d];
      assert w[d - i + 1..] == s[d + 1..j];
      assert AllDigits(w[d - i + 1..]) by {
        assert forall k :: d + 1 <= k < j ==> IsDigit(s[k]);
      }
    } else {
      assert AllDigits(w);
    }
  }

  /** The per-match facts the scan relies on. */
  lemma MatchFacts(s: string, i: nat)
    requires i < |s|
    ensures var (kind, j) := Match(s, i);
      && (kind == Mismatch <==> !Accepted(s[i]))
      && (kind == Mismatch ==> j == i + 1)
      && (kind == Newline <==> s[i] == '\n')
      && (kind == Newline ==> j == i + 1)
      && (kind != Mismatch ==> forall k :: i <= k < j ==> Accepted(s[k]) || s[k] == '.')
      && (kind != Newline ==> forall k :: i <= k < j ==> s[k] != '\n')
      && (kind == Skip ==> forall k :: i <= k < j ==> IsBlank(s[k]))
      && (kind != Skip && kind != Newline ==> forall k :: i <= k < j ==> !IsBlank(s[k]))
  {
    if IsDigit(s[i]) {
      NumberEndFacts(s, i);
    }
  }

  /** The token the scan emits for a match at `i`. */
  function Emitted(s: string, i: nat, line: int, lineStart: nat): (t: Token)
    requires i < |s|
    ensures t.lexeme == s[i..Match(s, i).1]
  {
    var (kind, j) := Match(s, i);
    Token(if kind == Ident then Classify(s[i..j]) else kind, s[i..j], line, i - lineStart)
  }

  /** Each emitted token, placed where its match started. */
  lemma MatchToken(s: string, i: nat, line: int, lineStart: nat)
    requires lineStart <= i < |s|
    requires line == 1 + NewlinesBefore(s, i) && lineStart == LineStartOf(s, i)
    requires Match(s, i).0 !in {Newline, Skip, Mismatch}
    ensures At(s, Emitted(s, i, line, lineStart), i) && WellFormedToken(Emitted(s, i, line, lineStart))
  {
    MatchTokenAt(s, i, line, lineStart);
    MatchTokenShape(s, i, line, lineStart);
  }

  lemma MatchTokenAt(s: string, i: nat, line: int, lineStart: nat)
    requires lineStart <= i < |s|
    requires line == 1 + NewlinesBefore(s, i) && lineStart == LineStartOf(s, i)
    requires Match(s, i).0 !in {Newline, Skip, Mismatch}
    ensures At(s, Emitted(s, i, line, lineStart), i)
  {
    MatchMaximal(s, i, line, lineStart);
  }

  /** The character after an emitted token cannot extend it. */
  lemma MatchMaximal(s: string, i: nat, line: int, lineStart: nat)
    requires i < |s|
    requires Match(s, i).0 !in {Newline, Skip, Mismatch}
    ensures i + |Emitted(s, i, line, lineStart).lexeme| <= |s|
    ensures Maximal(s, Emitted(s, i, line, lineStart), i)
  {
    var j := Match(s, i).1;
    var t := Emitted(s, i, line, lineStart);
    assert |t.lexeme| == j - i;
    if IsDigit(s[i]) {
      NumberEndFacts(s, i);
      assert t.kind == Number;
    } else if IsIdentStart(s[i]) {
      assert j == RunEnd(s, i, IdentChars);
      assert IdentShape(t.lexeme);
    } else if IsOpChar(s[i]) {
      assert t.kind == Op && j == RunEnd(s, i, OpChars);
    }
  }

  lemma MatchTokenShape(s: string, i: nat, line: int, lineStart: nat)
    requires i < |s|
    requires Match(s, i).0 !in {Newline, Skip, Mismatch}
    ensures WellFormedToken(Emitted(s, i, line, lineStart))
  {
    var j := Match(s, i).1;
    var t := Emitted(s, i, line, lineStart);
    if IsDigit(s[i]) {
      NumberEndFacts(s, i);
      assert t.kind == Number;
    } else if IsIdentStart(s[i]) {
      assert j == RunEnd(s, i, IdentChars);
      assert IdentShape(t.lexeme);
      ClassifiedShape(t);
    } else if IsOpChar(s[i]) {
      assert t.kind == Op && j == RunEnd(s, i, OpChars);
      assert OpShape(t.lexeme);
    } else {
      assert t.kind == PunctKind(s[i]).value && t.lexeme == [s[i]];
    }
  }

  /** An identifier-shaped lexeme with the kind `Classify` gives it is a
      well-formed token. */
  lemma ClassifiedShape(t: Token)
    requires IdentShape(t.lexeme) && t.kind == Classify(t.lexeme)
    ensures WellFormedToken(t)
  {
  }

  /** A successful scan that emits a token at `i` is that token followed by
      the scan from the match end. */
  lemma ScanCons(s: string, i: nat, line: int, lineStart: nat)
    requires lineStart <= i < |s|
    requires Match(s, i).0 !in {Newline, Skip, Mismatch}
    requires Scan(s, i, line, lineStart).Success?
    ensures Scan(s, Match(s, i).1, line, lineStart).Success?
    ensures Scan(s, i, line, lineStart).value
         == [Located(Emitted(s, i, line, lineStart), i)] + Scan(s, Match(s, i).1, line, lineStart).value
  {
  }

  /** A newline or blank match at `i` is passed over; a mismatch ends the
      scan; a failure after a token is the failure of the whole scan. */
  lemma ScanStep(s: string, i: nat, line: int, lineStart: nat)
    requires lineStart <= i < |s|
    ensures var (kind, j) := Match(s, i);
      && (kind == Newline ==> Scan(s, i, line, lineStart) == Scan(s, j, line + 1, j))
      && (kind == Skip ==> Scan(s, i, line, lineStart) == Scan(s, j, line, lineStart))
      && (kind == Mismatch ==> Scan(s, i, line, lineStart) == Failure(LexError(s[i], line)))
      && (kind != Newline && kind != Skip && kind != Mismatch ==>
            (Scan(s, i, line, lineStart).Failure? <==> Scan(s, j, line, lineStart).Failure?) &&
            (Scan(s, j, line, lineStart).Failure? ==> Scan(s, i, line, lineStart) == Scan(s, j, line, lineStart)))
  {
  }

  /** The located tokens sit in `s` at their offsets, in order and without
      overlap, and each is well formed. */
  predicate Placed(s: string, ls: seq<Located>) {
    && PlacedIn(s, Tokens(ls), Starts(ls))
    && forall k :: 0 <= k < |ls| ==> WellFormedToken(ls[k].tok)
  }

  /** Prepending a placed, well-formed token that ends before every later
      start keeps a placed, well-formed list. */
  lemma PlacedCons(s: string, l: Located, rest: seq<Located>)
    requires At(s, l.tok, l.start) && WellFormedToken(l.tok)
    requires Placed(s, rest)
    requires forall k :: 0 <= k < |rest| ==> l.start + |l.tok.lexeme| <= rest[k].start
    ensures Placed(s, [l] + rest)
  {
    var ls := [l] + rest;
    assert forall k :: 0 < k < |ls| ==> ls[k] == rest[k - 1];
  }

  /** Positions, greediness and token shapes, for the scan from any offset
      that carries the right line and line start. */
  lemma {:induction false} ScanPlaced(s: string, i: nat, line: int, lineStart: nat)
    requires lineStart <= i <= |s|
    requires line == 1 + NewlinesBefore(s, i) && lineStart == LineStartOf(s, i)
    ensures var r := Scan(s, i, line, lineStart); r.Success? ==> Placed(s, r.value)
    decreases |s| - i
  {
    if i == |s| {
      assert Scan(s, i, line, lineStart) == Success([]);
      assert Placed(s, []);
    }
    hide Emitted, At, Placed, Scan;
    if i < |s| {
      var (kind, j) := Match(s, i);
      MatchFacts(s, i);
      ScanStep(s, i, line, lineStart);
      if kind == Newline {
        ScanPlaced(s, j, line + 1, j);
      } else if kind == Skip {
        NoNewlineSpan(s, i, j);
        ScanPlaced(s, j, line, lineStart);
      } else if kind != Mismatch {
        NoNewlineSpan(s, i, j);
        ScanPlaced(s, j, line, lineStart);
        ScanPlacedEmit(s, i, line, lineStart);
      }
    }
  }

  /** The emitting step of `ScanPlaced`: the emitted token, placed at `i`,
      in front of the placed tokens of the rest of the scan. */
  lemma ScanPlacedEmit(s: string, i: nat, line: int, lineStart: nat)
    requires lineStart <= i < |s|
    requires line == 1 + NewlinesBefore(s, i) && lineStart == LineStartOf(s, i)
    requires Match(s, i).0 !in {Newline, Skip, Mismatch}
    requires var r := Scan(s, Match(s, i).1, line, lineStart); r.Success? ==> Placed(s, r.value)
    ensures var r := Scan(s, i, line, lineStart); r.Success? ==> Placed(s, r.value)
  {
    hide Emitted, At, Placed, Scan;
    MatchToken(s, i, line, lineStart);
    if Scan(s, i, line, lineStart).Success? {
      ScanStep(s, i, line, lineStart);
      ScanCons(s, i, line, lineStart);
      PlacedCons(s, Located(Emitted(s, i, line, lineStart), i), Scan(s, Match(s, i).1, line, lineStart).value);
    }
  }

  lemma {:induction false} StripAppend(a: string, b: string)
    ensures Strip(a + b) == Strip(a) + Strip(b)
  {
    if a == [] {
      assert a + b == b;
    } else {
      assert (a + b)[0] == a[0];
      assert (a + b)[1..] == a[1..] + b;
      StripAppend(a[1..], b);
    }
  }

  lemma {:induction false} StripKeeps(w: string)
    requires forall k :: 0 <= k < |w| ==> !IsBlank(w[k]) && w[k] != '\n'
    ensures Strip(w) == w
  {
    if w != [] {
      StripKeeps(w[1..]);
    }
  }

  lemma {:induction false} StripDrops(w: string)
    requires forall k :: 0 <= k < |w| ==> IsBlank(w[k]) || w[k] == '\n'
    ensures Strip(w) == []
  {
    if w != [] {
      StripDrops(w[1..]);
    }
  }

  /** Stripping the rest of the input from `i` splits at a match end `j`. */
  lemma StripSplit(s: string, i: nat, j: nat)
    requires i <= j <= |s|
    ensures Strip(s[i..]) == Strip(s[i..j]) + Strip(s[j..])
  {
    assert s[i..] == s[i..j] + s[j..];
    StripAppend(s[i..j], s[j..]);
  }

  /** A successful scan that emits a token at `i` spells out its lexeme
      first, then the lexemes of the scan from the match end. */
  lemma ScanConcatStep(s: string, i: nat, line: int, lineStart: nat)
    requires lineStart <= i < |s|
    requires Match(s, i).0 !in {Newline, Skip, Mismatch}
    requires Scan(s, i, line, lineStart).Success?
    ensures Scan(s, Match(s, i).1, line, lineStart).Success?
    ensures Concat(Tokens(Scan(s, i, line, lineStart).value))
         == s[i..Match(s, i).1] + Concat(Tokens(Scan(s, Match(s, i).1, line, lineStart).value))
  {
    ScanCons(s, i, line, lineStart);
    var j := Match(s, i).1;
    var r := Scan(s, i, line, lineStart).value;
    var rest := Scan(s, j, line, lineStart).value;
    assert Tokens(r)[0].lexeme == s[i..j];
    assert Tokens(r)[1..] == Tokens(rest);
  }

  lemma {:induction false} ScanReassembles(s: string, i: nat, line: int, lineStart: nat)
    requires lineStart <= i <= |s|
    ensures var r := Scan(s, i, line, lineStart);
      r.Success? ==> Concat(Tokens(r.value)) == Strip(s[i..])
    decreases |s| - i
  {
    if i < |s| {
      var (kind, j) := Match(s, i);
      MatchFacts(s, i);
      StripSplit(s, i, j);
      if kind == Newline {
        StripDrops(s[i..j]);
        ScanReassembles(s, j, line + 1, j);
      } else if kind == Skip {
        StripDrops(s[i..j]);
        ScanReassembles(s, j, line, lineStart);
      } else if kind != Mismatch {
        StripKeeps(s[i..j]);
        ScanReassembles(s, j, line, lineStart);
        if Scan(s, i, line, lineStart).Success? {
          ScanConcatStep(s, i, line, lineStart);
        }
      }
    }
  }

  lemma {:induction false} ScanFailureWitness(s: string, i: nat, line: int, lineStart: nat)
    requires lineStart <= i <= |s|
    requires line == 1 + NewlinesBefore(s, i) && lineStart == LineStartOf(s, i)
    ensures Scan(s, i, line, lineStart).Failure? ==> exists p :: StopsAt(s, i, line, lineStart, p)
  {
    hide Scan;
    if Scan(s, i, line, lineStart).Failure? {
      var p := ScanFailureAt(s, i, line, lineStart);
      PrefixReadsAlphabet(s, i, line, lineStart, p);
      assert StopsAt(s, i, line, lineStart, p);
    }
  }

  /** Offset `p` is where one of the scan's matches from `i` starts: the
      matches from `i` on, none of them the catch-all, end exactly at `p`. */
  predicate Reaches(s: string, i: nat, p: nat)
    requires i <= p <= |s|
    decreases p - i
  {
    i == p || (i < p && Match(s, i).0 != Mismatch && Match(s, i).1 <= p && Reaches(s, Match(s, i).1, p))
  }

  /** A match that is not the catch-all carries the path on to its end. */
  lemma ReachesStep(s: string, i: nat, p: nat)
    requires i < |s| && Match(s, i).0 != Mismatch && Match(s, i).1 <= p <= |s|
    requires Reaches(s, Match(s, i).1, p)
    ensures Reaches(s, i, p)
  {
  }

  /** At most one offset on the scan's path holds a character no rule
      accepts before the scan reaches it: that is where the scan stops. */
  lemma {:induction false} ReachesUnique(s: string, i: nat, p1: nat, p2: nat)
    requires i <= p1 < |s| && i <= p2 < |s|
    requires Reaches(s, i, p1) && !Accepted(s[p1])
    requires Reaches(s, i, p2) && !Accepted(s[p2])
    ensures p1 == p2
    decreases p1 - i
  {
    if i < p1 && i < p2 {
      ReachesUnique(s, Match(s, i).1, p1, p2);
    }
  }

  /** The scan from `i` fails and reports the character at `p`, which no
      rule accepts, with its line; `p` is a match start on the scan's path,
      every character from `i` up to `p` is accepted or a `.`, and the scan
      of everything before `p` succeeds. By `ReachesUnique` at most one `p`
      qualifies, so it is the first place the scan cannot get past. */
  predicate StopsAt(s: string, i: nat, line: int, lineStart: nat, p: nat)
    requires lineStart <= i <= |s|
  {
    var r := Scan(s, i, line, lineStart);
    && r.Failure? && i <= p < |s| && s[p] == r.error.ch && !Accepted(s[p])
    && r.error.line == 1 + NewlinesBefore(s, p)
    && Reaches(s, i, p)
    && (forall q :: i <= q < p ==> Accepted(s[q]) || s[q] == '.')
    && Scan(s[..p], i, line, lineStart).Success?
  }

  /** The offset a failed scan stops at is unique. */
  lemma StopsAtUnique(s: string, i: nat, line: int, lineStart: nat, p1: nat, p2: nat)
    requires lineStart <= i <= |s|
    requires StopsAt(s, i, line, lineStart, p1) && StopsAt(s, i, line, lineStart, p2)
    ensures p1 == p2
  {
    ReachesUnique(s, i, p1, p2);
  }

  /** A prefix that scans successfully holds only accepted characters and
      dots from the scan's start on. */
  lemma PrefixReadsAlphabet(s: string, i: nat, line: int, lineStart: nat, p: nat)
    requires lineStart <= i <= p <= |s| && Scan(s[..p], i, line, lineStart).Success?
    ensures forall q :: i <= q < p ==> Accepted(s[q]) || s[q] == '.'
  {
    forall q | i <= q < p
      ensures Accepted(s[q]) || s[q] == '.'
    {
      if !Accepted(s[q]) && s[q] != '.' {
        ScanRejects(s[..p], i, line, lineStart, q);
      }
    }
  }

  /** A run that ends at or before `n` ends at the same place in `s[..n]`. */
  lemma {:induction false} RunEndPrefix(s: string, i: nat, cls: CharClass, n: nat)
    requires i <= |s| && RunEnd(s, i, cls) <= n <= |s|
    ensures RunEnd(s[..n], i, cls) == RunEnd(s, i, cls)
    decreases |s| - i
  {
    if i < |s| && InClass(s[i], cls) {
      RunEndPrefix(s, i + 1, cls, n);
    }
  }

  /** A match that ends at or before `n` is the same match in `s[..n]`: no
      rule looks past the end of what it takes, except the check for a
      fraction, and that fails on `s[..n]` whenever it fails on `s`. */
  lemma MatchPrefix(s: string, i: nat, n: nat)
    requires i < |s| && Match(s, i).1 <= n <= |s|
    ensures i < n && Match(s[..n], i) == Match(s, i)
  {
    var c := s[i];
    if IsDigit(c) {
      var d := RunEnd(s, i, Digits);
      RunEndPrefix(s, i, Digits, n);
      if d + 1 < |s| && s[d] == '.' && IsDigit(s[d + 1]) {
        RunEndPrefix(s, d + 1, Digits, n);
      }
    } else if IsIdentStart(c) {
      RunEndPrefix(s, i, IdentChars, n);
    } else if IsOpChar(c) {
      RunEndPrefix(s, i, OpChars, n);
    } else if IsBlank(c) {
      RunEndPrefix(s, i, Blanks, n);
    }
  }

  /** The offset of the character a failed scan reports; the scan of
      everything before it succeeds, so it is the first character the scan
      cannot get past. */
  lemma {:induction false} ScanFailureAt(s: string, i: nat, line: int, lineStart: nat) returns (p: nat)
    requires lineStart <= i <= |s|
    requires line == 1 + NewlinesBefore(s, i) && lineStart == LineStartOf(s, i)
    requires Scan(s, i, line, lineStart).Failure?
    ensures i <= p < |s| && s[p] == Scan(s, i, line, lineStart).error.ch && !Accepted(s[p])
    ensures Scan(s, i, line, lineStart).error.line == 1 + NewlinesBefore(s, p)
    ensures Reaches(s, i, p)
    ensures Scan(s[..p], i, line, lineStart).Success?
    decreases |s| - i
  {
    if i == |s| {
      assert false;
    }
    assert Scan(s[..i], i, line, lineStart).Success? && Reaches(s, i, i);
    hide Scan, Match, Reaches;
    var (kind, j) := Match(s, i);
    MatchFacts(s, i);
    ScanStep(s, i, line, lineStart);
    if kind == Mismatch {
      p := i;
    } else {
      var (line', lineStart') := if kind == Newline then (line + 1, j) else (line, lineStart);
      if kind != Newline {
        NoNewlineSpan(s, i, j);
      }
      p := ScanFailureAt(s, j, line', lineStart');
      ScanPrefixStep(s, i, line, lineStart, p);
      ReachesStep(s, i, p);
    }
  }

  /** One step of the scan of a prefix `s[..n]` that holds the whole first
      match: the step is the one taken on `s`, so the prefix scan from `i`
      succeeds when the prefix scan from the end of the match does. */
  lemma ScanPrefixStep(s: string, i: nat, line: int, lineStart: nat, n: nat)
    requires lineStart <= i < |s| && Match(s, i).0 != Mismatch && Match(s, i).1 <= n <= |s|
    requires var j := Match(s, i).1;
      if Match(s, i).0 == Newline then Scan(s[..n], j, line + 1, j).Success?
      else Scan(s[..n], j, line, lineStart).Success?
    ensures Scan(s[..n], i, line, lineStart).Success?
  {
    MatchPrefix(s, i, n);
    ScanStep(s[..n], i, line, lineStart);
  }

  lemma {:induction false} ScanRejects(s: string, i: nat, line: int, lineStart: nat, p: nat)
    requires lineStart <= i <= p < |s|
    requires !Accepted(s[p]) && s[p] != '.'
    ensures Scan(s, i, line, lineStart).Failure?
    decreases |s| - i
  {
    var (kind, j) := Match(s, i);
    MatchFacts(s, i);
    if kind == Newline {
      ScanRejects(s, j, line + 1, j, p);
    } else if kind == Skip {
      ScanRejects(s, j, line, lineStart, p);
    } else if kind != Mismatch {
      ScanRejects(s, j, line, lineStart, p);
    }
  }

  /** A '.' without a digit on each side (or at the very offset the scan
      starts from) is never taken into a number, so the scan fails on it or
      earlier. */
  lemma {:induction false} ScanStrayDot(s: string, i: nat, line: int, lineStart: nat, p: nat)
    requires lineStart <= i <= p < |s|
    requires s[p] == '.' && !(i < p && BetweenDigits(s, p))
    ensures Scan(s, i, line, lineStart).Failure?
    decreases |s| - i
  {
    var (kind, j) := Match(s, i);
    ScanStep(s, i, line, lineStart);
    if kind == Newline {
      ScanStrayDot(s, j, line + 1, j, p);
    } else if kind != Mismatch {
      ScanStrayDot(s, j, line, lineStart, p);
    }
  }

  lemma {:induction false} ScanAccepts(s: string, i: nat, line: int, lineStart: nat)
    requires lineStart <= i <= |s|
    requires forall p :: i <= p < |s| ==> Accepted(s[p])
    ensures Scan(s, i, line, lineStart).Success?
    decreases |s| - i
  {
    if i < |s| {
      var (kind, j) := Match(s, i);
      MatchFacts(s, i);
      if kind == Newline {
        ScanAccepts(s, j, line + 1, j);
      } else {
        ScanAccepts(s, j, line, lineStart);
      }
    }
  }

  // ---------------------------------------------------------------------
  // The lexer's promises

  /** Concatenating the lexemes gives the input with its spaces, tabs and
      line breaks removed; nothing else is dropped or altered. */
  lemma LexReassembles(code: string)
    ensures Lex(code).Success? ==> Concat(Lex(code).value) == Strip(code)
  {
    ScanReassembles(code, 0, 1, 0);
    assert code[0..] == code;
  }

  /** Tokens come out in source order; each is the text at its offset, its
      line is one plus the line breaks before it and its column counts from
      the character after the last line break. Runs are greedy. */
  lemma LexPositions(code: string)
    ensures Lex(code).Success? ==> exists starts :: PlacedIn(code, Lex(code).value, starts)
  {
    ScanPlaced(code, 0, 1, 0);
    var r := Scan(code, 0, 1, 0);
    if r.Success? {
      assert PlacedIn(code, Lex(code).value, Starts(r.value));
    }
  }

  /** Every emitted token has a lexeme of its kind's shape, keywords are
      reclassified to their upper-cased spelling, and no token is a line
      break, a blank run or a mismatch. */
  lemma LexTokensWellFormed(code: string)
    ensures Lex(code).Success? ==> forall k :: 0 <= k < |Lex(code).value| ==> WellFormedToken(Lex(code).value[k])
  {
    ScanPlaced(code, 0, 1, 0);
  }

  /** A failed lex names a character of the input that no rule accepts,
      with the line it is on; the character starts a match on the scan's
      path, so it is the first stopping point, and everything before it
      lexes. */
  lemma LexFailureWitness(code: string)
    ensures Lex(code).Failure? ==>
      exists p :: 0 <= p < |code| && code[p] == Lex(code).error.ch && !Accepted(code[p])
                  && Lex(code).error.line == 1 + NewlinesBefore(code, p)
                  && Reaches(code, 0, p)
                  && (forall q :: 0 <= q < p ==> Accepted(code[q]) || code[q] == '.')
                  && Lex(code[..p]).Success?
  {
    ScanFailureWitness(code, 0, 1, 0);
  }

  /** Any character outside the token alphabet, and any '.' without a digit
      on each side, makes the whole lex fail; an input made only of alphabet
      characters always lexes. */
  lemma LexAlphabet(code: string)
    ensures (exists p :: 0 <= p < |code| && !Accepted(code[p]) && code[p] != '.') ==> Lex(code).Failure?
    ensures (exists p :: 0 <= p < |code| && code[p] == '.' && !BetweenDigits(code, p)) ==> Lex(code).Failure?
    ensures (forall p :: 0 <= p < |code| ==> Accepted(code[p])) ==> Lex(code).Success?
  {
    if p :| 0 <= p < |code| && !Accepted(code[p]) && code[p] != '.' {
      ScanRejects(code, 0, 1, 0, p);
    }
    if p :| 0 <= p < |code| && code[p] == '.' && !BetweenDigits(code, p) {
      ScanStrayDot(code, 0, 1, 0, p);
    }
    if forall p :: 0 <= p < |code| ==> Accepted(code[p]) {
      ScanAccepts(code, 0, 1, 0);
    }
  }
}
