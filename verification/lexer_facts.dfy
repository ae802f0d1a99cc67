/** What the scanner does on whole inputs: empty input, illegal characters, the two unterminated
    cases, string literals, identifiers, symbols, the keyword dead end, the line counter, and the
    whitespace example. */
module LexerFacts {

  import opened Wrappers
  import opened Strings
  import opened Tokens
  import opened Errors
  import opened Lexer
  import opened LexerLemmas

  /** `Lex` starts the loop at the first character, line 1, column 0, in START. */
  lemma LexIsRun(input: string, w: string -> bool)
    ensures var r := Run(input, w, 0, StartAt(1, 0), []);
      Tokenize(input, w) == r && Lex(input, w) == if r.stop.Some? then Failure(r.stop.value) else Success(r.tokens)
  {
  }

  /** `lex` reports what the run from START on line 1 ends with. */
  lemma LexOf(input: string, w: string -> bool, r: Scan)
    requires Run(input, w, 0, StartAt(1, 0), []) == r
    ensures Lex(input, w) == if r.stop.Some? then Failure(r.stop.value) else Success(r.tokens)
  {
    LexIsRun(input, w);
  }

  /** The input `""` is just EOF on line 1. */
  lemma LexEmpty(w: string -> bool)
    ensures Lex("", w) == Success([Token(Eof, Null, 1, 0)])
  {
    StepEnd("", w, StartAt(1, 0), []);
  }

  /** In START, a character that is not whitespace, does not begin a symbol or keyword, is not a
      quote and is not a letter stops the scan with an IllegalCharacterError at its position. */
  lemma IllegalAt(input: string, w: string -> bool, i: nat, line: int, col: int, acc: seq<Token>)
    requires i < |input|
    requires !IsSpace(input[i]) && input[i] !in "(){}[]-+=@" && input[i] != '"' && !IsAlpha(input[i])
    ensures Run(input, w, i, StartAt(line, col), acc)
         == Scan(acc, Some(LexError(IllegalCharacter, "Illegal character '" + [input[i]] + "'", line, col)))
  {
    StartsSymbol(input[i]);
    StartsKeyword(input[i]);
  }

  lemma LexIllegalCharacter(c: char, rest: string, w: string -> bool)
    requires !IsSpace(c) && c !in "(){}[]-+=@" && c != '"' && !IsAlpha(c)
    ensures Lex([c] + rest, w) == Failure(LexError(IllegalCharacter, "Illegal character '" + [c] + "'", 1, 0))
  {
    IllegalAt([c] + rest, w, 0, 1, 0, []);
  }

  /** A quote that is never closed: the rest of the input is the string's text, and the end of
      input raises UnterminatedTokenError. */
  lemma LexUnterminatedString(s: string, w: string -> bool)
    requires '"' !in s
    ensures Lex("\"" + s, w)
         == Failure(LexError(UnterminatedToken, "Unterminated string literal '" + s + "'", 1, |s| + 1))
  {
    var input := "\"" + s;
    OpenQuoteInput(s, input);
    StepStartQuote(input, w, 0, 1, 0, [], 1, 1);
    ScanStr(input, w, 1, 1 + |s|, LexState(Str, "", 1, 1), [], s, |s| + 1);
    var e := LexError(UnterminatedToken, "Unterminated string literal '" + s + "'", 1, |s| + 1);
    StepEndStr(input, w, 1 + |s|, LexState(Str, s, 1, |s| + 1), [], e);
    LexOf(input, w, Scan([], Some(e)));
  }

  /** A string literal's value is exactly the characters between the quotes, whitespace and
      newlines included; the line counter stays at 1. */
  lemma LexStringLiteral(s: string, w: string -> bool)
    requires '"' !in s
    ensures Lex("\"" + s + "\"", w)
         == Success([Token(StrLit, Text(s), 1, |s| + 1), Token(Eof, Null, 1, |s| + 2)])
  {
    var input := "\"" + s + "\"";
    QuotedInput(s, input);
    var t := Token(StrLit, Text(s), 1, |s| + 1);
    var eof := Token(Eof, Null, 1, |s| + 2);
    assert [] + [t] == [t] && [t] + [eof] == [t, eof];
    ReadString(input, w, 0, |s| + 1, 1, 0, [], t, |s| + 2, |s| + 2);
    StepEndStart(input, w, |s| + 2, 1, |s| + 2, [t]);
    LexOf(input, w, Scan([t, eof], None));
  }

  lemma OpenQuoteInput(s: string, input: string)
    requires input == "\"" + s
    ensures |input| == 1 + |s| && input[0] == '"' && input[1..1 + |s|] == s && "" + input[1..1 + |s|] == s
  {
    assert input[1..1 + |s|] == s;
  }

  lemma QuotedInput(s: string, input: string)
    requires input == "\"" + s + "\""
    ensures |input| == |s| + 2 && input[0] == '"' && input[|s| + 1] == '"' && input[1..|s| + 1] == s
  {
    assert input[1..|s| + 1] == s;
  }

  /** An identifier runs from its letter to the end of the input (no whitespace inside, so a `{`
      or `(` in it is absorbed) and is then classified. */
  lemma LexIdentifier(s: string, w: string -> bool)
    requires |s| > 0 && IsAlpha(s[0]) && NoSpace(s)
    ensures var cls := Classify(s, w, 1, |s|);
      Lex(s, w) == if cls.Failure? then Failure(cls.error) else Success([cls.value, Token(Eof, Null, 1, |s|)])
  {
    assert s[0..|s|] == s;
    ReadIdent(s, w, 0, |s|, 1, 0, [], s, |s|);
    LexIsRun(s, w);
  }

  /** Two brackets in a row are two tokens: a symbol never extends. */
  lemma LexSymbolPair(a: char, b: char, w: string -> bool)
    requires a in "(){}[]" && b in "(){}[]"
    ensures Lex([a, b], w) == Success([
      Token(Lookup(Symbols, [a]).value, Text([a]), 1, 1),
      Token(Lookup(Symbols, [b]).value, Text([b]), 1, 2),
      Token(Eof, Null, 1, 2)])
  {
    var input := [a, b];
    BracketsAreSymbols(a, b, input);
    var t1 := Token(Lookup(Symbols, [a]).value, Text([a]), 1, 1);
    var t2 := Token(Lookup(Symbols, [b]).value, Text([b]), 1, 2);
    var eof := Token(Eof, Null, 1, 2);
    assert [] + [t1] == [t1] && [t1] + [t2, eof] == [t1, t2, eof];
    ReadSymbolThen(input, w, 0, 1, 0, [], t1);
    ReadLastSymbol(input, w, 1, 1, 1, [t1], t2);
    LexOf(input, w, Scan([t1, t2, eof], None));
  }

  lemma BracketsAreSymbols(a: char, b: char, input: string)
    requires a in "(){}[]" && b in "(){}[]" && input == [a, b]
    ensures |input| == 2 && input[0] == a && input[1] == b
    ensures Lookup(Symbols, [a]).Some? && Lookup(Symbols, [b]).Some?
  {
    StartsSymbol(a);
    SymbolChar(a);
    StartsSymbol(b);
    SymbolChar(b);
  }

  /** A keyword cut short by the end of input raises UnterminatedTokenError. */
  lemma LexUnterminatedKeyword(s: string, w: string -> bool, idx: nat)
    requires |s| > 0 && idx < |Keywords| && StartsWith(Keywords[idx].0, s) && Lookup(Keywords, s).None?
    ensures Lex(s, w) == Failure(LexError(UnterminatedToken, "Unterminated keyword '" + s + "'", 1, |s|))
  {
    assert s[0..|s|] == s;
    KeywordBody(s, w, 0, |s|, 1, 0, [], idx, s, |s|);
    StepEnd(s, w, LexState(Kw, s, 1, |s|), []);
    LexIsRun(s, w);
  }

  /** A keyword cut short by whitespace is emitted anyway, with the `undefined` type. */
  lemma LexIncompleteKeyword(s: string, w: string -> bool, idx: nat)
    requires |s| > 0 && idx < |Keywords| && StartsWith(Keywords[idx].0, s) && Lookup(Keywords, s).None?
    ensures Lex(s + " ", w) == Success([Token(Undefined, Text(s), 1, |s|), Token(Eof, Null, 1, |s| + 1)])
  {
    var input := s + " ";
    assert input[0..|s|] == s && input[|s|] == ' ' && |input| == |s| + 1;
    var t := Token(Undefined, Text(s), 1, |s|);
    var st := LexState(Kw, s, 1, |s|);
    assert [] + [t] == [t];
    assert Reset(st) == StartAt(1, |s|);
    assert [] + [t] + [Token(Eof, Null, 1, |s| + 1)] == [t, Token(Eof, Null, 1, |s| + 1)];
    KeywordBody(input, w, 0, |s|, 1, 0, [], idx, s, |s|);
    StepKwEnd(input, w, |s|, st, [], t);
    StepSpace(input, w, |s|, 1, |s|, [t]);
    StepEndStart(input, w, |s| + 1, 1, |s| + 1, [t]);
    LexIsRun(input, w);
  }

  /** A keyword (or its beginning) followed by a character that neither is whitespace nor
      extends it leaves the KEYWORD state unchanged forever: the scan diverges. */
  lemma LexKeywordStuck(s: string, c: char, rest: string, w: string -> bool, idx: nat)
    requires |s| > 0 && idx < |Keywords| && StartsWith(Keywords[idx].0, s)
    requires !IsSpace(c) && !Starts(s + [c], Keywords)
    ensures Lex(s + [c] + rest, w) == Failure(Diverges(1, |s|))
  {
    var input := s + [c] + rest;
    assert input[0..|s|] == s && input[|s|] == c;
    ReadStuckKeyword(input, w, 0, |s|, 1, 0, [], idx, |s|);
    LexIsRun(input, w);
  }

  /** `=>(` is such an input. */
  lemma ArrowThenParenDiverges(w: string -> bool)
    ensures Lex("=>(", w) == Failure(Diverges(1, 2))
  {
    StartsIff("=>(", Keywords);
    forall k | 0 <= k < |Keywords| ensures !StartsWith(Keywords[k].0, "=>(") {
      if k == 3 {
        assert Keywords[k].0[..3][0] == '@' != "=>("[0];
      } else {
        assert |Keywords[k].0| < 3;
      }
    }
    assert "=>" + ['('] + "" == "=>(";
    LexKeywordStuck("=>", '(', "", w, 2);
  }

  // ---------------------------------------------------------------------------------------------
  // A scan that stops

  /** EOF is emitted only when the input ends cleanly: a run that stops with an error, from a
      prefix without EOF, has emitted no EOF either. */
  lemma {:induction false} StoppedHasNoEof(input: string, w: string -> bool, i: nat, st: LexState, acc: seq<Token>)
    requires i <= |input| && NoEof(acc)
    ensures var r := Run(input, w, i, st, acc); r.stop.Some? ==> NoEof(r.tokens)
    decreases |input| - i, Rank(st.mode)
  {
    if i < |input| {
      var c := input[i];
      match st.mode
      case Start =>
        if IsSpace(c) {
          if c == '\n' {
            StoppedHasNoEof(input, w, i + 1, st.(line := st.line + 1, col := 1), acc);
          } else {
            StoppedHasNoEof(input, w, i + 1, st.(col := st.col + 1), acc);
          }
        } else if Starts([c], Symbols) {
          StoppedHasNoEof(input, w, i + 1, Take(st, c).(mode := Sym), acc);
        } else if Starts([c], Keywords) {
          StoppedHasNoEof(input, w, i + 1, Take(st, c).(mode := Kw), acc);
        } else if c == '"' {
          StoppedHasNoEof(input, w, i + 1, st.(mode := Str, col := st.col + 1), acc);
        } else if IsAlpha(c) {
          StoppedHasNoEof(input, w, i + 1, Take(st, c).(mode := Ident), acc);
        }
      case Ident =>
        if !IsSpace(c) {
          StoppedHasNoEof(input, w, i + 1, Take(st, c), acc);
        } else if Classify(st.cur, w, st.line, st.col).Success? {
          var t := Classify(st.cur, w, st.line, st.col).value;
          StoppedHasNoEof(input, w, i, Reset(st), acc + [t]);
        }
      case Str =>
        if c == '"' {
          StoppedHasNoEof(input, w, i + 1, Reset(st).(col := st.col + 1), acc + [Token(StrLit, Text(st.cur), st.line, st.col)]);
        } else {
          StoppedHasNoEof(input, w, i + 1, Take(st, c), acc);
        }
      case Sym =>
        if Starts(st.cur + [c], Symbols) {
          StoppedHasNoEof(input, w, i + 1, Take(st, c), acc);
        } else {
          var t := Token(TypeOrUndefined(Lookup(Symbols, st.cur)), Text(st.cur), st.line, st.col);
          StoppedHasNoEof(input, w, i, Reset(st), acc + [t]);
        }
      case Kw =>
        if IsSpace(c) {
          var t := Token(TypeOrUndefined(Lookup(Keywords, st.cur)), Text(st.cur), st.line, st.col);
          StoppedHasNoEof(input, w, i, Reset(st), acc + [t]);
        } else if Starts(st.cur + [c], Keywords) {
          StoppedHasNoEof(input, w, i + 1, Take(st, c), acc);
        }
    }
  }

  /** `lex` fails exactly when the scan stops, and then no EOF was yielded before the error. */
  lemma LexFailsWithoutEof(input: string, w: string -> bool)
    ensures Tokenize(input, w).stop.Some? ==> NoEof(Tokenize(input, w).tokens)
    ensures Lex(input, w).Success? <==> Tokenize(input, w).stop.None?
  {
    LexIsRun(input, w);
    StoppedHasNoEof(input, w, 0, StartAt(1, 0), []);
  }

  // ---------------------------------------------------------------------------------------------
  // The line counter

  predicate NoQuoteFrom(input: string, i: nat) {
    forall k :: i <= k < |input| ==> input[k] != '"'
  }

  lemma CountFrom(input: string, i: nat)
    requires i < |input|
    ensures Count(input[i..], '\n') == (if input[i] == '\n' then 1 else 0) + Count(input[i + 1..], '\n')
  {
    assert input[i..][1..] == input[i + 1..];
  }

  /** States outside STRING, as the loop reaches them: START with no pending text, SYMBOL with
      its one character. */
  predicate Resting(st: LexState) {
    st.mode != Str && (st.mode == Start ==> st.cur == "") && (st.mode == Sym ==> |st.cur| == 1)
  }

  /** Without string literals the line of the final EOF is the starting line plus the newlines
      still to be read: every newline is consumed in START, which counts it. */
  lemma {:induction false} RunLines(input: string, w: string -> bool, i: nat, st: LexState, acc: seq<Token>)
    requires i <= |input| && NoQuoteFrom(input, i) && Resting(st)
    ensures var r := Run(input, w, i, st, acc);
      r.stop.None? ==> r.tokens[|r.tokens| - 1].line == st.line + Count(input[i..], '\n')
    decreases |input| - i, Rank(st.mode), 2
  {
    if i == |input| {
      StepEnd(input, w, st, acc);
      assert input[i..] == [];
    } else {
      match st.mode
      case Start =>
        if IsSpace(input[i]) {
          LinesSpace(input, w, i, st, acc);
        } else {
          LinesToken(input, w, i, st, acc);
        }
      case Ident => LinesIdent(input, w, i, st, acc);
      case Sym => LinesSym(input, w, i, st, acc);
      case Kw => LinesKw(input, w, i, st, acc);
    }
  }

  /** Whitespace in START: a newline is counted. */
  lemma {:induction false} LinesSpace(input: string, w: string -> bool, i: nat, st: LexState, acc: seq<Token>)
    requires i < |input| && NoQuoteFrom(input, i) && st.mode == Start && st.cur == "" && IsSpace(input[i])
    ensures var r := Run(input, w, i, st, acc);
      r.stop.None? ==> r.tokens[|r.tokens| - 1].line == st.line + Count(input[i..], '\n')
    decreases |input| - i, Rank(st.mode), 0
  {
    assert st == StartAt(st.line, st.col);
    CountFrom(input, i);
    StepSpace(input, w, i, st.line, st.col, acc);
    if input[i] == '\n' {
      RunLines(input, w, i + 1, StartAt(st.line + 1, 1), acc);
    } else {
      RunLines(input, w, i + 1, StartAt(st.line, st.col + 1), acc);
    }
  }

  /** The state START moves to on a character that begins a token. */
  function TokenStart(c: char, line: int, col: int): LexState {
    if Starts([c], Symbols) then LexState(Sym, [c], line, col + 1)
    else if Starts([c], Keywords) then LexState(Kw, [c], line, col + 1)
    else LexState(Ident, [c], line, col + 1)
  }

  lemma StepStartToken(input: string, w: string -> bool, i: nat, line: int, col: int, acc: seq<Token>)
    requires i < |input| && (Starts([input[i]], Symbols) || Starts([input[i]], Keywords) || IsAlpha(input[i]))
    ensures Run(input, w, i, StartAt(line, col), acc) == Run(input, w, i + 1, TokenStart(input[i], line, col), acc)
  {
    if Starts([input[i]], Symbols) {
      StepStartSym(input, w, i, line, col, acc);
    } else if Starts([input[i]], Keywords) {
      StepStartKw(input, w, i, line, col, acc);
    } else {
      StepStartAlpha(input, w, i, line, col, acc);
    }
  }

  /** Any other character in START begins a token (it is never a newline) or is illegal. */
  lemma {:induction false} LinesToken(input: string, w: string -> bool, i: nat, st: LexState, acc: seq<Token>)
    requires i < |input| && NoQuoteFrom(input, i) && st.mode == Start && st.cur == "" && !IsSpace(input[i])
    ensures var r := Run(input, w, i, st, acc);
      r.stop.None? ==> r.tokens[|r.tokens| - 1].line == st.line + Count(input[i..], '\n')
    decreases |input| - i, Rank(st.mode), 1
  {
    var c := input[i];
    assert st == StartAt(st.line, st.col);
    StartsSymbol(c);
    StartsKeyword(c);
    if Starts([c], Symbols) || Starts([c], Keywords) || IsAlpha(c) {
      StepStartToken(input, w, i, st.line, st.col, acc);
      LinesNext(input, w, i, st, acc, TokenStart(c, st.line, st.col));
    } else {
      IllegalAt(input, w, i, st.line, st.col, acc);
    }
  }

  /** A step that reads one character other than a newline and keeps the line. */
  lemma {:induction false} LinesNext(input: string, w: string -> bool, i: nat, st: LexState, acc: seq<Token>, next: LexState)
    requires i < |input| && NoQuoteFrom(input, i) && input[i] != '\n' && Resting(next) && next.line == st.line
    requires Run(input, w, i, st, acc) == Run(input, w, i + 1, next, acc)
    ensures var r := Run(input, w, i, st, acc);
      r.stop.None? ==> r.tokens[|r.tokens| - 1].line == st.line + Count(input[i..], '\n')
    decreases |input| - i, 0, 0
  {
    CountFrom(input, i);
    RunLines(input, w, i + 1, next, acc);
  }

  lemma {:induction false} LinesIdent(input: string, w: string -> bool, i: nat, st: LexState, acc: seq<Token>)
    requires i < |input| && NoQuoteFrom(input, i) && st.mode == Ident
    ensures var r := Run(input, w, i, st, acc);
      r.stop.None? ==> r.tokens[|r.tokens| - 1].line == st.line + Count(input[i..], '\n')
    decreases |input| - i, Rank(st.mode), 0
  {
    var c := input[i];
    if IsSpace(c) {
      StepIdentEnd(input, w, i, st, acc);
      var cls := Classify(st.cur, w, st.line, st.col);
      if cls.Success? {
        RunLines(input, w, i, Reset(st), acc + [cls.value]);
      }
    } else {
      CountFrom(input, i);
      StepIdentChar(input, w, i, st, acc);
      RunLines(input, w, i + 1, Take(st, c), acc);
    }
  }

  lemma {:induction false} LinesSym(input: string, w: string -> bool, i: nat, st: LexState, acc: seq<Token>)
    requires i < |input| && NoQuoteFrom(input, i) && st.mode == Sym && |st.cur| == 1
    ensures var r := Run(input, w, i, st, acc);
      r.stop.None? ==> r.tokens[|r.tokens| - 1].line == st.line + Count(input[i..], '\n')
    decreases |input| - i, Rank(st.mode), 0
  {
    NoTwoCharSymbol(st.cur + [input[i]]);
    StepSymEnd(input, w, i, st, acc);
    var t := Token(TypeOrUndefined(Lookup(Symbols, st.cur)), Text(st.cur), st.line, st.col);
    RunLines(input, w, i, Reset(st), acc + [t]);
  }

  lemma {:induction false} LinesKw(input: string, w: string -> bool, i: nat, st: LexState, acc: seq<Token>)
    requires i < |input| && NoQuoteFrom(input, i) && st.mode == Kw
    ensures var r := Run(input, w, i, st, acc);
      r.stop.None? ==> r.tokens[|r.tokens| - 1].line == st.line + Count(input[i..], '\n')
    decreases |input| - i, Rank(st.mode), 0
  {
    var c := input[i];
    if IsSpace(c) {
      var t := Token(TypeOrUndefined(Lookup(Keywords, st.cur)), Text(st.cur), st.line, st.col);
      StepKwEnd(input, w, i, st, acc, t);
      RunLines(input, w, i, Reset(st), acc + [t]);
    } else if Starts(st.cur + [c], Keywords) {
      CountFrom(input, i);
      StepKwExtend(input, w, i, st, acc);
      RunLines(input, w, i + 1, Take(st, c), acc);
    } else {
      StepKwStuck(input, w, i, st, acc);
    }
  }

  /** For input without string literals, the EOF token's line is 1 plus the number of newlines. */
  lemma LexLines(input: string, w: string -> bool)
    requires '"' !in input
    ensures Lex(input, w).Success? ==>
      Lex(input, w).value[|Lex(input, w).value| - 1].line == 1 + Count(input, '\n')
  {
    LexIsRun(input, w);
    assert input[0..] == input;
    RunLines(input, w, 0, StartAt(1, 0), []);
  }

  // ---------------------------------------------------------------------------------------------
  // Whitespace between tokens

  const ExampleLexemes: seq<Lexeme> :=
    [(Name, Text("foo")), (Name, Text("bar")), (Arrow, Text("=>")), (LParen, Text("("))]
  const ExampleSeps: seq<string> := [" ", " ", "\n", ""]

  lemma ExampleIsGood(w: string -> bool)
    ensures GoodLayout(ExampleLexemes, ExampleSeps, w)
  {
    var ls, seps := ExampleLexemes, ExampleSeps;
    KeywordTable("=>");
    SymbolTable("(");
    assert IsName("foo") && IsName("bar");
    assert GoodLayout(ls[3..], seps[3..], w);
    assert GoodLayout(ls[2..], seps[2..], w);
    assert GoodLayout(ls[1..], seps[1..], w);
  }

  lemma ExampleText()
    ensures Layout(ExampleLexemes, ExampleSeps) == "foo bar =>\n("
  {
    var ls, seps := ExampleLexemes, ExampleSeps;
    assert Layout(ls[3..], seps[3..]) == "(";
    assert Layout(ls[2..], seps[2..]) == "=>\n(";
    assert Layout(ls[1..], seps[1..]) == "bar =>\n(";
  }

  /** Whitespace produces no tokens: `foo bar =>` and a newline and `(` lex to NAME, NAME,
      ARROW, LPAREN and EOF. */
  lemma LexWhitespaceExample(w: string -> bool)
    ensures var r := Lex("foo bar =>\n(", w);
      r.Success? && StripAll(r.value) == [
        (Name, Text("foo")), (Name, Text("bar")), (Arrow, Text("=>")), (LParen, Text("(")), (Eof, Null)]
  {
    ExampleIsGood(w);
    ExampleText();
    LexLayout("foo bar =>\n(", w, ExampleLexemes, ExampleSeps);
  }
}
