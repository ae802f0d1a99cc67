/** Properties of the scanner: how each kind of token is read, the error cases, the line
    counter, and a round trip from laid-out token texts back to the tokens. */
module LexerLemmas {

  import opened Wrappers
  import opened Strings
  import opened Tokens
  import opened Errors
  import opened Lexer

  /** A token without its position. */
  type Lexeme = (TokenType, TokenValue)

  function Strip(t: Token): Lexeme {
    (t.tokenType, t.value)
  }

  function StripAll(ts: seq<Token>): (r: seq<Lexeme>)
    ensures |r| == |ts| && forall k :: 0 <= k < |ts| ==> r[k] == Strip(ts[k])
  {
    seq(|ts|, k requires 0 <= k < |ts| => Strip(ts[k]))
  }

  predicate NoSpace(s: string) {
    forall m :: 0 <= m < |s| ==> !IsSpace(s[m])
  }

  predicate AllSpace(s: string) {
    forall m :: 0 <= m < |s| ==> IsSpace(s[m])
  }

  /** Where the cursor is after START has skipped the whitespace `s`. */
  function AfterSpaces(line: int, col: int, s: string): (int, int)
    decreases |s|
  {
    if s == [] then (line, col)
    else if s[0] == '\n' then AfterSpaces(line + 1, 1, s[1..])
    else AfterSpaces(line, col + 1, s[1..])
  }

  function StartAt(line: int, col: int): LexState {
    LexState(Start, "", line, col)
  }

  // ---------------------------------------------------------------------------------------------
  // Single steps of the loop

  lemma StepIdentChar(input: string, w: string -> bool, i: nat, st: LexState, acc: seq<Token>)
    requires st.mode == Ident && i < |input| && !IsSpace(input[i])
    ensures Run(input, w, i, st, acc) == Run(input, w, i + 1, Take(st, input[i]), acc)
  {
  }

  lemma StepStrChar(input: string, w: string -> bool, i: nat, st: LexState, acc: seq<Token>)
    requires st.mode == Str && i < |input| && input[i] != '"'
    ensures Run(input, w, i, st, acc) == Run(input, w, i + 1, Take(st, input[i]), acc)
  {
  }

  lemma StepKwChar(input: string, w: string -> bool, i: nat, st: LexState, acc: seq<Token>, idx: nat)
    requires st.mode == Kw && i < |input| && !IsSpace(input[i])
    requires idx < |Keywords| && StartsWith(Keywords[idx].0, st.cur + [input[i]])
    ensures Run(input, w, i, st, acc) == Run(input, w, i + 1, Take(st, input[i]), acc)
  {
    assert Starts(st.cur + [input[i]], Keywords);
  }

  lemma StepKwExtend(input: string, w: string -> bool, i: nat, st: LexState, acc: seq<Token>)
    requires st.mode == Kw && i < |input| && !IsSpace(input[i]) && Starts(st.cur + [input[i]], Keywords)
    ensures Run(input, w, i, st, acc) == Run(input, w, i + 1, Take(st, input[i]), acc)
  {
  }

  lemma StepKwStuck(input: string, w: string -> bool, i: nat, st: LexState, acc: seq<Token>)
    requires st.mode == Kw && i < |input| && !IsSpace(input[i]) && !Starts(st.cur + [input[i]], Keywords)
    ensures Run(input, w, i, st, acc) == Scan(acc, Some(Diverges(st.line, st.col)))
  {
  }

  lemma StepSpace(input: string, w: string -> bool, i: nat, line: int, col: int, acc: seq<Token>)
    requires i < |input| && IsSpace(input[i])
    ensures Run(input, w, i, StartAt(line, col), acc)
         == if input[i] == '\n' then Run(input, w, i + 1, StartAt(line + 1, 1), acc)
            else Run(input, w, i + 1, StartAt(line, col + 1), acc)
  {
  }

  // ---------------------------------------------------------------------------------------------
  // One state at a time

  /** Splitting off the first of the characters `input[i..j]` read after `cur`. */
  lemma TakeHead(input: string, i: nat, j: nat, cur: string)
    requires i < j <= |input|
    ensures input[i..j][0] == input[i] && input[i + 1..j] == input[i..j][1..]
    ensures (cur + [input[i]]) + input[i + 1..j] == cur + input[i..j]
  {
    assert input[i..j] == [input[i]] + input[i + 1..j];
  }

  /** In ID every non-whitespace character is absorbed, whatever it is: reading `input[i..j]`
      leaves the text `text` and the column `endCol`. */
  lemma {:induction false} ScanIdent(input: string, w: string -> bool, i: nat, j: nat, st: LexState, acc: seq<Token>,
                                     text: string, endCol: int)
    requires st.mode == Ident && i <= j <= |input| && NoSpace(input[i..j])
    requires text == st.cur + input[i..j] && endCol == st.col + (j - i)
    ensures Run(input, w, i, st, acc) == Run(input, w, j, LexState(Ident, text, st.line, endCol), acc)
    decreases j - i
  {
    if i < j {
      TakeHead(input, i, j, st.cur);
      StepIdentChar(input, w, i, st, acc);
      ScanIdent(input, w, i + 1, j, Take(st, input[i]), acc, text, endCol);
    } else {
      assert text == st.cur + [] == st.cur;
    }
  }

  /** In STRING every character other than `"` is absorbed, whitespace and newlines included,
      and the line counter does not move. */
  lemma {:induction false} ScanStr(input: string, w: string -> bool, i: nat, j: nat, st: LexState, acc: seq<Token>,
                                   text: string, endCol: int)
    requires st.mode == Str && i <= j <= |input| && '"' !in input[i..j]
    requires text == st.cur + input[i..j] && endCol == st.col + (j - i)
    ensures Run(input, w, i, st, acc) == Run(input, w, j, LexState(Str, text, st.line, endCol), acc)
    decreases j - i
  {
    if i < j {
      TakeHead(input, i, j, st.cur);
      StepStrChar(input, w, i, st, acc);
      ScanStr(input, w, i + 1, j, Take(st, input[i]), acc, text, endCol);
    } else {
      assert text == st.cur + [] == st.cur;
    }
  }

  /** A prefix of a prefix of `s` is a prefix of `s`. */
  lemma StartsWithPrefix(s: string, a: string, b: string)
    requires StartsWith(s, a + b)
    ensures StartsWith(s, a)
  {
    assert s[..|a|] == (a + b)[..|a|] == a;
  }

  /** Splitting off the first of the keyword characters `input[i..j]` read after `cur`. */
  lemma KwHead(input: string, i: nat, j: nat, cur: string, idx: nat)
    requires i < j <= |input| && NoSpace(input[i..j])
    requires idx < |Keywords| && StartsWith(Keywords[idx].0, cur + input[i..j])
    ensures !IsSpace(input[i]) && NoSpace(input[i + 1..j])
    ensures (cur + [input[i]]) + input[i + 1..j] == cur + input[i..j]
    ensures StartsWith(Keywords[idx].0, cur + [input[i]])
  {
    assert !IsSpace(input[i..j][0]);
    assert input[i + 1..j] == input[i..j][1..];
    assert cur + input[i..j] == (cur + [input[i]]) + input[i + 1..j];
    StartsWithPrefix(Keywords[idx].0, cur + [input[i]], input[i + 1..j]);
  }

  /** In KEYWORD a character is absorbed while the text read so far still begins a keyword
      (here the one at index `idx` of the table): reading `input[i..j]` leaves the text `text`
      and the column `endCol`. */
  lemma {:induction false} ScanKw(input: string, w: string -> bool, i: nat, j: nat, st: LexState, acc: seq<Token>,
                                  idx: nat, text: string, endCol: int)
    requires st.mode == Kw && i <= j <= |input| && NoSpace(input[i..j])
    requires idx < |Keywords| && StartsWith(Keywords[idx].0, st.cur + input[i..j])
    requires text == st.cur + input[i..j] && endCol == st.col + (j - i)
    ensures Run(input, w, i, st, acc) == Run(input, w, j, LexState(Kw, text, st.line, endCol), acc)
    decreases j - i
  {
    if i < j {
      KwHead(input, i, j, st.cur, idx);
      StepKwChar(input, w, i, st, acc, idx);
      ScanKw(input, w, i + 1, j, Take(st, input[i]), acc, idx, text, endCol);
    } else {
      assert text == st.cur + [] == st.cur;
    }
  }

  /** Whitespace in START produces nothing; only the position moves. */
  lemma {:induction false} SkipSpaces(input: string, w: string -> bool, i: nat, k: nat, line: int, col: int, acc: seq<Token>)
    requires i + k <= |input| && AllSpace(input[i..i + k])
    ensures Run(input, w, i, StartAt(line, col), acc)
         == Run(input, w, i + k, StartAt(AfterSpaces(line, col, input[i..i + k]).0,
                                         AfterSpaces(line, col, input[i..i + k]).1), acc)
    decreases k
  {
    if k > 0 {
      var c := input[i];
      assert input[i..i + k][0] == c && IsSpace(c);
      assert input[i + 1..i + k] == input[i..i + k][1..];
      StepSpace(input, w, i, line, col, acc);
      if c == '\n' {
        SkipSpaces(input, w, i + 1, k - 1, line + 1, 1, acc);
      } else {
        SkipSpaces(input, w, i + 1, k - 1, line, col + 1, acc);
      }
    }
  }

  /** What a first character in START leads to. */
  lemma StartCases(c: char)
    ensures IsAlpha(c) ==> !IsSpace(c) && !Starts([c], Symbols) && !Starts([c], Keywords) && c != '"'
    ensures c == '"' ==> !IsSpace(c) && !Starts([c], Symbols) && !Starts([c], Keywords)
    ensures Starts([c], Keywords) ==> !IsSpace(c) && !Starts([c], Symbols)
    ensures Starts([c], Symbols) ==> !IsSpace(c)
  {
    StartsSymbol(c);
    StartsKeyword(c);
  }

  lemma StepStartSym(input: string, w: string -> bool, i: nat, line: int, col: int, acc: seq<Token>)
    requires i < |input| && Starts([input[i]], Symbols)
    ensures Run(input, w, i, StartAt(line, col), acc)
         == Run(input, w, i + 1, LexState(Sym, [input[i]], line, col + 1), acc)
  {
    StartCases(input[i]);
    assert "" + [input[i]] == [input[i]];
  }

  lemma StepStartKw(input: string, w: string -> bool, i: nat, line: int, col: int, acc: seq<Token>)
    requires i < |input| && Starts([input[i]], Keywords)
    ensures Run(input, w, i, StartAt(line, col), acc)
         == Run(input, w, i + 1, LexState(Kw, [input[i]], line, col + 1), acc)
  {
    StartCases(input[i]);
    assert "" + [input[i]] == [input[i]];
  }

  lemma StepStartQuote(input: string, w: string -> bool, i: nat, line: int, col: int, acc: seq<Token>,
                        next: nat, col2: int)
    requires i < |input| && input[i] == '"' && next == i + 1 && col2 == col + 1
    ensures Run(input, w, i, StartAt(line, col), acc) == Run(input, w, next, LexState(Str, "", line, col2), acc)
  {
    StartCases(input[i]);
  }

  lemma StepStartAlpha(input: string, w: string -> bool, i: nat, line: int, col: int, acc: seq<Token>)
    requires i < |input| && IsAlpha(input[i])
    ensures Run(input, w, i, StartAt(line, col), acc)
         == Run(input, w, i + 1, LexState(Ident, [input[i]], line, col + 1), acc)
  {
    StartCases(input[i]);
    assert "" + [input[i]] == [input[i]];
  }

  lemma StepIdentEnd(input: string, w: string -> bool, i: nat, st: LexState, acc: seq<Token>)
    requires st.mode == Ident && i < |input| && IsSpace(input[i])
    ensures var cls := Classify(st.cur, w, st.line, st.col);
      Run(input, w, i, st, acc) ==
        if cls.Failure? then Scan(acc, Some(cls.error)) else Run(input, w, i, Reset(st), acc + [cls.value])
  {
  }

  lemma StepStrEnd(input: string, w: string -> bool, i: nat, st: LexState, acc: seq<Token>, t: Token, endCol: int,
                    next: nat)
    requires st.mode == Str && i < |input| && input[i] == '"' && next == i + 1
    requires t == Token(StrLit, Text(st.cur), st.line, st.col) && endCol == st.col + 1
    ensures Run(input, w, i, st, acc) == Run(input, w, next, StartAt(st.line, endCol), acc + [t])
  {
  }

  lemma StepSymEnd(input: string, w: string -> bool, i: nat, st: LexState, acc: seq<Token>)
    requires st.mode == Sym && i < |input| && !Starts(st.cur + [input[i]], Symbols)
    ensures Run(input, w, i, st, acc)
         == Run(input, w, i, Reset(st), acc + [Token(TypeOrUndefined(Lookup(Symbols, st.cur)), Text(st.cur), st.line, st.col)])
  {
  }

  lemma StepKwEnd(input: string, w: string -> bool, i: nat, st: LexState, acc: seq<Token>, t: Token)
    requires st.mode == Kw && i < |input| && IsSpace(input[i])
    requires t == Token(TypeOrUndefined(Lookup(Keywords, st.cur)), Text(st.cur), st.line, st.col)
    ensures Run(input, w, i, st, acc) == Run(input, w, i, StartAt(st.line, st.col), acc + [t])
  {
  }

  /** At the end of input in START only EOF is left to emit. */
  lemma StepEndStart(input: string, w: string -> bool, i: nat, line: int, col: int, acc: seq<Token>)
    requires i == |input|
    ensures Run(input, w, i, StartAt(line, col), acc) == Scan(acc + [Token(Eof, Null, line, col)], None)
  {
  }

  /** The end of the input inside a string literal. */
  lemma StepEndStr(input: string, w: string -> bool, i: nat, st: LexState, acc: seq<Token>, e: Error)
    requires i == |input| && st.mode == Str
    requires e == LexError(UnterminatedToken, "Unterminated string literal '" + st.cur + "'", st.line, st.col)
    ensures Run(input, w, i, st, acc) == Scan(acc, Some(e))
  {
  }

  lemma StepEnd(input: string, w: string -> bool, st: LexState, acc: seq<Token>)
    ensures Run(input, w, |input|, st, acc) == Finish(w, st, acc)
  {
  }

  // ---------------------------------------------------------------------------------------------
  // Reading one token from START

  /** From START, a letter and the non-whitespace characters after it are read into ID. */
  lemma IdentBody(input: string, w: string -> bool, i: nat, j: nat, line: int, col: int, acc: seq<Token>,
                   text: string, endCol: int)
    requires i < j <= |input| && IsAlpha(input[i]) && NoSpace(input[i..j])
    requires text == input[i..j] && endCol == col + (j - i)
    ensures Run(input, w, i, StartAt(line, col), acc) == Run(input, w, j, LexState(Ident, text, line, endCol), acc)
  {
    TakeHead(input, i, j, "");
    StepStartAlpha(input, w, i, line, col, acc);
    ScanIdent(input, w, i + 1, j, LexState(Ident, [input[i]], line, col + 1), acc, text, endCol);
  }

  /** An identifier runs from a letter to the next whitespace or the end of input, and is then
      classified. */
  lemma ReadIdent(input: string, w: string -> bool, i: nat, j: nat, line: int, col: int, acc: seq<Token>,
                   text: string, endCol: int)
    requires i < j <= |input| && IsAlpha(input[i]) && NoSpace(input[i..j])
    requires j == |input| || IsSpace(input[j])
    requires text == input[i..j] && endCol == col + (j - i)
    ensures var cls := Classify(text, w, line, endCol);
      Run(input, w, i, StartAt(line, col), acc) ==
        if cls.Failure? then Scan(acc, Some(cls.error))
        else if j == |input| then Scan(acc + [cls.value, Token(Eof, Null, line, endCol)], None)
        else Run(input, w, j, StartAt(line, endCol), acc + [cls.value])
  {
    IdentBody(input, w, i, j, line, col, acc, text, endCol);
    var st2 := LexState(Ident, text, line, endCol);
    if j == |input| {
      StepEnd(input, w, st2, acc);
    } else {
      StepIdentEnd(input, w, j, st2, acc);
    }
  }
  /** An identifier that classifies as `tok`. */
  lemma ReadClassified(input: string, w: string -> bool, i: nat, j: nat, line: int, col: int, acc: seq<Token>,
                        text: string, endCol: int, tok: Token)
    requires i < j <= |input| && IsAlpha(input[i]) && NoSpace(input[i..j])
    requires j == |input| || IsSpace(input[j])
    requires text == input[i..j] && endCol == col + (j - i) && Classify(text, w, line, endCol) == Success(tok)
    ensures Run(input, w, i, StartAt(line, col), acc) ==
        if j == |input| then Scan(acc + [tok, Token(Eof, Null, line, endCol)], None)
        else Run(input, w, j, StartAt(line, endCol), acc + [tok])
  {
    ReadIdent(input, w, i, j, line, col, acc, text, endCol);
  }


  /** A string literal's value is exactly the characters between its quotes. */
  lemma ReadString(input: string, w: string -> bool, i: nat, j: nat, line: int, col: int, acc: seq<Token>,
                   t: Token, endCol: int, next: nat)
    requires i < j < |input| && input[i] == '"' && input[j] == '"' && '"' !in input[i + 1..j]
    requires t == Token(StrLit, Text(input[i + 1..j]), line, col + (j - i)) && endCol == col + (j - i) + 1
    requires next == j + 1
    ensures Run(input, w, i, StartAt(line, col), acc) == Run(input, w, next, StartAt(line, endCol), acc + [t])
  {
    var st := LexState(Str, input[i + 1..j], line, col + (j - i));
    OpenString(input, w, i, j, line, col, acc, st);
    StepStrEnd(input, w, j, st, acc, t, endCol, next);
  }

  /** From the opening quote to the closing one, in STRING. */
  lemma OpenString(input: string, w: string -> bool, i: nat, j: nat, line: int, col: int, acc: seq<Token>,
                   st: LexState)
    requires i < j <= |input| && input[i] == '"' && '"' !in input[i + 1..j]
    requires st == LexState(Str, input[i + 1..j], line, col + (j - i))
    ensures Run(input, w, i, StartAt(line, col), acc) == Run(input, w, j, st, acc)
  {
    StepStartQuote(input, w, i, line, col, acc, i + 1, col + 1);
    assert "" + input[i + 1..j] == input[i + 1..j];
    ScanStr(input, w, i + 1, j, LexState(Str, "", line, col + 1), acc, input[i + 1..j], col + (j - i));
  }

  lemma NoTwoCharSymbol(s: string)
    requires |s| == 2
    ensures !Starts(s, Symbols)
  {
    SymbolTable(s);
  }

  /** The symbol characters are the ones a symbol lookup finds. */
  lemma SymbolChar(c: char)
    ensures Lookup(Symbols, [c]).Some? <==> Starts([c], Symbols)
  {
    SymbolTable([c]);
    StartsSymbol(c);
  }

  /** A symbol character is a token on its own: the next character never extends it. */
  lemma ReadSymbol(input: string, w: string -> bool, i: nat, line: int, col: int, acc: seq<Token>)
    requires i < |input| && Lookup(Symbols, [input[i]]).Some?
    ensures var t := Token(Lookup(Symbols, [input[i]]).value, Text([input[i]]), line, col + 1);
      Run(input, w, i, StartAt(line, col), acc) ==
        if i + 1 == |input| then Scan(acc + [t, Token(Eof, Null, line, col + 1)], None)
        else Run(input, w, i + 1, StartAt(line, col + 1), acc + [t])
  {
    var t := Token(Lookup(Symbols, [input[i]]).value, Text([input[i]]), line, col + 1);
    if i + 1 == |input| {
      ReadLastSymbol(input, w, i, line, col, acc, t);
    } else {
      ReadSymbolThen(input, w, i, line, col, acc, t);
    }
  }

  /** A symbol followed by more input: one character, then back to START. */
  lemma ReadSymbolThen(input: string, w: string -> bool, i: nat, line: int, col: int, acc: seq<Token>, t: Token)
    requires i + 1 < |input| && Lookup(Symbols, [input[i]]).Some?
    requires t == Token(Lookup(Symbols, [input[i]]).value, Text([input[i]]), line, col + 1)
    ensures Run(input, w, i, StartAt(line, col), acc) == Run(input, w, i + 1, StartAt(line, col + 1), acc + [t])
  {
    var c := input[i];
    SymbolChar(c);
    NoTwoCharSymbol([c, input[i + 1]]);
    StepStartSym(input, w, i, line, col, acc);
    StepSymEnd(input, w, i + 1, LexState(Sym, [c], line, col + 1), acc);
  }

  /** A symbol at the end of input: the symbol, then EOF. */
  lemma ReadLastSymbol(input: string, w: string -> bool, i: nat, line: int, col: int, acc: seq<Token>, t: Token)
    requires i + 1 == |input| && Lookup(Symbols, [input[i]]).Some?
    requires t == Token(Lookup(Symbols, [input[i]]).value, Text([input[i]]), line, col + 1)
    ensures Run(input, w, i, StartAt(line, col), acc) == Scan(acc + [t, Token(Eof, Null, line, col + 1)], None)
  {
    SymbolChar(input[i]);
    StepStartSym(input, w, i, line, col, acc);
    StepEnd(input, w, LexState(Sym, [input[i]], line, col + 1), acc);
  }

  /** The keywords hold no whitespace. */
  lemma KeywordChars(idx: nat)
    requires idx < |Keywords|
    ensures |Keywords[idx].0| > 0 && NoSpace(Keywords[idx].0)
    ensures Starts([Keywords[idx].0[0]], Keywords)
  {
    var kw := Keywords[idx].0;
    assert [kw[0]] + kw[1..] == kw;
    StartsWithPrefix(kw, [kw[0]], kw[1..]);
    StartsIff([kw[0]], Keywords);
  }

  /** The first character of a keyword's beginning starts a keyword, and the rest holds no
      whitespace. */
  lemma KwFirst(input: string, i: nat, j: nat, idx: nat)
    requires i < j <= |input| && idx < |Keywords| && StartsWith(Keywords[idx].0, input[i..j])
    ensures Starts([input[i]], Keywords) && NoSpace(input[i + 1..j])
    ensures StartsWith(Keywords[idx].0, [input[i]] + input[i + 1..j])
    ensures [input[i]] + input[i + 1..j] == input[i..j]
  {
    var kw := Keywords[idx].0;
    KeywordChars(idx);
    assert kw[0] == input[i..j][0] == input[i];
    var body := input[i + 1..j];
    forall m | 0 <= m < |body| ensures !IsSpace(body[m]) {
      assert body[m] == kw[m + 1];
    }
    assert [input[i]] + input[i + 1..j] == input[i..j];
  }

  /** From START, a non-empty beginning of a keyword is read into KEYWORD. */
  lemma KeywordBody(input: string, w: string -> bool, i: nat, j: nat, line: int, col: int, acc: seq<Token>, idx: nat,
                     text: string, endCol: int)
    requires i < j <= |input| && idx < |Keywords| && StartsWith(Keywords[idx].0, input[i..j])
    requires text == input[i..j] && endCol == col + (j - i)
    ensures Run(input, w, i, StartAt(line, col), acc) == Run(input, w, j, LexState(Kw, text, line, endCol), acc)
  {
    KwFirst(input, i, j, idx);
    StepStartKw(input, w, i, line, col, acc);
    ScanKw(input, w, i + 1, j, LexState(Kw, [input[i]], line, col + 1), acc, idx, text, endCol);
  }

  /** A keyword's beginning followed by a character that is not whitespace and does not extend
      it: KEYWORD never moves on. */
  lemma ReadStuckKeyword(input: string, w: string -> bool, i: nat, j: nat, line: int, col: int, acc: seq<Token>,
                         idx: nat, stuckCol: int)
    requires i < j < |input| && idx < |Keywords| && StartsWith(Keywords[idx].0, input[i..j])
    requires !IsSpace(input[j]) && !Starts(input[i..j] + [input[j]], Keywords)
    requires stuckCol == col + (j - i)
    ensures Run(input, w, i, StartAt(line, col), acc) == Scan(acc, Some(Diverges(line, stuckCol)))
  {
    KeywordBody(input, w, i, j, line, col, acc, idx, input[i..j], stuckCol);
    StepKwStuck(input, w, j, LexState(Kw, input[i..j], line, stuckCol), acc);
  }

  /** A complete keyword runs to the next whitespace or the end of input. */
  lemma ReadKeyword(input: string, w: string -> bool, i: nat, j: nat, line: int, col: int, acc: seq<Token>,
                    text: string, endCol: int, t: Token)
    requires i < j <= |input| && text == input[i..j] && Lookup(Keywords, text).Some?
    requires j == |input| || IsSpace(input[j])
    requires endCol == col + (j - i) && t == Token(Lookup(Keywords, text).value, Text(text), line, endCol)
    ensures Run(input, w, i, StartAt(line, col), acc) ==
        if j == |input| then Scan(acc + [t, Token(Eof, Null, line, endCol)], None)
        else Run(input, w, j, StartAt(line, endCol), acc + [t])
  {
    var idx :| 0 <= idx < |Keywords| && Keywords[idx].0 == text;
    KeywordBody(input, w, i, j, line, col, acc, idx, text, endCol);
    var st2 := LexState(Kw, text, line, endCol);
    if j == |input| {
      StepEnd(input, w, st2, acc);
    } else {
      StepKwEnd(input, w, j, st2, acc, t);
    }
  }

  // ---------------------------------------------------------------------------------------------
  // Round trip: token texts laid out with whitespace lex back to those tokens

  /** The source text of a token. */
  function Spell(l: Lexeme): string {
    match l.1
    case Text(t) => if l.0 == StrLit then "\"" + t + "\"" else t
    case PrefixedValue(p, q) => p + ":" + q
    case Null => ""
  }

  predicate NoLineTerminator(s: string) {
    forall m :: 0 <= m < |s| ==> !IsLineTerminator(s[m])
  }

  /** The lexemes that are written exactly as their text and read back as themselves: a NAME; a
      web URI that is not NAME-shaped; a prefixed URI that is not a web URI; a string without `"`;
      a symbol or a complete keyword. */
  predicate Spellable(l: Lexeme, w: string -> bool) {
    match l.0
    case Name => l.1.Text? && IsName(l.1.text)
    case Uri =>
      l.1.Text? && |l.1.text| > 0 && IsAlpha(l.1.text[0]) && NoSpace(l.1.text)
      && !IsName(l.1.text) && w(l.1.text)
    case PrefixedUri =>
      l.1.PrefixedValue? && IsName(l.1.prefix) && |l.1.path| > 0 && NoSpace(l.1.path)
      && NoLineTerminator(l.1.path) && !w(l.1.prefix + ":" + l.1.path)
    case StrLit => l.1.Text? && '"' !in l.1.text
    case LParen => l.1.Text? && Lookup(Symbols, l.1.text) == Some(l.0)
    case RParen => l.1.Text? && Lookup(Symbols, l.1.text) == Some(l.0)
    case LBrace => l.1.Text? && Lookup(Symbols, l.1.text) == Some(l.0)
    case RBrace => l.1.Text? && Lookup(Symbols, l.1.text) == Some(l.0)
    case LSquare => l.1.Text? && Lookup(Symbols, l.1.text) == Some(l.0)
    case RSquare => l.1.Text? && Lookup(Symbols, l.1.text) == Some(l.0)
    case Del => l.1.Text? && Lookup(Keywords, l.1.text) == Some(l.0)
    case Ins => l.1.Text? && Lookup(Keywords, l.1.text) == Some(l.0)
    case Arrow => l.1.Text? && Lookup(Keywords, l.1.text) == Some(l.0)
    case Prefix => l.1.Text? && Lookup(Keywords, l.1.text) == Some(l.0)
    case _ => false
  }

  predicate IsSymbolType(t: TokenType) {
    t in {LParen, RParen, LBrace, RBrace, LSquare, RSquare}
  }

  predicate IsKeywordType(t: TokenType) {
    t in {Del, Ins, Arrow, Prefix}
  }

  predicate IsIdentType(t: TokenType) {
    t in {Name, Uri, PrefixedUri}
  }

  /** An identifier lexeme is classified back to itself. */
  lemma ClassifySpelled(l: Lexeme, w: string -> bool, line: int, col: int)
    requires Spellable(l, w) && IsIdentType(l.0)
    ensures |Spell(l)| > 0 && IsAlpha(Spell(l)[0]) && NoSpace(Spell(l))
    ensures Classify(Spell(l), w, line, col) == Success(Token(l.0, l.1, line, col))
  {
    if l.0 == PrefixedUri {
      var p, q := l.1.prefix, l.1.path;
      var text := p + ":" + q;
      assert text[|p|] == ':';
      assert !IsName(text);
      SplitPrefixedComplete(p, q);
      assert text[0] == p[0];
      forall m | 0 <= m < |text| ensures !IsSpace(text[m]) {
        if m < |p| {
          assert text[m] == p[m];
          assert m == 0 || IsNameChar(p[m]);
        } else if m > |p| {
          assert text[m] == q[m - |p| - 1];
        }
      }
    } else if l.0 == Name {
      var t := l.1.text;
      forall m | 0 <= m < |t| ensures !IsSpace(t[m]) {
        assert m == 0 || IsNameChar(t[m]);
      }
    }
  }

  /** Where a token's column is stamped: on the character that ends it, which for a string
      literal is its own closing quote. */
  function TokenCol(l: Lexeme, col: int): int {
    if l.0 == StrLit then col + |Spell(l)| - 1 else col + |Spell(l)|
  }

  /** From START, the spelling of `l` at `i` (followed by whitespace or the end) is read as the
      token `l`, stamped with `TokenCol`, and START resumes after it. */
  predicate ReadsAs(input: string, w: string -> bool, i: nat, line: int, col: int, acc: seq<Token>, l: Lexeme)
    requires i + |Spell(l)| <= |input|
  {
    var j := i + |Spell(l)|;
    var t := Token(l.0, l.1, line, TokenCol(l, col));
    Run(input, w, i, StartAt(line, col), acc) ==
      if j < |input| || l.0 == StrLit then Run(input, w, j, StartAt(line, col + |Spell(l)|), acc + [t])
      else Scan(acc + [t, Token(Eof, Null, line, col + |Spell(l)|)], None)
  }

  /** Reading one spelled lexeme from START. */
  lemma ReadLexeme(input: string, w: string -> bool, i: nat, line: int, col: int, acc: seq<Token>, l: Lexeme)
    requires Spellable(l, w) && i + |Spell(l)| <= |input| && input[i..i + |Spell(l)|] == Spell(l)
    requires i + |Spell(l)| == |input| || IsSpace(input[i + |Spell(l)|])
    ensures ReadsAs(input, w, i, line, col, acc, l)
  {
    if IsIdentType(l.0) {
      ReadIdentLexeme(input, w, i, line, col, acc, l);
    } else if l.0 == StrLit {
      ReadStringLexeme(input, w, i, line, col, acc, l);
    } else if IsSymbolType(l.0) {
      ReadSymbolLexeme(input, w, i, line, col, acc, l);
    } else {
      ReadKeywordLexeme(input, w, i, line, col, acc, l);
    }
  }

  lemma ReadIdentLexeme(input: string, w: string -> bool, i: nat, line: int, col: int, acc: seq<Token>, l: Lexeme)
    requires Spellable(l, w) && IsIdentType(l.0)
    requires i + |Spell(l)| <= |input| && input[i..i + |Spell(l)|] == Spell(l)
    requires i + |Spell(l)| == |input| || IsSpace(input[i + |Spell(l)|])
    ensures ReadsAs(input, w, i, line, col, acc, l)
  {
    ClassifySpelled(l, w, line, col + |Spell(l)|);
    ReadIdentAs(input, w, i, line, col, acc, l, Token(l.0, l.1, line, col + |Spell(l)|));
  }

  lemma ReadIdentAs(input: string, w: string -> bool, i: nat, line: int, col: int, acc: seq<Token>, l: Lexeme,
                    t: Token)
    requires l.0 != StrLit && |Spell(l)| > 0 && IsAlpha(Spell(l)[0]) && NoSpace(Spell(l))
    requires t == Token(l.0, l.1, line, col + |Spell(l)|)
    requires Classify(Spell(l), w, line, col + |Spell(l)|) == Success(t)
    requires i + |Spell(l)| <= |input| && input[i..i + |Spell(l)|] == Spell(l)
    requires i + |Spell(l)| == |input| || IsSpace(input[i + |Spell(l)|])
    ensures ReadsAs(input, w, i, line, col, acc, l)
  {
    var sp := Spell(l);
    var j := i + |sp|;
    assert input[i] == sp[0];
    assert TokenCol(l, col) == col + |sp|;
    ReadClassified(input, w, i, j, line, col, acc, sp, col + |sp|, t);
    PlainReadsAs(input, w, i, line, col, acc, l, j, t);
  }

  lemma ReadStringLexeme(input: string, w: string -> bool, i: nat, line: int, col: int, acc: seq<Token>, l: Lexeme)
    requires Spellable(l, w) && l.0 == StrLit
    requires i + |Spell(l)| <= |input| && input[i..i + |Spell(l)|] == Spell(l)
    ensures ReadsAs(input, w, i, line, col, acc, l)
  {
    assert l == (StrLit, Text(l.1.text)) && Spell(l) == "\"" + l.1.text + "\"";
    ReadStringAs(input, w, i, line, col, acc, l, l.1.text);
  }

  lemma ReadStringAs(input: string, w: string -> bool, i: nat, line: int, col: int, acc: seq<Token>, l: Lexeme,
                     s: string)
    requires l == (StrLit, Text(s)) && '"' !in s && Spell(l) == "\"" + s + "\""
    requires i + |Spell(l)| <= |input| && input[i..i + |Spell(l)|] == Spell(l)
    ensures ReadsAs(input, w, i, line, col, acc, l)
  {
    var j := i + |Spell(l)|;
    Quoted(input, i, j, s);
    var t := Token(l.0, l.1, line, TokenCol(l, col));
    ReadString(input, w, i, j - 1, line, col, acc, t, col + |Spell(l)|, j);
    StringReadsAs(input, w, i, line, col, acc, l, j, t);
  }

  /** A string literal's token is followed by START, even at the end of the input. */
  lemma StringReadsAs(input: string, w: string -> bool, i: nat, line: int, col: int, acc: seq<Token>, l: Lexeme,
                      j: nat, t: Token)
    requires l.0 == StrLit && j == i + |Spell(l)| <= |input| && t == Token(l.0, l.1, line, TokenCol(l, col))
    requires Run(input, w, i, StartAt(line, col), acc) == Run(input, w, j, StartAt(line, col + |Spell(l)|), acc + [t])
    ensures ReadsAs(input, w, i, line, col, acc, l)
  {
  }

  /** Where the quotes and the text of a quoted spelling sit in the input. */
  lemma Quoted(input: string, i: nat, j: nat, s: string)
    requires j == i + |s| + 2 <= |input| && input[i..j] == "\"" + s + "\""
    ensures input[i] == '"' && input[j - 1] == '"' && input[i + 1..j - 1] == s
  {
    var q := "\"" + s + "\"";
    assert q[0] == '"' && q[|s| + 1] == '"' && q[1..|s| + 1] == s;
    assert input[i] == input[i..j][0];
    assert input[j - 1] == input[i..j][|s| + 1];
    var body := input[i + 1..j - 1];
    forall m | 0 <= m < |s|
      ensures body[m] == s[m]
    {
      assert body[m] == input[i..j][m + 1] == q[m + 1];
    }
  }

  lemma ReadSymbolLexeme(input: string, w: string -> bool, i: nat, line: int, col: int, acc: seq<Token>, l: Lexeme)
    requires Spellable(l, w) && IsSymbolType(l.0)
    requires i + |Spell(l)| <= |input| && input[i..i + |Spell(l)|] == Spell(l)
    ensures |Spell(l)| == 1
    ensures ReadsAs(input, w, i, line, col, acc, l)
  {
    SymbolTable(l.1.text);
    assert Spell(l) == l.1.text;
    assert [input[i]] == input[i..i + 1] == l.1.text;
    ReadSymbol(input, w, i, line, col, acc);
  }

  /** The token a keyword lexeme is read as. */
  lemma KeywordToken(l: Lexeme, w: string -> bool, line: int, col: int, t: Token)
    requires Spellable(l, w) && !IsSymbolType(l.0) && !IsIdentType(l.0) && l.0 != StrLit
    requires t == Token(l.0, l.1, line, TokenCol(l, col))
    ensures Lookup(Keywords, Spell(l)).Some?
    ensures t == Token(Lookup(Keywords, Spell(l)).value, Text(Spell(l)), line, col + |Spell(l)|)
  {
    KeywordLexeme(l, w);
  }

  lemma KeywordLexeme(l: Lexeme, w: string -> bool)
    requires Spellable(l, w) && !IsSymbolType(l.0) && !IsIdentType(l.0) && l.0 != StrLit
    ensures l.1 == Text(l.1.text) && Spell(l) == l.1.text && Lookup(Keywords, l.1.text) == Some(l.0)
  {
  }

  lemma ReadKeywordLexeme(input: string, w: string -> bool, i: nat, line: int, col: int, acc: seq<Token>, l: Lexeme)
    requires Spellable(l, w) && !IsSymbolType(l.0) && !IsIdentType(l.0) && l.0 != StrLit
    requires i + |Spell(l)| <= |input| && input[i..i + |Spell(l)|] == Spell(l)
    requires i + |Spell(l)| == |input| || IsSpace(input[i + |Spell(l)|])
    ensures ReadsAs(input, w, i, line, col, acc, l)
  {
    var t := Token(l.0, l.1, line, TokenCol(l, col));
    KeywordToken(l, w, line, col, t);
    ReadKeywordAs(input, w, i, line, col, acc, l, t);
  }

  lemma ReadKeywordAs(input: string, w: string -> bool, i: nat, line: int, col: int, acc: seq<Token>, l: Lexeme,
                      t: Token)
    requires l.0 != StrLit && Lookup(Keywords, Spell(l)).Some?
    requires i + |Spell(l)| <= |input| && input[i..i + |Spell(l)|] == Spell(l)
    requires i + |Spell(l)| == |input| || IsSpace(input[i + |Spell(l)|])
    requires t == Token(l.0, l.1, line, TokenCol(l, col))
    requires t == Token(Lookup(Keywords, Spell(l)).value, Text(Spell(l)), line, col + |Spell(l)|)
    ensures ReadsAs(input, w, i, line, col, acc, l)
  {
    var sp := Spell(l);
    var j := i + |sp|;
    ReadKeyword(input, w, i, j, line, col, acc, sp, col + |sp|, t);
    PlainReadsAs(input, w, i, line, col, acc, l, j, t);
  }

  /** A token other than a string literal, read as the lexer reads it. */
  lemma PlainReadsAs(input: string, w: string -> bool, i: nat, line: int, col: int, acc: seq<Token>, l: Lexeme,
                     j: nat, t: Token)
    requires l.0 != StrLit && j == i + |Spell(l)| <= |input| && t == Token(l.0, l.1, line, TokenCol(l, col))
    requires Run(input, w, i, StartAt(line, col), acc) ==
      if j == |input| then Scan(acc + [t, Token(Eof, Null, line, col + |Spell(l)|)], None)
      else Run(input, w, j, StartAt(line, col + |Spell(l)|), acc + [t])
    ensures ReadsAs(input, w, i, line, col, acc, l)
  {
  }

  /** Lexemes, each followed by whitespace. */
  function Layout(ls: seq<Lexeme>, seps: seq<string>): string
    requires |seps| == |ls|
  {
    if ls == [] then "" else Spell(ls[0]) + seps[0] + Layout(ls[1..], seps[1..])
  }

  /** Every lexeme is spellable and every separator is whitespace, non-empty except after the last. */
  predicate GoodLayout(ls: seq<Lexeme>, seps: seq<string>, w: string -> bool)
    decreases |ls|
  {
    |seps| == |ls|
    && (ls != [] ==>
          Spellable(ls[0], w) && AllSpace(seps[0]) && (|ls| > 1 ==> |seps[0]| > 0)
          && GoodLayout(ls[1..], seps[1..], w))
  }

  lemma GoodLayoutParts(ls: seq<Lexeme>, seps: seq<string>, w: string -> bool)
    requires |ls| > 0 && GoodLayout(ls, seps, w)
    ensures |seps| == |ls| && Spellable(ls[0], w) && AllSpace(seps[0]) && GoodLayout(ls[1..], seps[1..], w)
  {
  }

  /** Where the first lexeme, its separator and the rest of a layout sit in the input. */
  lemma LayoutParts(input: string, i: nat, ls: seq<Lexeme>, seps: seq<string>)
    requires |seps| == |ls| && |ls| > 0 && i <= |input| && input[i..] == Layout(ls, seps)
    ensures var j := i + |Spell(ls[0])|; var j2 := j + |seps[0]|;
      j2 <= |input| && input[i..j] == Spell(ls[0]) && input[j..j2] == seps[0]
      && input[j2..] == Layout(ls[1..], seps[1..])
      && (j == |input| <==> |seps[0]| == 0 && Layout(ls[1..], seps[1..]) == "")
  {
    var sp, sep, rest := Spell(ls[0]), seps[0], Layout(ls[1..], seps[1..]);
    var j := i + |sp|;
    var j2 := j + |sep|;
    assert input[i..] == sp + sep + rest;
    assert input[i..j] == input[i..][..|sp|];
    assert input[j..j2] == input[i..][|sp|..|sp| + |sep|];
    assert input[j2..] == input[i..][|sp| + |sep|..];
  }

  /** The last lexeme with nothing after it. */
  lemma RunLayoutLast(input: string, w: string -> bool, i: nat, line: int, col: int, acc: seq<Token>, l: Lexeme)
    requires Spellable(l, w) && i + |Spell(l)| == |input| && input[i..] == Spell(l)
    ensures var r := Run(input, w, i, StartAt(line, col), acc);
      r.stop.None? && StripAll(r.tokens) == StripAll(acc) + [l] + [(Eof, Null)]
  {
    var sp := Spell(l);
    var t := Token(l.0, l.1, line, TokenCol(l, col));
    var eof := Token(Eof, Null, line, col + |sp|);
    ReadLexeme(input, w, i, line, col, acc, l);
    if l.0 == StrLit {
      StepEnd(input, w, StartAt(line, col + |sp|), acc + [t]);
    }
    assert StripAll(acc + [t, eof]) == StripAll(acc) + [l] + [(Eof, Null)];
  }

  /** One lexeme and the whitespace after it. */
  lemma RunLayoutStep(input: string, w: string -> bool, i: nat, line: int, col: int, acc: seq<Token>,
                      l: Lexeme, sep: string, t: Token, j2: nat, pos: (int, int))
    requires Spellable(l, w) && AllSpace(sep) && |sep| > 0
    requires j2 == i + |Spell(l)| + |sep| <= |input|
    requires input[i..i + |Spell(l)|] == Spell(l) && input[i + |Spell(l)|..j2] == sep
    requires t == Token(l.0, l.1, line, TokenCol(l, col)) && pos == AfterSpaces(line, col + |Spell(l)|, sep)
    ensures Run(input, w, i, StartAt(line, col), acc) == Run(input, w, j2, StartAt(pos.0, pos.1), acc + [t])
  {
    var j := i + |Spell(l)|;
    assert input[j] == input[j..j + |sep|][0] == sep[0];
    ReadLexeme(input, w, i, line, col, acc, l);
    SkipSpaces(input, w, j, |sep|, line, col + |Spell(l)|, acc + [t]);
  }

  /** The end of the input gives EOF. */
  lemma RunLayoutEmpty(input: string, w: string -> bool, line: int, col: int, acc: seq<Token>)
    ensures var r := Run(input, w, |input|, StartAt(line, col), acc);
      r.stop.None? && StripAll(r.tokens) == StripAll(acc) + [(Eof, Null)]
  {
    StepEnd(input, w, StartAt(line, col), acc);
    assert StripAll(acc + [Token(Eof, Null, line, col)]) == StripAll(acc) + [(Eof, Null)];
  }

  /** A run that reads `t` and then the rest of the lexemes reads all of them. */
  lemma LayoutCombine(r1: Scan, r2: Scan, acc: seq<Token>, t: Token, ls: seq<Lexeme>)
    requires |ls| > 0 && ls[0] == (t.tokenType, t.value) && r1 == r2
    requires r2.stop.None? && StripAll(r2.tokens) == StripAll(acc + [t]) + ls[1..] + [(Eof, Null)]
    ensures r1.stop.None? && StripAll(r1.tokens) == StripAll(acc) + ls + [(Eof, Null)]
  {
    assert StripAll(acc + [t]) == StripAll(acc) + [Strip(t)];
    assert [Strip(t)] + ls[1..] == ls;
  }

  /** The step case: one lexeme, its whitespace, then the rest of the layout. */
  lemma {:induction false} RunLayoutCons(input: string, w: string -> bool, i: nat, line: int, col: int,
                                         acc: seq<Token>, ls: seq<Lexeme>, seps: seq<string>)
    requires |ls| > 0 && |seps| == |ls| && Spellable(ls[0], w) && AllSpace(seps[0]) && |seps[0]| > 0
    requires GoodLayout(ls[1..], seps[1..], w)
    requires i + |Spell(ls[0])| + |seps[0]| <= |input|
    requires input[i..i + |Spell(ls[0])|] == Spell(ls[0])
    requires input[i + |Spell(ls[0])|..i + |Spell(ls[0])| + |seps[0]|] == seps[0]
    requires input[i + |Spell(ls[0])| + |seps[0]|..] == Layout(ls[1..], seps[1..])
    ensures var r := Run(input, w, i, StartAt(line, col), acc);
      r.stop.None? && StripAll(r.tokens) == StripAll(acc) + ls + [(Eof, Null)]
    decreases |ls|, 0
  {
    var l, sep := ls[0], seps[0];
    var t := Token(l.0, l.1, line, TokenCol(l, col));
    var pos := AfterSpaces(line, col + |Spell(l)|, sep);
    var j2 := i + |Spell(l)| + |sep|;
    RunLayout(input, w, j2, pos.0, pos.1, acc + [t], ls[1..], seps[1..]);
    RunLayoutStep(input, w, i, line, col, acc, l, sep, t, j2, pos);
    LayoutCombine(Run(input, w, i, StartAt(line, col), acc), Run(input, w, j2, StartAt(pos.0, pos.1), acc + [t]),
                  acc, t, ls);
  }

  /** Lexemes laid out from position `i` lex to themselves followed by EOF. */
  lemma {:induction false} RunLayout(input: string, w: string -> bool, i: nat, line: int, col: int,
                                     acc: seq<Token>, ls: seq<Lexeme>, seps: seq<string>)
    requires GoodLayout(ls, seps, w) && i <= |input| && input[i..] == Layout(ls, seps)
    ensures var r := Run(input, w, i, StartAt(line, col), acc);
      r.stop.None? && StripAll(r.tokens) == StripAll(acc) + ls + [(Eof, Null)]
    decreases |ls|, 1
  {
    if ls == [] {
      RunLayoutEmpty(input, w, line, col, acc);
    } else {
      LayoutParts(input, i, ls, seps);
      if |seps[0]| == 0 {
        assert ls == [ls[0]];
        RunLayoutLast(input, w, i, line, col, acc, ls[0]);
      } else {
        GoodLayoutParts(ls, seps, w);
        RunLayoutCons(input, w, i, line, col, acc, ls, seps);
      }
    }
  }

  /** Tokens written out with whitespace between them lex back to the same tokens, then EOF. */
  lemma LexLayout(text: string, w: string -> bool, ls: seq<Lexeme>, seps: seq<string>)
    requires GoodLayout(ls, seps, w) && text == Layout(ls, seps)
    ensures Tokenize(text, w).stop.None? && StripAll(Tokenize(text, w).tokens) == ls + [(Eof, Null)]
    ensures Lex(text, w).Success? && StripAll(Lex(text, w).value) == ls + [(Eof, Null)]
  {
    RunLayout(text, w, 0, 1, 0, [], ls, seps);
    assert Tokenize(text, w) == Run(text, w, 0, StartAt(1, 0), []);
    assert StripAll([]) == [];
  }
}
