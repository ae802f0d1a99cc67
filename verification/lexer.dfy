/** The five-state scanner that turns query text into tokens. */
module Lexer {

  import opened Wrappers
  import opened Strings
  import opened Tokens
  import opened Errors

  datatype Mode = Start | Ident | Str | Sym | Kw

  /** The scanner's variables: its state, the text of the token being read (`curVal`), and the
      line and column of the character under the cursor. */
  datatype LexState = LexState(mode: Mode, cur: string, line: int, col: int)

  /** `reset()`: back to START with an empty token text; the position is kept. */
  function Reset(st: LexState): (r: LexState)
    ensures r.mode == Start && r.cur == "" && r.line == st.line && r.col == st.col
  {
    LexState(Start, "", st.line, st.col)
  }

  /** `advance()` after reading `c` into the token text. */
  function Take(st: LexState, c: char): (r: LexState)
    ensures r.mode == st.mode && r.cur == st.cur + [c] && r.line == st.line && r.col == st.col + 1
  {
    st.(cur := st.cur + [c], col := st.col + 1)
  }

  /** Looked-up token type; a missing table entry is JavaScript's `undefined`. */
  function TypeOrUndefined(t: Option<TokenType>): TokenType {
    if t.Some? then t.value else Undefined
  }

  /** `id(val, line, col)`: NAME first, then a web URI, then a prefixed URI, else an error. */
  function Classify(val: string, isWebUri: string -> bool, line: int, col: int): (r: Result<Token, Error>)
    ensures IsName(val) ==> r == Success(Token(Name, Text(val), line, col))
    ensures !IsName(val) && isWebUri(val) ==> r == Success(Token(Uri, Text(val), line, col))
    ensures !IsName(val) && !isWebUri(val) && SplitPrefixed(val).Some? ==>
      r == Success(Token(PrefixedUri, PrefixedValue(SplitPrefixed(val).value.0, SplitPrefixed(val).value.1), line, col))
    ensures !IsName(val) && !isWebUri(val) && SplitPrefixed(val).None? ==>
      r == Failure(LexError(UnrecognizedToken, "Unrecognized token: " + val, line, col))
    ensures r.Success? ==> WellFormed(r.value) && r.value.tokenType != Eof
  {
    if IsName(val) then Success(Token(Name, Text(val), line, col))
    else if isWebUri(val) then Success(Token(Uri, Text(val), line, col))
    else match SplitPrefixed(val)
      case Some((prefix, path)) => Success(Token(PrefixedUri, PrefixedValue(prefix, path), line, col))
      case None => Failure(LexError(UnrecognizedToken, "Unrecognized token: " + val, line, col))
  }

  /** What the token generator yields before it returns or throws: `tokens`, then either the end
      of the iteration (`stop == None`) or the error it throws (`stop == Some(e)`). */
  datatype Scan = Scan(tokens: seq<Token>, stop: Option<Error>)

  /** The tokens emitted so far followed by a well-formed tail that ends in exactly one EOF. */
  predicate EndsWithEof(acc: seq<Token>, ts: seq<Token>) {
    |ts| > |acc| && ts[..|acc|] == acc
    && ts[|ts| - 1].tokenType == Eof && ts[|ts| - 1].value == Null
    && forall k :: |acc| <= k < |ts| - 1 ==> ts[k].tokenType != Eof && WellFormed(ts[k])
  }

  /** No token of `ts` is EOF. */
  predicate NoEof(ts: seq<Token>) {
    forall k :: 0 <= k < |ts| ==> ts[k].tokenType != Eof
  }

  /** Emitting one more well-formed, non-EOF token keeps the tail property of the earlier prefix. */
  lemma EmitKeepsEof(acc: seq<Token>, t: Token, r: Scan)
    requires WellFormed(t) && t.tokenType != Eof
    requires r.stop.None? ==> EndsWithEof(acc + [t], r.tokens)
    ensures r.stop.None? ==> EndsWithEof(acc, r.tokens)
  {
    if r.stop.None? {
    var ts := r.tokens;
    assert ts[..|acc|] == (acc + [t])[..|acc|] == acc by {
      assert ts[..|acc|] == ts[..|acc| + 1][..|acc|];
    }
    assert ts[|acc|] == t by {
      assert ts[..|acc| + 1][|acc|] == t;
    }
    }
  }

  /** The end of input emits EOF, possibly after one last well-formed token. */
  lemma EmitLast(acc: seq<Token>, more: seq<Token>)
    requires 0 < |more| <= 2 && more[|more| - 1].tokenType == Eof && more[|more| - 1].value == Null
    requires |more| == 2 ==> WellFormed(more[0]) && more[0].tokenType != Eof
    ensures EndsWithEof(acc, acc + more)
  {
    assert (acc + more)[..|acc|] == acc;
  }

  /** What the scanner does when the input runs out: finish the pending token, then emit EOF. */
  function Finish(isWebUri: string -> bool, st: LexState, acc: seq<Token>): (r: Scan)
    ensures r.stop.None? ==> EndsWithEof(acc, r.tokens)
    ensures r.stop.None? ==> r.tokens[|r.tokens| - 1] == Token(Eof, Null, st.line, st.col)
    ensures st.mode == Str ==> r.stop.Some?
    ensures st.mode == Start ==> r == Scan(acc + [Token(Eof, Null, st.line, st.col)], None)
    ensures st.mode == Sym ==> (r.stop.None? <==> Lookup(Symbols, st.cur).Some?)
    ensures st.mode == Sym && Lookup(Symbols, st.cur).Some? ==>
      r.tokens == acc + [Token(Lookup(Symbols, st.cur).value, Text(st.cur), st.line, st.col), Token(Eof, Null, st.line, st.col)]
    ensures st.mode == Kw ==> (r.stop.None? <==> Lookup(Keywords, st.cur).Some?)
    ensures st.mode == Kw && Lookup(Keywords, st.cur).Some? ==>
      r.tokens == acc + [Token(Lookup(Keywords, st.cur).value, Text(st.cur), st.line, st.col), Token(Eof, Null, st.line, st.col)]
    ensures st.mode == Ident ==> (r.stop.None? <==> Classify(st.cur, isWebUri, st.line, st.col).Success?)
    ensures st.mode == Ident && Classify(st.cur, isWebUri, st.line, st.col).Success? ==>
      r.tokens == acc + [Classify(st.cur, isWebUri, st.line, st.col).value, Token(Eof, Null, st.line, st.col)]
    ensures st.mode == Ident && Classify(st.cur, isWebUri, st.line, st.col).Failure? ==>
      r == Scan(acc, Some(Classify(st.cur, isWebUri, st.line, st.col).error))
    ensures st.mode in {Sym, Kw, Str} && r.stop.Some? ==> r.tokens == acc && r.stop.value.LexError? && r.stop.value.kind == UnterminatedToken
  {
    var eof := Token(Eof, Null, st.line, st.col);
    match st.mode
    case Start => EmitLast(acc, [eof]); Scan(acc + [eof], None)
    case Sym =>
      if Lookup(Symbols, st.cur).Some? then
        var t := Token(Lookup(Symbols, st.cur).value, Text(st.cur), st.line, st.col);
        SymbolTable(st.cur);
        EmitLast(acc, [t, eof]);
        Scan(acc + [t, eof], None)
      else Scan(acc, Some(LexError(UnterminatedToken, "Unterminated symbol '" + st.cur + "'", st.line, st.col)))
    case Kw =>
      if Lookup(Keywords, st.cur).Some? then
        var t := Token(Lookup(Keywords, st.cur).value, Text(st.cur), st.line, st.col);
        KeywordTable(st.cur);
        EmitLast(acc, [t, eof]);
        Scan(acc + [t, eof], None)
      else Scan(acc, Some(LexError(UnterminatedToken, "Unterminated keyword '" + st.cur + "'", st.line, st.col)))
    case Str => Scan(acc, Some(LexError(UnterminatedToken, "Unterminated string literal '" + st.cur + "'", st.line, st.col)))
    case Ident =>
      match Classify(st.cur, isWebUri, st.line, st.col)
      case Failure(e) => Scan(acc, Some(e))
      case Success(t) => EmitLast(acc, [t, eof]); Scan(acc + [t, eof], None)
  }

  /** Orders the states so that a step that re-reads the current character always goes to START. */
  function Rank(m: Mode): nat {
    if m == Start then 0 else 1
  }

  /** The scanner's main loop from position `i` in state `st`, with `acc` already emitted: at the
      end of input finish up, otherwise take one step of the state's transition. */
  function Run(input: string, isWebUri: string -> bool, i: nat, st: LexState, acc: seq<Token>)
    : (r: Scan)
    requires i <= |input|
    ensures r.stop.None? ==> EndsWithEof(acc, r.tokens)
    decreases |input| - i, Rank(st.mode), 1
  {
    if i == |input| then Finish(isWebUri, st, acc)
    else
      match st.mode
      case Start => RunStart(input, isWebUri, i, st, acc)
      case Ident => RunIdent(input, isWebUri, i, st, acc)
      case Str => RunStr(input, isWebUri, i, st, acc)
      case Sym => RunSym(input, isWebUri, i, st, acc)
      case Kw => RunKw(input, isWebUri, i, st, acc)
  }

  /** START: skip whitespace (a newline moves to the next line), or pick the state of the token
      the character begins; any other character is illegal. */
  function RunStart(input: string, isWebUri: string -> bool, i: nat, st: LexState, acc: seq<Token>)
    : (r: Scan)
    requires i < |input| && st.mode == Start
    ensures r.stop.None? ==> EndsWithEof(acc, r.tokens)
    decreases |input| - i, Rank(st.mode), 0
  {
    var c := input[i];
    if IsSpace(c) then
      if c == '\n' then Run(input, isWebUri, i + 1, st.(line := st.line + 1, col := 1), acc)
      else Run(input, isWebUri, i + 1, st.(col := st.col + 1), acc)
    else if Starts([c], Symbols) then Run(input, isWebUri, i + 1, Take(st, c).(mode := Sym), acc)
    else if Starts([c], Keywords) then Run(input, isWebUri, i + 1, Take(st, c).(mode := Kw), acc)
    else if c == '"' then Run(input, isWebUri, i + 1, st.(mode := Str, col := st.col + 1), acc)
    else if IsAlpha(c) then Run(input, isWebUri, i + 1, Take(st, c).(mode := Ident), acc)
    else Scan(acc, Some(LexError(IllegalCharacter, "Illegal character '" + [c] + "'", st.line, st.col)))
  }

  /** ID: whitespace ends the identifier, which is classified and emitted without consuming the
      whitespace; anything else is absorbed. */
  function RunIdent(input: string, isWebUri: string -> bool, i: nat, st: LexState, acc: seq<Token>)
    : (r: Scan)
    requires i < |input| && st.mode == Ident
    ensures r.stop.None? ==> EndsWithEof(acc, r.tokens)
    decreases |input| - i, Rank(st.mode), 0
  {
    var c := input[i];
    if IsSpace(c) then
      match Classify(st.cur, isWebUri, st.line, st.col)
      case Failure(e) => Scan(acc, Some(e))
      case Success(t) =>
        var r := Run(input, isWebUri, i, Reset(st), acc + [t]);
        EmitKeepsEof(acc, t, r);
        r
    else Run(input, isWebUri, i + 1, Take(st, c), acc)
  }

  /** STRING: the closing quote emits the literal and is consumed; anything else is absorbed. */
  function RunStr(input: string, isWebUri: string -> bool, i: nat, st: LexState, acc: seq<Token>)
    : (r: Scan)
    requires i < |input| && st.mode == Str
    ensures r.stop.None? ==> EndsWithEof(acc, r.tokens)
    decreases |input| - i, Rank(st.mode), 0
  {
    var c := input[i];
    if c == '"' then
      var t := Token(StrLit, Text(st.cur), st.line, st.col);
      var r := Run(input, isWebUri, i + 1, Reset(st).(col := st.col + 1), acc + [t]);
      EmitKeepsEof(acc, t, r);
      r
    else Run(input, isWebUri, i + 1, Take(st, c), acc)
  }

  /** SYMBOL: extend while the text still begins a symbol, else emit it without consuming. */
  function RunSym(input: string, isWebUri: string -> bool, i: nat, st: LexState, acc: seq<Token>)
    : (r: Scan)
    requires i < |input| && st.mode == Sym
    ensures r.stop.None? ==> EndsWithEof(acc, r.tokens)
    decreases |input| - i, Rank(st.mode), 0
  {
    var c := input[i];
    if Starts(st.cur + [c], Symbols) then Run(input, isWebUri, i + 1, Take(st, c), acc)
    else
      var t := Token(TypeOrUndefined(Lookup(Symbols, st.cur)), Text(st.cur), st.line, st.col);
      var r := Run(input, isWebUri, i, Reset(st), acc + [t]);
      EmitKeepsEof(acc, t, r);
      r
  }

  /** KEYWORD: whitespace emits the keyword (typed `undefined` when the text is incomplete); a
      character that extends the text is absorbed. Any other character changes nothing, so the
      source's loop would never end: that case is `Diverges`. */
  function RunKw(input: string, isWebUri: string -> bool, i: nat, st: LexState, acc: seq<Token>)
    : (r: Scan)
    requires i < |input| && st.mode == Kw
    ensures r.stop.None? ==> EndsWithEof(acc, r.tokens)
    decreases |input| - i, Rank(st.mode), 0
  {
    var c := input[i];
    if IsSpace(c) then
      var t := Token(TypeOrUndefined(Lookup(Keywords, st.cur)), Text(st.cur), st.line, st.col);
      var r := Run(input, isWebUri, i, Reset(st), acc + [t]);
      EmitKeepsEof(acc, t, r);
      r
    else if Starts(st.cur + [c], Keywords) then Run(input, isWebUri, i + 1, Take(st, c), acc)
    else Scan(acc, Some(Diverges(st.line, st.col)))
  }

  /** The generator `lex(input)` run to the end: line 1, the cursor on the first character
      (column 0), START. */
  function Tokenize(input: string, isWebUri: string -> bool): (r: Scan)
    ensures r.stop.None? ==> EndsWithEof([], r.tokens)
  {
    Run(input, isWebUri, 0, LexState(Start, "", 1, 0), [])
  }

  /** All of `lex(input)` collected: the tokens, or the error the generator throws. */
  function Lex(input: string, isWebUri: string -> bool): (r: Result<seq<Token>, Error>)
    ensures r.Success? ==> |r.value| >= 1
    ensures r.Success? ==> r.value[|r.value| - 1].tokenType == Eof && r.value[|r.value| - 1].value == Null
    ensures r.Success? ==> forall k :: 0 <= k < |r.value| - 1 ==> r.value[k].tokenType != Eof
    ensures r.Success? ==> forall k :: 0 <= k < |r.value| - 1 ==> WellFormed(r.value[k])
  {
    var s := Tokenize(input, isWebUri);
    if s.stop.Some? then Failure(s.stop.value) else Success(s.tokens)
  }
}
