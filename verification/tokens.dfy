/** Token kinds, the keyword and symbol tables, and the identifier patterns of the query language. */
module Tokens {

  import opened Wrappers
  import opened Strings

  /** The token types of the language. `Undefined` stands for the `undefined` type the lexer
      stamps on an incomplete keyword that is cut short by whitespace. */
  datatype TokenType =
    | Uri | PrefixedUri | Name | LParen | RParen | LBrace | RBrace | LSquare | RSquare
    | StrLit | On | Del | Ins | Arrow | Prefix | Eof | Undefined

  /** A token's value: its text, `null` for EOF, or the two captures of a prefixed URI. */
  datatype TokenValue = Text(text: string) | Null | PrefixedValue(prefix: string, path: string)

  datatype Token = Token(tokenType: TokenType, value: TokenValue, line: int, column: int)

  /** The name the source prints for each type (the enumeration's string values). */
  function TypeName(t: TokenType): string {
    match t
    case Uri => "URI"
    case PrefixedUri => "PREFIXED_URI"
    case Name => "NAME"
    case LParen => "LPAREN"
    case RParen => "RPAREN"
    case LBrace => "LBRACE"
    case RBrace => "RBRACE"
    case LSquare => "LSQUARE"
    case RSquare => "RSQUARE"
    case StrLit => "STRLIT"
    case On => "ON"
    case Del => "DEL"
    case Ins => "INS"
    case Arrow => "ARROW"
    case Prefix => "PREFIX"
    case Eof => "EOF"
    case Undefined => "undefined"
  }

  /** Keyword text to token type, in declaration order. */
  const Keywords: seq<(string, TokenType)> :=
    [("-", Del), ("+", Ins), ("=>", Arrow), ("@prefix", Prefix)]

  /** Symbol text to token type, in declaration order. */
  const Symbols: seq<(string, TokenType)> :=
    [("(", LParen), (")", RParen), ("{", LBrace), ("}", RBrace), ("[", LSquare), ("]", RSquare)]

  /** `table[text]` on the source's plain-object tables: the first entry with that text. */
  function Lookup(table: seq<(string, TokenType)>, text: string): (r: Option<TokenType>)
    ensures r.Some? <==> exists i :: 0 <= i < |table| && table[i].0 == text
    ensures r.Some? ==> exists i :: 0 <= i < |table| && table[i] == (text, r.value)
  {
    LookupFrom(table, text, 0)
  }

  function LookupFrom(table: seq<(string, TokenType)>, text: string, i: nat): (r: Option<TokenType>)
    requires i <= |table|
    ensures r.Some? <==> exists j :: i <= j < |table| && table[j].0 == text
    ensures r.Some? ==> exists j :: i <= j < |table| && table[j] == (text, r.value)
    decreases |table| - i
  {
    if i == |table| then None
    else if table[i].0 == text then Some(table[i].1)
    else LookupFrom(table, text, i + 1)
  }

  /** `starts(text, table)`: some entry of the table begins with `text`. */
  predicate Starts(text: string, table: seq<(string, TokenType)>)
    decreases |table|
  {
    |table| > 0 && (StartsWith(table[0].0, text) || Starts(text, table[1..]))
  }

  /** `Starts` is "some entry begins with the text". */
  lemma {:induction false} StartsIff(text: string, table: seq<(string, TokenType)>)
    ensures Starts(text, table) <==> exists i :: 0 <= i < |table| && StartsWith(table[i].0, text)
    decreases |table|
  {
    if |table| > 0 {
      StartsIff(text, table[1..]);
      if Starts(text, table[1..]) {
        var i :| 0 <= i < |table[1..]| && StartsWith(table[1..][i].0, text);
        assert table[1..][i] == table[i + 1];
      }
      if exists i :: 0 <= i < |table| && StartsWith(table[i].0, text) {
        var i :| 0 <= i < |table| && StartsWith(table[i].0, text);
        if i > 0 {
          assert table[1..][i - 1] == table[i];
        }
      }
    }
  }

  /** The symbol table holds exactly the six one-character brackets, each mapped to its type. */
  lemma SymbolTable(text: string)
    ensures Lookup(Symbols, text) ==
      if text == "(" then Some(LParen) else if text == ")" then Some(RParen)
      else if text == "{" then Some(LBrace) else if text == "}" then Some(RBrace)
      else if text == "[" then Some(LSquare) else if text == "]" then Some(RSquare)
      else None
    ensures |Symbols| == 6 && forall i :: 0 <= i < |Symbols| ==> |Symbols[i].0| == 1
  {
  }

  /** The keyword table maps `-`, `+`, `=>` and `@prefix` to DEL, INS, ARROW and PREFIX, and nothing else. */
  lemma KeywordTable(text: string)
    ensures Lookup(Keywords, text) ==
      if text == "-" then Some(Del) else if text == "+" then Some(Ins)
      else if text == "=>" then Some(Arrow) else if text == "@prefix" then Some(Prefix)
      else None
  {
  }

  /** A character starts a symbol exactly when it is one of the six brackets. */
  lemma StartsSymbol(c: char)
    ensures Starts([c], Symbols) <==> c in "(){}[]"
  {
    StartsIff([c], Symbols);
    if Starts([c], Symbols) {
      var i :| 0 <= i < |Symbols| && StartsWith(Symbols[i].0, [c]);
      assert c == Symbols[i].0[0];
    }
    if c in "(){}[]" {
      var i :| 0 <= i < 6 && "(){}[]"[i] == c;
      assert StartsWith(Symbols[i].0, [c]);
    }
  }

  /** A character starts a keyword exactly when it is `-`, `+`, `=` or `@`. */
  lemma StartsKeyword(c: char)
    ensures Starts([c], Keywords) <==> c in "-+=@"
  {
    StartsIff([c], Keywords);
    if Starts([c], Keywords) {
      var i :| 0 <= i < |Keywords| && StartsWith(Keywords[i].0, [c]);
      assert c == Keywords[i].0[0];
    }
    if c in "-+=@" {
      var i :| 0 <= i < 4 && "-+=@"[i] == c;
      assert StartsWith(Keywords[i].0, [c]);
    }
  }

  /** No character starts both a symbol and a keyword, so the lexer's START choice is unambiguous. */
  lemma SymbolAndKeywordStartsDisjoint(c: char)
    ensures !(Starts([c], Symbols) && Starts([c], Keywords))
  {
    StartsSymbol(c);
    StartsKeyword(c);
  }

  /** `isSpace`: the four characters that separate tokens. None of them can begin or continue
      a token. */
  predicate IsSpace(c: char)
  {
    c == ' ' || c == '\n' || c == '\r' || c == '\t'
  }

  /** `/[a-z]/i`: an ASCII letter of either case. A letter begins no symbol, keyword or string,
      so the order of START's tests does not matter for it. */
  predicate IsAlpha(c: char)
  {
    ('a' <= c <= 'z') || ('A' <= c <= 'Z')
  }

  /** Whitespace can neither begin nor continue a token: it is no name character and begins no
      symbol, keyword or string. */
  lemma SpaceSeparates(c: char)
    requires IsSpace(c)
    ensures !IsNameChar(c) && !Starts([c], Symbols) && !Starts([c], Keywords) && c != '"'
  {
    StartsSymbol(c);
    StartsKeyword(c);
  }

  /** A letter begins no symbol, keyword or string, so the order of START's tests does not
      matter for it. */
  lemma LetterBeginsIdentifierOnly(c: char)
    requires IsAlpha(c)
    ensures !IsSpace(c) && !Starts([c], Symbols) && !Starts([c], Keywords) && c != '"'
  {
    StartsSymbol(c);
    StartsKeyword(c);
  }

  predicate IsNameChar(c: char) {
    IsAlpha(c) || ('0' <= c <= '9') || c == '_' || c == '-'
  }

  /** `NAME_REGEX`: one or more ASCII letters, then letters, digits, `_` or `-`. */
  predicate IsName(s: string)
    ensures IsName(s) ==> ':' !in s && forall i :: 0 <= i < |s| ==> !IsSpace(s[i])
  {
    |s| > 0 && IsAlpha(s[0]) && forall i :: 1 <= i < |s| ==> IsNameChar(s[i])
  }

  /** The characters JavaScript's `.` does not match. */
  predicate IsLineTerminator(c: char) {
    c == '\n' || c == '\r' || c == '\U{2028}' || c == '\U{2029}'
  }

  /** `PREFIXED_URI_REGEX` with its two captures: a NAME-shaped prefix, `:`, then a non-empty path
      of non-line-terminator characters. The prefix cannot hold `:`, so it ends at the first colon. */
  function SplitPrefixed(s: string): (r: Option<(string, string)>)
    ensures r.Some? ==> s == r.value.0 + ":" + r.value.1
    ensures r.Some? ==> IsName(r.value.0) && ':' !in r.value.0 && |r.value.1| > 0
    ensures r.Some? ==> forall i :: 0 <= i < |r.value.1| ==> !IsLineTerminator(r.value.1[i])
  {
    var prefix := BeforeFirst(s, ':');
    if |prefix| == |s| then None
    else
      var path := s[|prefix| + 1..];
      assert s == prefix + ":" + path;
      if IsName(prefix) && |path| > 0 && (forall i :: 0 <= i < |path| ==> !IsLineTerminator(path[i]))
      then Some((prefix, path))
      else None
  }

  /** The pattern matches every well-shaped text, so `SplitPrefixed` is exactly the regular expression. */
  lemma SplitPrefixedComplete(p: string, q: string)
    requires IsName(p) && |q| > 0
    requires forall i :: 0 <= i < |q| ==> !IsLineTerminator(q[i])
    ensures SplitPrefixed(p + ":" + q) == Some((p, q))
  {
    var s := p + ":" + q;
    BeforeFirstStops(p, q);
    assert s[|p| + 1..] == q;
  }

  lemma BeforeFirstStops(p: string, q: string)
    requires ':' !in p
    ensures BeforeFirst(p + ":" + q, ':') == p
  {
    if p != [] {
      assert (p + ":" + q)[1..] == p[1..] + ":" + q;
      BeforeFirstStops(p[1..], q);
    }
  }

  /** NAME texts and PREFIXED_URI texts are disjoint: a NAME holds no colon. */
  lemma NameIsNotPrefixed(s: string)
    requires IsName(s)
    ensures SplitPrefixed(s) == None
  {
    assert ':' !in s by {
      forall i | 0 <= i < |s| ensures s[i] != ':' {
        assert i == 0 || IsNameChar(s[i]);
      }
    }
  }

  /** The shape every token the lexer emits has: EOF and only EOF carries `null`, PREFIXED_URI and
      only PREFIXED_URI carries a `{prefix, path}` pair, every other token carries its text, and
      a NAME's text matches `NAME_REGEX`. */
  predicate WellFormed(t: Token) {
    match t.tokenType
    case Eof => t.value == Null
    case PrefixedUri => t.value.PrefixedValue? && IsName(t.value.prefix) && |t.value.path| > 0
    case Name => t.value.Text? && IsName(t.value.text)
    case _ => t.value.Text?
  }
}
