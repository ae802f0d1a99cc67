/** The library's error classes, their names and messages, and how errors are formatted into a
    query response. */
module Errors {

  import opened Wrappers
  import opened Strings
  import opened Json
  import opened Tokens

  /** The three subclasses of the lexer's `LexError`. */
  datatype LexKind = IllegalCharacter | UnterminatedToken | UnrecognizedToken

  /** Every error the model can raise. `TypeError` stands for a JavaScript runtime failure (a
      `reduce` of an empty array, reading a property of `undefined`); `Diverges` marks the inputs
      on which the lexer's loop never ends; `PlainError` is a bare `Error`. */
  datatype Error =
    | LexError(kind: LexKind, detail: string, line: int, col: int)
    | UnexpectedTokenError(expected: seq<TokenType>, actual: Token)
    | QueryError(text: string)
    | HttpError(status: int, statusText: string)
    | RdfParseError(text: string)
    | GraphError(text: string)
    | NotImplementedError(methodName: string, className: string)
    | TypeError(text: string)
    | Diverges(line: int, col: int)
    | PlainError(text: string)

  /** The `name` property each class sets. Every class overrides the name of its base class, so
      no error is ever named `LexError` or `ParseError`. */
  function Name(e: Error): (r: string)
    ensures r != "" && r != "LexError" && r != "ParseError"
    ensures IsInlineName(r) <==> e.HttpError? || e.RdfParseError?
  {
    match e
    case LexError(k, _, _, _) =>
      (match k
       case IllegalCharacter => "IllegalCharacterError"
       case UnterminatedToken => "UnterminatedTokenError"
       case UnrecognizedToken => "UnrecognizedTokenError")
    case UnexpectedTokenError(_, _) => "UnexpectedTokenError"
    case QueryError(_) => "QueryError"
    case HttpError(_, _) => "HttpError"
    case RdfParseError(_) => "RdfParseError"
    case GraphError(_) => "GraphError"
    case NotImplementedError(_, _) => "NotImplementedError"
    case TypeError(_) => "TypeError"
    case Diverges(_, _) => "Diverges"
    case PlainError(_) => "Error"
  }

  /** How a template literal prints a token's value: its text, `null`, or a plain object. */
  function ValueText(v: TokenValue): string {
    match v
    case Text(t) => t
    case Null => "null"
    case PrefixedValue(_, _) => "[object Object]"
  }

  function TypeNames(ts: seq<TokenType>): (r: seq<string>)
    ensures |r| == |ts| && forall i :: 0 <= i < |ts| ==> r[i] == TypeName(ts[i])
  {
    if ts == [] then [] else [TypeName(ts[0])] + TypeNames(ts[1..])
  }

  /** The start of an unexpected-token message, up to the quote before the token's value. */
  function ExpectedPart(expected: seq<TokenType>): string {
    "Expected a token of type(s) [" + Join(TypeNames(expected), ", ") + "], but got token '"
  }

  /** The end of an unexpected-token message, from the quote after the token's value. */
  function ReceivedPart(actual: Token): string {
    "' of type " + TypeName(actual.tokenType) + " at (" + IntToString(actual.line) + ":" + IntToString(actual.column) + ")"
  }

  /** The `message` property each class builds. A lexing error reads `line:col: detail`; an
      unexpected token names the expected types, then the token's value, type and position. */
  function Message(e: Error): (r: string)
    ensures e.LexError? ==> r == IntToString(e.line) + ":" + IntToString(e.col) + ": " + e.detail
    ensures e.UnexpectedTokenError? ==>
      && StartsWith(r, ExpectedPart(e.expected)) && EndsWith(r, ReceivedPart(e.actual))
      && |r| == |ExpectedPart(e.expected)| + |ValueText(e.actual.value)| + |ReceivedPart(e.actual)|
      && r[|ExpectedPart(e.expected)|..|r| - |ReceivedPart(e.actual)|] == ValueText(e.actual.value)
    ensures e.HttpError? ==> r == e.statusText
    ensures e.NotImplementedError? ==> r == e.methodName + " not implemented on " + e.className
  {
    match e
    case LexError(_, detail, line, col) =>
      IntToString(line) + ":" + IntToString(col) + ": " + detail
    case UnexpectedTokenError(expected, actual) =>
      var head := ExpectedPart(expected);
      var tail := ReceivedPart(actual);
      var m := head + ValueText(actual.value) + tail;
      assert m[..|head|] == head;
      assert m[|m| - |tail|..] == tail;
      assert m[|head|..|m| - |tail|] == ValueText(actual.value);
      m
    case QueryError(text) => text
    case HttpError(_, statusText) => statusText
    case RdfParseError(text) => text
    case GraphError(text) => text
    case NotImplementedError(m, c) => m + " not implemented on " + c
    case TypeError(text) => text
    case Diverges(_, _) => ""
    case PlainError(text) => text
  }

  /** Errors whose names are `HttpError` or `RdfParseError` are reported inside the response
      at the node where they happened instead of failing the whole query. */
  predicate IsInlineError(e: Error)
    ensures IsInlineError(e) <==> e.HttpError? || e.RdfParseError?
  {
    IsInlineName(Name(e))
  }

  /** `ERRORS_TO_BE_INLINED.has(name)` */
  predicate IsInlineName(name: string) {
    name in {"HttpError", "RdfParseError"}
  }

  /** The line of a lexing error is what its message holds before the first colon. */
  lemma LexMessageLine(e: Error)
    requires e.LexError?
    ensures BeforeFirst(Message(e), ':') == IntToString(e.line)
  {
    IntToStringHasNoColon(e.line);
    assert Message(e) == IntToString(e.line) + ":" + (IntToString(e.col) + ": " + e.detail);
    BeforeFirstStops(IntToString(e.line), IntToString(e.col) + ": " + e.detail);
  }

  /** The error names of the ten classes are pairwise distinct, so a name identifies its class. */
  lemma InlineErrorsAreHttpAndRdfParse(e: Error)
    ensures IsInlineError(e) <==> e.HttpError? || e.RdfParseError?
  {
  }

  /** `{type, message}`, plus `status` for an `HttpError`. */
  function FormatErrorForResponse(e: Error): (r: Json)
    ensures r.JObj? && UniqueKeys(r.fields)
    ensures Get(r.fields, "type") == Some(JStr(Name(e)))
    ensures Get(r.fields, "message") == Some(JStr(Message(e)))
    ensures Name(e) == "HttpError" ==> Keys(r.fields) == ["type", "message", "status"]
    ensures Name(e) == "HttpError" ==> Get(r.fields, "status") == Some(JNum(e.status))
    ensures Name(e) != "HttpError" ==> Keys(r.fields) == ["type", "message"]
  {
    var formatted := [("type", JStr(Name(e))), ("message", JStr(Message(e)))];
    if Name(e) == "HttpError" then
      var r := formatted + [("status", JNum(e.status))];
      assert r[1..][1..] == [("status", JNum(e.status))];
      assert Get(r[1..][1..], "status") == Some(JNum(e.status));
      assert Get(r[1..], "status") == Get(r[1..][1..], "status");
      JObj(r)
    else
      JObj(formatted)
  }
}
