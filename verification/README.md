# twinql in Dafny

A model of the core of twinql, a small query language for linked data. A query names a context
node, optionally narrows it with match lists, and walks a traversal of predicate selectors. The
answer is a JSON-LD object. The model covers:

- the lexer, the recursive-descent parser and the AST constructors;
- the immutable RDF node record and node sets;
- the indexed RDF graph (the current `src/rdf/graph.js` and its older twin `src/graph.js`);
- the backend interface with its event registry, and the in-memory, web and LDP backends;
- the query engine: prefix resolution, node specifiers and match lists, traversal, and the
  formatting of nodes and errors in the response;
- the term rules of the N-Quads reader and writer.

Everything is pure functions over immutable datatypes:

- JavaScript objects are ordered association lists (`Json`), so key order and "last assignment
  wins" are explicit.
- Immutable sets are Dafny `set`s. Their iteration order is a fixed total order on nodes, so
  `first()` is the least element.
- `Promise.all` is evaluated one lookup after another, so the first failure in enumeration order
  is the one reported.
- A backend is a pair of lookup functions. The web and LDP backends are state records with
  explicit transitions. Fetching a document is a function parameter.
- `isWebUri` from `valid-url` is a function parameter of the lexer.

Modules, one per component:

- `Wrappers`, `Strings`, `Json`: support.
- `Tokens`: the token tables and name regexes.
- `Errors`: error classes, names and messages, `formatErrorForResponse`.
- `Lexer`, `LexerFacts`, `LexerLemmas`: the lexer and its properties.
- `Ast`, `Parser`, `ParserLemmas`, `Printer`: the AST, the parser, and the print/parse round trip.
- `Nodes`, `NodeOrder`: nodes, node sets and enumeration order.
- `Indexes`, `Graphs`, `LegacyGraphs`: the graph indices and the two graph classes.
- `Backends`, `WebBackend`, `LdpBackend`: the backends.
- `QueryEngine`, `QueryFacts`: the query engine and its properties.
- `Serialize`: N-Quads term rules.

Where the code and its documentation or tests disagree, the model follows the code:

- The lexer's KEYWORD state makes no progress on a keyword prefix followed by a character that
  neither is whitespace nor extends it (`=>(`). The source loops forever there. The model
  returns the explicit error `Diverges(line, col)`.
- An incomplete keyword followed by whitespace emits a token whose type is `undefined`. The
  model's token type for this is `Undefined`.
- `src/lang/parser.spec.js` passes a sub-rule argument that `parse` ignores and expects other
  error lists. The model parses whole queries, as `parse` does.
- The web backend resolves `ensureGraphLoaded` to `undefined` after a load, not `true`. Its
  state field is `loadingGraphs`, not `loadedGraphs`. Both differ from
  `src/backends/web-backend.spec.js`.
- `specifiedNodes` has no string-literal case. A leaf match on a string literal therefore fails
  with a `QueryError`, which a subject-context match turns into the empty set.
  `src/query.spec.js` expects such matches to succeed.
- An empty match list `()` reduces an empty array with no initial value. The model reports a
  `TypeError`.
- A graph-context match returns an un-awaited promise from inside its `try`. Its failures
  therefore propagate. On a context of other than one node, the model gives the empty set.
  With two or more nodes this is the source's behaviour: the union throws inside the `try`,
  which gives `nodeSet([])`. With no node it is not: Immutable's `reduce` without an initial
  value returns `undefined` on an empty collection, so src/query.js:163-170 yields `undefined`.
  No query reaches either case, since a graph context is always the singleton context node
  of `contextSensitiveQuery` (src/query.js:82).
- `formatNode` assigns `datatype.value` and `language.value`. On the string fields of the node
  record these are `undefined`, so `@type` and `@language` are present with no value. The model
  keeps the keys and gives them `JUndefined`. `src/query.spec.js` expects the datatype and
  language strings.
- `src/rdf/node.js`, which the query engine and the serializer import, is not part of this model.
  Its record is taken to be the one in `src/node.js`, whose fields default to `''`.
  `src/rdf/node.spec.js` and `src/rdf/serialize.spec.js` expect `null` defaults instead.
  The N-Quads term rules test truthiness only, so they give the same text either way.

## Model

| member | source | states |
|---|---|---|
| Tokens.Lookup | src/lang/lexer.js:111-117 | a table lookup (`symbols[curVal]`, `keywords[curVal]`) finds a type exactly when the text is one of the table's entries, and the type found is that entry's |
| Tokens.StartsIff | src/lang/lexer.js:165-169 | `starts(text, group)` holds exactly when some token text of the group starts with `text` |
| Tokens.SymbolTable | src/lang/tokens.js:30-37 | the six one-character symbols and the token type each maps to; nothing else is a symbol |
| Tokens.KeywordTable | src/lang/tokens.js:22-27 | `-`, `+`, `=>` and `@prefix` map to DEL, INS, ARROW and PREFIX; nothing else is a keyword |
| Tokens.StartsSymbol | src/lang/lexer.js:71 | a single character starts a symbol exactly when it is one of `(){}[]` |
| Tokens.StartsKeyword | src/lang/lexer.js:74 | a single character starts a keyword exactly when it is one of `-+=@` |
| Tokens.SymbolAndKeywordStartsDisjoint | src/lang/lexer.js:71-76 | no character starts both a symbol and a keyword, so the order of the two tests does not matter |
| Tokens.SplitPrefixed | src/lang/tokens.js:43 | a match of `PREFIXED_URI_REGEX` splits the text at its first colon into a name-shaped prefix and a non-empty path without line terminators |
| Tokens.SplitPrefixedComplete | src/lang/tokens.js:43 | every name, colon and non-empty one-line path is matched, with exactly that prefix and path |
| Tokens.NameIsNotPrefixed | src/lang/tokens.js:39-43 | a text matching `NAME_REGEX` never matches `PREFIXED_URI_REGEX` |
| Tokens.SpaceSeparates | src/lang/lexer.js:154-159 | `isSpace`: whitespace is no name character and begins no symbol, keyword or string, so it always ends the token being read |
| Tokens.LetterBeginsIdentifierOnly | src/lang/lexer.js:161-163 | `isAlpha`: a letter is not whitespace and begins no symbol, keyword or string, so in START it can only begin an identifier |
| Tokens.IsName | src/lang/tokens.js:39 | a text matching `NAME_REGEX` holds no colon and no whitespace |
| Strings.IntToStringHasNoColon | src/errors.js:11 | a line or column printed in decimal holds no colon |
| Errors.InlineErrorsAreHttpAndRdfParse | src/errors.js:139-147 | an error is inlined in the response exactly when it is an `HttpError` or an `RdfParseError` |
| Errors.Name | src/errors.js:9-133 | every class sets its own `name`, so no thrown error is named after the base classes `LexError` or `ParseError`; the name is an inline one exactly for `HttpError` and `RdfParseError` |
| Errors.Message | src/errors.js:9-133 | a lexing error reads `line:col: detail`; an unexpected token reads the expected types, then the token's value, then its type and `(line:column)`; an `HttpError` carries the status text; `NotImplementedError` reads "m not implemented on C" |
| Errors.LexMessageLine | src/errors.js:9-13 | the line of a lexing error is what its message holds before the first colon |
| Errors.IsInlineError | src/errors.js:139-147 | `isInlineError` holds exactly for `HttpError` and `RdfParseError` |
| Errors.FormatErrorForResponse | src/errors.js:153-166 | the response object has `type` (the error's name) and `message`, in that order, plus `status` exactly for an `HttpError` |
| Json.Put | src/query.js:67-70 | assigning a key: that key reads the new value, every other key is unchanged, an existing key keeps its place and a new key goes last |
| Json.Spread | src/query.js:216-219 | `{...a, ...b}`: the keys of `a` stay in front in their order, followed by the keys only `b` has in the order `b` first lists them; a key of `b` reads `b`'s value and any other key reads `a`'s |
| Ast.NewAst | src/lang/ast.js:10-16 | constructing an AST fails with the "Must provide a `type`" error exactly when the type is empty, and otherwise keeps the type and the attributes |
| Ast.Factory | src/lang/ast.js:19-105 | each of the sixteen node factories builds an AST with its type and its attribute names |
| Ast.FactoryTagsNonEmpty | src/lang/ast.js:19-105 | every factory supplies a non-empty type, so no factory call fails |
| Ast.FactoryTagsDistinct | src/lang/ast.js:19-105 | no two factories share a type, so the type identifies the kind of node |
| Ast.NodeSpecifierShape | src/lang/ast.js:38-46 | a node specifier is matching or empty exactly when its AST has that type and attributes |
| Ast.MatchShape | src/lang/ast.js:48-58 | a match is a leaf or an intermediate match exactly when its AST has that type and attributes |
| Ast.SelectorShape | src/lang/ast.js:65-74 | a selector is a leaf or an intermediate selector exactly when its AST has that type and attributes |
| Lexer.Reset | src/lang/lexer.js:54-57 | `reset` clears the current value and returns to START without moving the position |
| Lexer.Take | src/lang/lexer.js:50-53 | appending a character and advancing moves one column and keeps the state |
| Lexer.Classify | src/lang/lexer.js:171-183 | `id`: a name is NAME; otherwise a web URI is URI; otherwise a prefixed URI is PREFIXED_URI with its prefix and path; otherwise `UnrecognizedTokenError` at the token's position |
| Lexer.Finish | src/lang/lexer.js:127-149 | at the end of input: START emits only EOF; SYMBOL and KEYWORD emit their token and EOF exactly when the text is a complete symbol or keyword; ID emits its classified token and EOF, or stops with the classification error; an unterminated string, symbol or keyword stops with an unterminated-token error and emits nothing more |
| Lexer.Run | src/lang/lexer.js:62-149 | the scanning loop from any position and state: a scan that does not stop early ends with the EOF token |
| Lexer.RunStart | src/lang/lexer.js:65-86 | the START branch: a scan that goes on from it without stopping ends with EOF after the tokens already emitted |
| Lexer.RunIdent | src/lang/lexer.js:87-95 | the ID branch: the same tail property, after the classified identifier when whitespace ends it |
| Lexer.RunStr | src/lang/lexer.js:96-105 | the STRING branch: the same tail property, after the STRLIT token when the quote closes it |
| Lexer.RunSym | src/lang/lexer.js:106-114 | the SYMBOL branch: the same tail property, after the symbol token when the text stops extending |
| Lexer.RunKw | src/lang/lexer.js:115-123 | the KEYWORD branch: the same tail property, after the keyword token when whitespace ends it |
| Lexer.Tokenize | src/lang/lexer.js:38-62 | the generator started at line 1, column 0 in START: a scan that does not stop early ends with EOF |
| Lexer.Lex | src/lang/lexer.js:38-150 | a successful lex ends with exactly one EOF token with a null value, and every earlier token is well formed |
| LexerFacts.LexEmpty | src/lang/lexer.js:59-62 | the empty input lexes to the single EOF token at line 1, column 0 |
| LexerFacts.IllegalAt | src/lang/lexer.js:82-84 | in START, a character that starts nothing fails with `IllegalCharacterError` at the current position |
| LexerFacts.LexIllegalCharacter | src/lang/lexer.js:82-84 | an input beginning with such a character fails with the "Illegal character" message at 1:0 |
| LexerFacts.LexUnterminatedString | src/lang/lexer.js:143-144 | an opened string that never closes fails with "Unterminated string literal" and the text read |
| LexerFacts.LexStringLiteral | src/lang/lexer.js:96-100 | a quoted text without quotes lexes to one STRLIT token with that text, followed by EOF |
| LexerFacts.LexIdentifier | src/lang/lexer.js:87-95 | a word starting with a letter lexes to the classification of the whole word followed by EOF, or fails as the classification does |
| LexerFacts.LexSymbolPair | src/lang/lexer.js:106-113 | two adjacent symbols lex as two separate one-character tokens |
| LexerFacts.LexUnterminatedKeyword | src/lang/lexer.js:136-141 | input ending inside a keyword prefix fails with "Unterminated keyword" |
| LexerFacts.LexIncompleteKeyword | src/lang/lexer.js:115-118 | a keyword prefix followed by whitespace is emitted with an undefined token type |
| LexerFacts.LexKeywordStuck | src/lang/lexer.js:115-123 | a keyword prefix followed by a character that neither is whitespace nor extends it never progresses |
| LexerFacts.ArrowThenParenDiverges | src/lang/lexer.js:115-123 | the concrete input `=>(` is such a case |
| LexerFacts.RunLines | src/lang/lexer.js:66-70 | from any resting state, on input without quotes, the EOF token's line is the start line plus the number of newlines read |
| LexerFacts.LexLines | src/lang/lexer.js:66-70 | for a whole input without quotes, the EOF token's line is one plus the number of newlines |
| LexerFacts.StoppedHasNoEof | src/lang/lexer.js:62-149 | EOF is yielded only after the loop and the final switch complete: a scan that throws has yielded no EOF |
| LexerFacts.LexFailsWithoutEof | src/lang/lexer.js:38-150 | `lex` fails exactly when the scan stops, and then none of the tokens yielded before the error is EOF |
| LexerFacts.LexWhitespaceExample | src/lang/lexer.js:62-125 | `foo bar =>\n(` lexes to NAME, NAME, ARROW, LPAREN and EOF |
| LexerLemmas.StepSpace | src/lang/lexer.js:66-70 | in START, whitespace is skipped, and a newline moves to the next line |
| LexerLemmas.StepStartSym | src/lang/lexer.js:71-73 | in START, a symbol character begins a SYMBOL token |
| LexerLemmas.StepStartKw | src/lang/lexer.js:74-76 | in START, a keyword character begins a KEYWORD token |
| LexerLemmas.StepStartQuote | src/lang/lexer.js:77-78 | in START, a quote opens a string, and the quote is not part of its value |
| LexerLemmas.StepStartAlpha | src/lang/lexer.js:79-81 | in START, a letter begins an identifier |
| LexerLemmas.StepIdentChar | src/lang/lexer.js:91-94 | in ID, any non-space character is appended |
| LexerLemmas.StepIdentEnd | src/lang/lexer.js:88-90 | in ID, whitespace emits the classified identifier, or stops with the classification's error, without consuming the space |
| LexerLemmas.StepStrChar | src/lang/lexer.js:101-104 | in STRING, any character but a quote is appended, newlines included |
| LexerLemmas.StepStrEnd | src/lang/lexer.js:97-100 | in STRING, the closing quote emits a STRLIT token and is consumed |
| LexerLemmas.StepSymEnd | src/lang/lexer.js:110-113 | in SYMBOL, a character that does not extend the symbol emits it without being consumed |
| LexerLemmas.StepKwExtend | src/lang/lexer.js:119-122 | in KEYWORD, a character that extends a keyword prefix is appended |
| LexerLemmas.StepKwStuck | src/lang/lexer.js:115-123 | in KEYWORD, a non-space character that extends no keyword leaves the state unchanged for ever |
| LexerLemmas.StepKwEnd | src/lang/lexer.js:116-118 | in KEYWORD, whitespace emits the keyword (its type looked up in the table) without consuming the space |
| LexerLemmas.StepEndStart | src/lang/lexer.js:149 | at the end of input in START, only EOF is emitted |
| LexerLemmas.StepEndStr | src/lang/lexer.js:143-144 | at the end of input in STRING, the lexer fails with "Unterminated string literal" |
| LexerLemmas.StepEnd | src/lang/lexer.js:127-149 | at the end of input, the loop hands over to the end-of-input rules |
| LexerLemmas.SkipSpaces | src/lang/lexer.js:66-70 | a run of whitespace in START is skipped as a whole, counting lines and columns |
| LexerLemmas.ReadIdent | src/lang/lexer.js:79-95 | a whole identifier up to whitespace or the end is read and classified |
| LexerLemmas.ReadString | src/lang/lexer.js:77-105 | a whole quoted string is read as one STRLIT token |
| LexerLemmas.ReadSymbol | src/lang/lexer.js:106-113 | a symbol character is read as a one-character token, since no symbol has two characters |
| LexerLemmas.ReadKeyword | src/lang/lexer.js:115-118 | a complete keyword up to whitespace or the end is read as its token |
| LexerLemmas.ReadStuckKeyword | src/lang/lexer.js:115-123 | a keyword prefix followed by a character that extends no keyword stops the lexer |
| LexerLemmas.RunLayout | src/lang/lexer.js:62-149 | from any position in START, lexemes laid out with whitespace scan to exactly those lexemes followed by EOF, whatever was emitted before |
| LexerLemmas.LexLayout | src/lang/lexer.js:38-150 | any sequence of spellable lexemes separated by whitespace lexes back to exactly those lexemes, followed by EOF |
| Parser.Current | src/lang/parser.js:44-46 | the current token, or, past the last token, the lexer's stored error or the failure of reading `undefined` |
| Parser.Expect | src/lang/parser.js:29-36 | `expect` accepts exactly the listed types, and otherwise fails with `UnexpectedTokenError` listing them and the token found |
| Parser.ParseUri | src/lang/parser.js:167-174 | a URI token gives a `uri` node with its value and moves one token on |
| Parser.ParsePrefixedUri | src/lang/parser.js:176-186 | a PREFIXED_URI token gives a `prefixedUri` node with its prefix and path and moves one token on |
| Parser.ParseId | src/lang/parser.js:159-165 | `id` accepts exactly URI and PREFIXED_URI, giving the URI node of a URI's text or the prefixed node of a PREFIXED_URI's prefix and path, and otherwise fails listing both |
| Parser.ParseName | src/lang/parser.js:188-194 | a NAME token gives its value and moves one token on |
| Parser.ParseString | src/lang/parser.js:196-201 | a STRLIT token gives a `stringLiteral` node with its value |
| Parser.ParsePrefix | src/lang/parser.js:76-84 | `@prefix NAME URI` gives a prefix declaration with that name and URI, three tokens long |
| Parser.ParsePrefixList | src/lang/parser.js:66-74 | the prefix list is three tokens per declaration and stops at the first URI or PREFIXED_URI; any other first token fails listing PREFIX, URI and PREFIXED_URI |
| Parser.PrefixLoop | src/lang/parser.js:69-72 | the loop adds one declaration per three tokens after the ones already read, and stops at a URI or PREFIXED_URI |
| Parser.ParseCsq | src/lang/parser.js:88-93 | a context-sensitive query reads at least one token and stays within the stream |
| Parser.ParseNodeSpecifier | src/lang/parser.js:95-122 | a node specifier stays within the stream (the empty one reads nothing, by ParserLemmas.NodeSpecifierKind) |
| Parser.ParseMatchList | src/lang/parser.js:124-132 | a match list stops before the end of the stream (at its `)`, by ParserLemmas.MatchLoopEnds) |
| Parser.MatchLoop | src/lang/parser.js:127-131 | the match loop stops before the end of the stream |
| Parser.ParseMatch | src/lang/parser.js:134-155 | a match reads at least one token and stays within the stream |
| Parser.ParseTraversal | src/lang/parser.js:203-211 | a traversal reads at least one token and stays within the stream |
| Parser.SelectorLoop | src/lang/parser.js:213-220 | the selector loop stops before the end of the stream (at its `}`, by ParserLemmas.SelectorLoopEnds) |
| Parser.ParseSelector | src/lang/parser.js:222-243 | a selector reads at least one token and stays within the stream |
| Parser.ParseEdge | src/lang/parser.js:245-257 | `[` starts a three-token multi edge, an id alone is a one-token single edge, and anything else fails listing LSQUARE, URI and PREFIXED_URI; either edge's predicate is the id read at its start |
| Parser.ParseQuery | src/lang/parser.js:55-64 | a query succeeds only when its first token is PREFIX, URI or PREFIXED_URI and an EOF token is reached; a wrong first token fails listing those three, and an empty stream fails with the lexer's error or reading past the end |
| Parser.Parse | src/lang/parser.js:51-53 | `parse` succeeds only on text the lexer accepts in full; when the lexer yields no token at all, `parse` fails with the lexer's error |
| ParserLemmas.NodeSpecifierKind | src/lang/parser.js:95-122 | `=>` gives a graph specifier, `(` a subject specifier, and `{` the empty specifier without consuming it; anything else fails listing the three |
| ParserLemmas.MatchListRejects | src/lang/parser.js:124-126 | a match list must begin with URI, PREFIXED_URI or `)` |
| ParserLemmas.MatchKind | src/lang/parser.js:134-155 | a match is intermediate exactly when its value position holds `(`, and then its nested specifier is a subject specifier; a leaf match's value is a URI, a prefixed URI or a string |
| ParserLemmas.TraversalRejects | src/lang/parser.js:203-205 | a traversal must begin with `{` |
| ParserLemmas.MatchLoopEnds | src/lang/parser.js:127-131 | a successful match list stops at `)` |
| ParserLemmas.SelectorLoopEnds | src/lang/parser.js:213-220 | a successful selector list stops at `}` |
| ParserLemmas.IdRoundTrip | src/lang/parser.js:159-165 | the token of an id parses back to that id |
| ParserLemmas.EdgeRoundTrip | src/lang/parser.js:245-257 | the tokens of an edge parse back to that edge |
| ParserLemmas.NodeSpecifierRoundTrip | src/lang/parser.js:95-122 | the tokens of a node specifier parse back to it |
| ParserLemmas.GraphRoundTrip | src/lang/parser.js:98-109 | `=> (` matches `)` parses to a graph specifier with those matches |
| ParserLemmas.SubjectRoundTrip | src/lang/parser.js:110-119 | `(` matches `)` parses to a subject specifier with those matches |
| ParserLemmas.MatchRoundTrip | src/lang/parser.js:134-155 | the tokens of a match parse back to it |
| ParserLemmas.MatchListRoundTrip | src/lang/parser.js:124-132 | the tokens of a match list parse back to it |
| ParserLemmas.SelectorRoundTrip | src/lang/parser.js:222-243 | the tokens of a selector parse back to it |
| ParserLemmas.SelectorListRoundTrip | src/lang/parser.js:213-220 | the tokens of a selector list parse back to it |
| ParserLemmas.TraversalRoundTrip | src/lang/parser.js:203-211 | `{` selectors `}` parses back to the traversal |
| ParserLemmas.CsqRoundTrip | src/lang/parser.js:88-93 | a node specifier followed by a traversal parses back to the context-sensitive query |
| ParserLemmas.PrefixLoopRoundTrip | src/lang/parser.js:66-74 | the tokens of a list of declarations parse back to it |
| ParserLemmas.PrefixLoopDeclaration | src/lang/parser.js:69-72 | each declaration the prefix loop adds is the one `prefix` reads at three tokens per earlier declaration |
| ParserLemmas.QueryRoundTrip | src/lang/parser.js:55-64 | the tokens of a query parse back to it exactly when EOF follows them |
| ParserLemmas.ParseHeld | src/lang/parser.js:55-64 | the tokens of a query followed by EOF parse to that query |
| ParserLemmas.TrailingTokenRejected | src/lang/parser.js:62 | a token other than EOF after a complete query fails with `UnexpectedTokenError` expecting EOF |
| ParserLemmas.ParseEmpty | src/lang/parser.js:66-68 | the empty query fails at the EOF token, expecting PREFIX, URI or PREFIXED_URI |
| ParserLemmas.QueryRejectsStart | src/lang/parser.js:66-68 | a query must begin with PREFIX, URI or PREFIXED_URI |
| ParserLemmas.PrefixListRejects | src/lang/parser.js:70-78 | after the declarations, a token that is neither PREFIX, URI nor PREFIXED_URI fails expecting PREFIX |
| ParserLemmas.PrefixTargetMustBeUri | src/lang/parser.js:80-83 | a prefix must be bound to a URI token, not a prefixed URI |
| ParserLemmas.MultiEdgeSkips | src/lang/parser.js:248-252 | a multi edge consumes `[`, the id and one more token whatever it is, without checking for `]` |
| ParserLemmas.MultiEdgeAtEnd | src/lang/parser.js:249-251 | when that skipped token is the final EOF, reading the next token fails |
| ParserLemmas.SelectorKind | src/lang/parser.js:222-243 | after an edge, URI, `[`, PREFIXED_URI or `}` make a leaf selector; `(`, `{` or `=>` start a nested query; anything else fails listing the seven |
| Printer.ParseUnparse | src/lang/parser.js:55-64 | the token stream a well-formed query prints to parses back to the query |
| Printer.ParsePrinted | src/lang/parser.js:51-53 | the text of a well-formed query, with any whitespace layout between its tokens, parses back to the query |
| Nodes.MakeNode | src/node.js:40-45 | `Node(init)` keeps every field given, and a field not given is `''` |
| Nodes.MakeNodeOfNode | src/node.js:40-45 | constructing a node from the fields of a node gives the same node |
| Nodes.NamedNodeDefaults | src/node.js:40-45 | a node built from only a type and a value has `''` language and datatype, neither truthy |
| Nodes.NamedNode | src/query.js:309-316 | the named node of a value has that value and no truthy language or datatype |
| Nodes.NodeSetOf | src/node.js:53-55 | `nodeSet(xs)` holds exactly the node built from each element; it is no larger than the list and empty exactly for the empty list |
| Nodes.EmptyNodeSet | src/node.js:53 | `nodeSet()` is empty |
| Nodes.NodeSetCollapses | src/node.js:53-55 | two structurally equal nodes collapse into one element |
| Nodes.NodeSetOfNodes | src/node.js:54 | `nodeSet` of nodes is the set of those nodes |
| NodeOrder.Enumerate | src/query.js:83 | iterating a node set visits each element once, in one fixed order |
| NodeOrder.AscendingUnique | src/query.js:83 | in the model, where iteration follows a fixed total order on nodes, two ascending duplicate-free enumerations of the same set are equal |
| NodeOrder.Least | src/query.js:297 | a non-empty set has a least node in iteration order, below every other element |
| NodeOrder.First | src/query.js:297 | `first()` is absent exactly for the empty set, and otherwise the first element in iteration order |
| Indexes.Insert | src/rdf/graph.js:46-54 | `update(key, nodes => nodes ? nodes.add(n) : nodeSet([n]))` adds the node under the key and leaves every other key alone |
| Indexes.Build | src/rdf/graph.js:41-55 | the loop of `fromQuads` builds indices that hold exactly what the quads determine |
| Indexes.AddQuadDescribes | src/rdf/graph.js:45-54 | indexing one more quad keeps the indices exact for the larger quad set |
| Indexes.AddQuad | src/rdf/graph.js:45-54 | one iteration of `fromQuads` adds the object under the quad's (s, p) key and the subject under its (p, o) and (p, o, g) keys, and changes no other key |
| Indexes.DescribedContains | src/rdf/graph.js:45-54 | every quad is found under its (s, p), (p, o) and (p, o, g) keys |
| Indexes.DescribedComesFromQuads | src/rdf/graph.js:45-54 | every indexed node comes from a quad with that key |
| Indexes.Match | src/rdf/graph.js:70-84 | `match` fails with the unsupported-match `GraphError` exactly when neither subject with predicate nor predicate with object is given |
| Indexes.MatchAnswers | src/rdf/graph.js:70-84 | on exact indices, subject and predicate give the objects of those quads, and predicate and object give their subjects, within the named graph when one is given |
| Indexes.Merge | src/rdf/graph.js:93-95 | `mergeDeep` of two indices has the keys of both, each holding the union of both sets |
| Indexes.MergeIndices | src/rdf/graph.js:91-96 | merging exact indices of two quad sets gives exact indices of their union |
| Indexes.MergeCommutative | src/rdf/graph.js:93-95 | merging indices is commutative |
| Indexes.MergeAssociative | src/rdf/graph.js:93-95 | merging indices is associative |
| Indexes.MergeEmpty | src/rdf/graph.js:93-95 | merging with the empty index changes nothing |
| Graphs.EmptyGraphConsistent | src/rdf/graph.js:28-33 | `new Graph()` has exact (empty) indices |
| Graphs.FromQuads | src/rdf/graph.js:41-57 | `fromQuads` keeps the set of quads and indexes every quad under its three keys, and nothing else |
| Graphs.Match | src/rdf/graph.js:70-84 | on a graph built by these operations, `match` answers from the quads: objects for (s, p), subjects for (p, o) or (p, o, g), otherwise the `GraphError` |
| Graphs.Union | src/rdf/graph.js:91-98 | the union holds the quads of both graphs and stays consistent |
| Graphs.UnionCommutative | src/rdf/graph.js:91-98 | union is commutative |
| Graphs.UnionAssociative | src/rdf/graph.js:91-98 | union is associative |
| Graphs.UnionEmpty | src/rdf/graph.js:91-98 | the empty graph is the unit of union |
| Graphs.ConsistentUnique | src/rdf/graph.js:28-33 | two consistent graphs with the same quads are equal |
| Graphs.UnionOfFromQuads | src/rdf/graph.js:41-98 | the union of the graphs of two quad lists is the graph of the concatenated list |
| LegacyGraphs.FromQuads | src/graph.js:39-55 | the older `fromQuads` builds the same three indices, without a quad set |
| LegacyGraphs.Match | src/graph.js:68-82 | the older `match` reads the index its arguments select, with the empty set for a missing key, or fails with the `GraphError` |
| LegacyGraphs.MatchFromQuads | src/graph.js:39-82 | on a graph from quads, the older `match` gives the objects or subjects of those quads, within the named graph when one is given |
| LegacyGraphs.Union | src/graph.js:89-95 | the older union merges the three indices key by key |
| LegacyGraphs.UnionOfFromQuads | src/graph.js:39-95 | the union of the graphs of two quad lists is the graph of the concatenated list |
| Backends.On | src/backends/backend.js:46-52 | `on` appends the handler to that event's list and changes no other list |
| Backends.Trigger | src/backends/backend.js:54-57 | `trigger` of an event with no handlers calls nothing |
| Backends.TriggerCallsRegistered | src/backends/backend.js:46-57 | after any sequence of `on` calls, `trigger` calls exactly the handlers registered for that event, in registration order |
| Backends.NotImplemented | src/backends/backend.js:30-44 | an abstract lookup fails with a `NotImplementedError` whose message names the method and the class |
| Backends.AbstractBackend | src/backends/backend.js:30-44 | the base class rejects every `getObjects` and every `getSubjects` call, each naming the method called |
| Backends.GetObjects | src/backends/in-memory-backend.js:22-24 | the in-memory `getObjects` gives the objects of the quads with that subject and predicate |
| Backends.GetSubjects | src/backends/in-memory-backend.js:26-32 | the in-memory `getSubjects` gives the subjects of the quads with that predicate and object, within the named graph when one is given |
| Backends.InMemory | src/backends/in-memory-backend.js:22-32 | the in-memory backend never rejects |
| Backends.InMemoryObjectsSound | src/backends/in-memory-backend.js:22-24 | an object is found exactly when some quad links the subject to it by the predicate |
| Backends.InMemorySubjectsSound | src/backends/in-memory-backend.js:26-32 | a subject is found exactly when some quad, in the named graph if one is given, links it to the object |
| Backends.GraphName | src/backends/web-backend.js:70-74 | a named node's graph name is its value up to the first `#`; other terms have none |
| Backends.GraphNameUnique | src/backends/web-backend.js:70-74 | that name is the only prefix without `#` that reaches either the end or a `#` |
| WebBackend.Outcome | src/backends/web-backend.js:53-54 | awaiting a stored load gives `undefined` or that load's error |
| WebBackend.EnsureGraphLoaded | src/backends/web-backend.js:49-62 | no name gives `false`; a stored name gives its stored outcome without fetching; a new name is fetched once, its graph united on success, and the outcome stored either way |
| WebBackend.EnsureGraphLoadedTwice | src/backends/web-backend.js:53-54 | loading a name a second time changes nothing and gives the first answer |
| WebBackend.LoadEachFetchesOnce | src/backends/web-backend.js:49-62 | between resets, each graph name is fetched at most once, and exactly the non-empty names asked for are fetched |
| WebBackend.EnsureGraphLoadedGrows | src/backends/web-backend.js:58-60 | loading only adds quads, and keeps a consistent graph consistent |
| WebBackend.QueryDone | src/backends/web-backend.js:29 | the `queryDone` handler empties `loadingGraphs` and keeps the graph |
| WebBackend.RefetchAfterQueryDone | src/backends/web-backend.js:29 | after a reset, a name is fetched again |
| WebBackend.GetObjects | src/backends/web-backend.js:32-35 | `getObjects` loads the subject's document first, and then answers from the grown graph or rejects with the load's error |
| WebBackend.GetSubjects | src/backends/web-backend.js:37-42 | `getSubjects` loads only when a named graph is given, and then answers from the graph |
| LdpBackend.EnsureGraphLoaded | src/backends/ldp-backend.js:49-60 | no name gives `false`; a locked name gives `true` without fetching; otherwise it fetches, unites and locks the name on success, or rejects without locking |
| LdpBackend.LockedNameNotRefetched | src/backends/ldp-backend.js:53-55 | after a successful load, loading the same name again fetches nothing |
| LdpBackend.QueryDone | src/backends/ldp-backend.js:29 | the `queryDone` handler clears the locks and keeps the graph |
| LdpBackend.GetObjects | src/backends/ldp-backend.js:32-35 | `getObjects` loads the subject's document first, then answers from the graph |
| LdpBackend.GetSubjects | src/backends/ldp-backend.js:37-42 | `getSubjects` loads only when a named graph is given, then answers from the graph |
| QueryEngine.GetPrefixMap | src/query.js:65-71 | the prefix map has each name once, bound to a string |
| QueryEngine.PrefixMapNames | src/query.js:65-71 | the prefix map's names are exactly the declared names |
| QueryEngine.PrefixMapLastWins | src/query.js:65-71 | a name is bound to the URI of its last declaration |
| QueryEngine.ToNode | src/query.js:308-323 | a URI gives the named node of its value; a prefixed URI with a truthy base gives the named node of base plus path, and otherwise fails with "Missing prefix definition" |
| QueryEngine.ToNodeDeclared | src/query.js:313-319 | a prefixed URI resolves exactly when the last declaration of its prefix has a non-empty URI |
| QueryEngine.ToNodeLastDeclaration | src/query.js:313-319 | it then resolves to the named node of that URI followed by the path |
| QueryEngine.LastDeclaration | src/query.js:65-71 | a declared name has a last declaration |
| QueryEngine.ToPrefixed | src/query.js:331-338 | `toPrefixed` abbreviates with the first prefix in map order whose base starts the URI, and otherwise returns the URI unchanged |
| QueryEngine.ToPrefixedRoundTrip | src/query.js:313-334 | an abbreviation made by `toPrefixed` resolves back to the same named node through `toNode` |
| QueryEngine.FormatNode | src/query.js:346-362 | null stays null; a node without truthy datatype or language is its value; otherwise an object whose keys are `@value`, then `@type` exactly when the datatype is truthy, then `@language` exactly when the language is, the last two holding `undefined` (the `.value` of a string field) |
| QueryEngine.Dedupe | src/query.js:238-239 | equal formatted strings collapse, as mapping an Immutable set does, keeping every distinct value |
| QueryEngine.FormatAll | src/query.js:237-240 | the formatted objects of a multi edge are exactly the formats of the node set, no more of them than nodes |
| QueryEngine.FormatEach | src/query.js:239 | each node of the list formatted, in order |
| QueryEngine.FormatEachMembers | src/query.js:237-240 | formatting an enumeration of a set gives exactly the formats of the set's nodes |
| QueryEngine.All | src/query.js:128-130 | `Promise.all` succeeds exactly when every lookup does, with their values in order, and otherwise fails with the first failure |
| QueryEngine.UnionAll | src/query.js:146-148 | the union reduce fails on an empty list, fails with the first failure, and otherwise holds exactly the elements of some result |
| QueryEngine.IntersectAll | src/query.js:128-130 | the intersect reduce fails on an empty list and otherwise holds exactly the elements common to all sets |
| QueryEngine.ObjectsOfAll | src/query.js:146-148 | the objects of the context nodes along the predicate: success exactly when the list is non-empty, the predicate resolves and every lookup succeeds, holding exactly the objects found |
| QueryEngine.SubjectsOfAll | src/query.js:155-157 | the subjects of the selected nodes along the predicate, with the same success condition and contents |
| QueryEngine.ValueNodes | src/query.js:105-116 | a leaf match's URI or prefixed URI selects its one node; a string literal fails with a `QueryError` |
| QueryEngine.SpecifiedNodes | src/query.js:105-117 | the empty specifier keeps the context; an empty match list fails; a subject match list never fails otherwise and selects only context nodes |
| QueryEngine.MatchList | src/query.js:127-131 | one result per match, in order; in a subject context each succeeds within the context |
| QueryEngine.Matches | src/query.js:142-176 | a subject-context match succeeds with the context nodes the subject lookup found (none when that lookup fails, none for a null context); a graph-context match on one graph node gives the subjects found within that graph, and on other than one node gives no nodes (the source's answer for two or more nodes; for none the source yields `undefined`, a case no query reaches) |
| QueryEngine.SubjectMatch | src/query.js:145-158 | the lookups of a subject-context match: an empty context fails the union reduce; a success means the predicate resolved and every context node's object lookup succeeded, and every node found is a subject of the predicate for some object |
| QueryEngine.NextObjects | src/query.js:283-291 | the objects of a multi edge are the backend's answer for the resolved predicate, or the resolution's error |
| QueryEngine.NextObject | src/query.js:293-301 | a single edge takes the first object in iteration order, or null when there is none |
| QueryEngine.TraverseLeafSelector | src/query.js:229-245 | a leaf selector gives one key, the abbreviated predicate; a single edge holds the formatted first object (null exactly when there is none), a multi edge the set of formatted objects; lookup failures pass through |
| QueryEngine.Response | src/query.js:209-220 | the response succeeds exactly when the selector loop does, passing its error through otherwise; it starts with `@id`, and a stopped loop gives exactly `@id` and the `@error` formatted from the stopping error |
| QueryEngine.SelectorLoop | src/query.js:188-208 | the loop completes exactly when every selector from the current one succeeds, collecting their results in order after those already collected; otherwise the first failing selector decides: a leaf selector's inline error stops it, any other failure is rethrown |
| QueryEngine.SpreadAll | src/query.js:216-219 | spreading results that each have unique keys gives unique keys, and every key of the last result reads that result's value |
| QueryEngine.SelectorResults | src/query.js:188-208 | one result per selector, in order |
| QueryEngine.SelectorResult | src/query.js:190-207 | a selector that succeeds gives an object with exactly one key |
| QueryEngine.TraverseIntermediateSelector | src/query.js:253-274 | an intermediate selector that succeeds gives an object with exactly one key |
| QueryEngine.Traverse | src/query.js:185-221 | a successful traversal response starts with the node's `@id` |
| QueryEngine.RunQuery | src/query.js:51-58 | the query fails exactly when resolving the context or answering for it fails, with that error; otherwise `@context` holds the prefix map unless the answer itself has that key, and every other key reads the answer's value |
| QueryEngine.Run | src/query.js:26-31 | a parse error fails the query; otherwise the parsed query runs; the `queryDone` handlers are called exactly when the query succeeds |
| QueryEngine.Csq | src/query.js:80-97 | a successful context-sensitive query gives an object |
| QueryFacts.IntersectionOfAll | src/query.js:128-130 | awaiting then intersecting succeeds exactly for a non-empty list of successes, holding exactly the nodes in every result |
| QueryFacts.MatchListIsIntersection | src/query.js:127-131 | a match list succeeds exactly when it is non-empty and every match succeeds, and selects exactly the nodes every match selects |
| QueryFacts.InMemoryObjectsOfAll | src/query.js:146-148 | over the in-memory backend, the object lookups of a non-empty context succeed whenever the predicate resolves |
| QueryFacts.InMemorySubjectsOfOne | src/query.js:155-157 | over the in-memory backend, the subject lookup of one node is the graph's answer |
| QueryFacts.LeafSubjectMatch | src/query.js:146-157 | once the object lookups succeed, a leaf match's subjects are those of its value's node, or the value's resolution error |
| QueryFacts.LeafMatchInMemory | src/query.js:142-161 | over the in-memory backend, a leaf match keeps the context nodes that are subjects of the predicate and value, and gives no nodes when the context is empty or a name does not resolve |
| QueryFacts.LeafMatchSelectsSubjects | src/query.js:142-161 | over a consistent in-memory graph, a leaf match selects a context node exactly when a quad links it to the value by the predicate |
| QueryFacts.SelectorLoopCompletes | src/query.js:188-208 | when every selector succeeds, the loop collects all their results in order |
| QueryFacts.SelectorLoopFails | src/query.js:188-208 | the first failing selector stops the loop: inlined when it is a leaf selector with an inline error, propagated otherwise |
| QueryFacts.SpreadAllLastWins | src/query.js:216-219 | spreading the selector results gives each key once, with the value of the last result that has it |
| QueryFacts.ResponseLastWins | src/query.js:214-220 | in the response after `@id`, a key reads the value of its last selector |
| QueryFacts.CompletedResponse | src/query.js:214-220 | a completed loop answers `@id` followed by the spread results |
| QueryFacts.CollectedLastWins | src/query.js:214-220 | in a completed response, each selector's key reads the value of the last selector with that key |
| QueryFacts.TraverseCompletes | src/query.js:185-221 | when every selector succeeds, the response is `@id` followed by all results spread in order |
| QueryFacts.TraverseCollects | src/query.js:185-221 | when every selector succeeds, the response holds each selector's value under its key, unless a later selector reuses the key |
| QueryFacts.TraverseStopsAtFirstFailure | src/query.js:188-213 | at the first failing selector, a leaf selector's inline error becomes `{@id, @error}`, and any other failure fails the traversal |
| QueryFacts.CsqEmptySpecifier | src/query.js:80-89 | with the empty specifier, the response is the context node's traversal |
| QueryFacts.CsqSubjectSpecifier | src/query.js:80-89 | with a subject specifier, the response is `{}` when the context does not survive, and its traversal otherwise |
| QueryFacts.CsqGraphSpecifier | src/query.js:80-95 | with a graph specifier, a successful response is `{}` when nothing is selected, and otherwise `{@id, @graph}` whose items are the traversals of the selected nodes, in order |
| QueryFacts.RunTriggersQueryDone | src/query.js:26-31 | a successful query calls each registered `queryDone` handler once, in registration order; a failed one calls none |
| Serialize.TermInit | src/rdf/serialize.js:29-43 | the record argument built for each kind of term; a literal's empty language and `xsd:string` datatype are passed as null |
| Serialize.TermNode | src/rdf/serialize.js:29-44 | an IRI becomes the named node of the IRI; a literal or blank node keeps its value; the default graph gives no node |
| Serialize.LiteralNormalised | src/rdf/serialize.js:32-39 | a parsed literal's datatype is absent exactly when it was `xsd:string`, and its language exactly when it was empty |
| Serialize.ParseQuad | src/rdf/serialize.js:26-48 | each term of a reported quad is converted; a quad of the default graph gets the document's named node when a graph name is given, and no graph otherwise |
| Serialize.ParseEach | src/rdf/serialize.js:23-49 | every reported quad is converted, in order |
| Serialize.ParseNQuads | src/rdf/serialize.js:17-55 | a parse error rejects with that error; otherwise the result is a consistent graph |
| Serialize.ParsedQuads | src/rdf/serialize.js:45-51 | the parsed graph holds exactly the converted reported quads |
| Serialize.NQuadTerm | src/rdf/serialize.js:88-101 | a named node is written as its value, a literal is written, and any other node has no term |
| Serialize.LiteralTerm | src/rdf/serialize.js:92-100 | a literal is its value between double quotes, verbatim, then `^^` and the datatype when it has one (whatever its language), else `@` and the language when it has one, else nothing |
| Serialize.TermRoundTrip | src/rdf/serialize.js:29-100 | an IRI read and written back is unchanged; a literal keeps its value, drops an `xsd:string` or empty datatype and keeps its language only without another datatype |
| Serialize.BlankHasNoTerm | src/rdf/serialize.js:88-101 | a blank node read from a document has no term to write |
| Serialize.QuadTerms | src/rdf/serialize.js:68-75 | the graph argument handed to the writer is absent exactly when the quad has no graph or its graph has no term |
| Serialize.QuadRoundTrip | src/rdf/serialize.js:46-75 | a quad of IRIs read and written back hands the writer the same IRIs, with the document's name as the graph of a default-graph quad |

## Left out

- Promise and event-loop semantics: lookups run one after another. LDP's missing deduplication
  under concurrent calls (the lock is set after the fetch) is a concurrency property and is not
  modelled.
- `src/web.js` (HTTP fetch, timeout, status check) is not part of this model. Fetching a document
  is the parameter `Fetch`.
- `isWebUri` from `valid-url` is not interpreted. It is a parameter of the lexer and parser.
- The N3 library's parser and writer are not part of this model: their syntax, escaping, IRI
  brackets and the output text. A term is represented by what the N3 utilities report for it.
  `serializeNQuads` is modelled by the arguments it hands the writer, one quad at a time.
- `src/rdf/node.js` is not part of this model (see above). `src/quad.js` and
  `src/backends/rdflib-helpers.js` (conversion to rdflib objects) are library wrappers and are
  left out.
- `TokenStream.lookahead` is not modelled. No rule of the grammar calls it.
- Token columns are computed as the lexer computes them: the column current when the token is
  emitted, with a newline resetting the column to 0 before the next advance. No lemma states a
  general column property. `src/lang/lexer.spec.js` expects start columns instead.
- Exact error message text is modelled only for the errors whose fields the model states: lexer
  errors, `UnexpectedTokenError`, "Missing prefix definition", `NotImplementedError` and the
  unsupported-match `GraphError`. The texts of the `TypeError`s that stand for JavaScript
  runtime failures are not the engines' exact wording.
- `Immutable` iteration order is abstracted as a fixed total order on nodes.
- Key lookups in plain objects ignore inherited properties such as `constructor`.
- The query engine's `default` branches for AST types that the parser never produces (an unknown
  selector, edge or node specifier type) are not reachable in the typed AST and are not modelled.
- The browser UI, demo, build files and test fixtures are left out.
- Csq: its contract states only that a successful result is an object. Its three cases are
  stated by QueryFacts.CsqEmptySpecifier, QueryFacts.CsqSubjectSpecifier and
  QueryFacts.CsqGraphSpecifier.
- Traverse: its contract states only the leading `@id`. What the response holds is stated by
  QueryFacts.TraverseCompletes, QueryFacts.TraverseCollects and
  QueryFacts.TraverseStopsAtFirstFailure.
- TraverseIntermediateSelector: its contract states only that a success has one key. The nested
  responses are not related to the sub-query by a separate lemma.
- SelectorResult: its contract states only that a success has one key. The leaf case is stated
  in full by QueryEngine.TraverseLeafSelector.
- Parser.ParseCsq: its contract states only how far it reads. What it produces is stated by the round-trip and rejection lemmas of ParserLemmas.
- Parser.ParseNodeSpecifier: its contract states only how far it reads. What it produces is stated by the round-trip and rejection lemmas of ParserLemmas.
- Parser.ParseMatchList: its contract states only how far it reads. What it produces is stated by the round-trip and rejection lemmas of ParserLemmas.
- Parser.MatchLoop: its contract states only how far it reads. What it produces is stated by the round-trip and rejection lemmas of ParserLemmas.
- Parser.ParseMatch: its contract states only how far it reads. What it produces is stated by the round-trip and rejection lemmas of ParserLemmas.
- Parser.ParseTraversal: its contract states only how far it reads. What it produces is stated by the round-trip and rejection lemmas of ParserLemmas.
- Parser.SelectorLoop: its contract states only how far it reads. What it produces is stated by the round-trip and rejection lemmas of ParserLemmas.
- Parser.ParseSelector: its contract states only how far it reads. What it produces is stated by the round-trip and rejection lemmas of ParserLemmas.
- Lexer.Run: its contract states only that a scan that does not stop ends with EOF. Its steps
  are stated by the step lemmas of LexerLemmas.
- Lexer.Tokenize: its contract states only that a scan that does not stop ends with EOF. What
  it emits is stated by LexerLemmas.LexLayout and the examples of LexerFacts.
- Lexer.RunStart: its contract states only that a scan that does not stop ends with EOF after
  the tokens already emitted. Each START transition is stated by LexerLemmas.StepSpace,
  StepStartSym, StepStartKw, StepStartQuote and StepStartAlpha, and a whole layout by
  LexerLemmas.LexLayout.
- Lexer.RunIdent: its contract states only the EOF tail property. Its transitions are stated by
  LexerLemmas.StepIdentChar and StepIdentEnd.
- Lexer.RunStr: its contract states only the EOF tail property. Its transitions are stated by
  LexerLemmas.StepStrChar and StepStrEnd.
- Lexer.RunSym: its contract states only the EOF tail property. Its transitions are stated by
  LexerLemmas.StepSymEnd and the symbol examples of LexerFacts.
- Lexer.RunKw: its contract states only the EOF tail property. Its transitions are stated by
  LexerLemmas.StepKwChar, StepKwExtend, StepKwStuck and StepKwEnd.
- Parser.PrefixLoop: its contract states how far it reads and that earlier declarations stay in
  front. Which declaration each three tokens give is stated by
  ParserLemmas.PrefixLoopDeclaration and ParserLemmas.PrefixLoopRoundTrip.
- Parser.ParsePrefixList: its contract states only how far it reads and its rejections. What it
  produces is stated through Parser.PrefixLoop by ParserLemmas.PrefixLoopDeclaration and
  ParserLemmas.PrefixLoopRoundTrip.
- Parser.ParseQuery: its contract states only when a query can succeed and its rejections. The
  query produced is stated by ParserLemmas.QueryRoundTrip and Printer.ParseUnparse.
- Parser.Parse: its contract states only that it needs text the lexer accepts. The query
  produced from text is stated by Printer.ParsePrinted.
- Indexes.Match: its contract states only when it fails. Its answers are stated by
  Indexes.MatchAnswers, for the current graph class by Graphs.Match, and for the older graph
  class built from quads by LegacyGraphs.MatchFromQuads.
- Backends.Trigger: its contract states only the case without handlers. Which handlers run,
  and in which order, is stated by Backends.TriggerCallsRegistered.
- QueryEngine.GetPrefixMap: its contract states only that names are unique and bound to
  strings. Which names and which URIs are stated by QueryEngine.PrefixMapNames and
  QueryEngine.PrefixMapLastWins.
- QueryEngine.SpecifiedNodes: its contract states only the empty specifier, the empty match
  list and the subject-context bound. The intersection of the matches is stated by
  QueryFacts.MatchListIsIntersection.
- QueryEngine.SubjectMatch: its contract states that every node found is a subject of the
  predicate for some object, not that every such subject is found. The leaf case is stated
  in full by QueryFacts.LeafSubjectMatch; the intermediate case has no such lemma.
- QueryEngine.Response: its contract does not state the completed case beyond `@id`. That is
  stated by QueryFacts.CompletedResponse and QueryFacts.TraverseStopsAtFirstFailure.
- QueryEngine.SpreadAll: its contract states only the last result's keys and uniqueness. Every
  key is stated by QueryFacts.SpreadAllLastWins; the order of the keys is not stated.
- Serialize.TermInit: its contract states the record built for each kind of term, not the node
  the record makes. That node is stated by Serialize.TermNode.
- Serialize.ParseNQuads: its contract states only the error case and consistency. The quads of
  the graph are stated by Serialize.ParsedQuads.
- Serialize.NQuadTerm: its contract states only which nodes have a term. The text of a literal
  is stated by Serialize.LiteralTerm.
- Serialize.QuadTerms: its contract states only when the graph argument is absent. The terms
  handed over are stated by Serialize.QuadRoundTrip.
