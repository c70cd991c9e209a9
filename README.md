# Cucumber Expressions: tokenizer and parser

This project models the front end of Cucumber Expressions (the Java
implementation, `cucumber-expressions-java`). A Cucumber Expression such as
`three (blind) mice/rats {int}` is first split into tokens. The tokens are then
parsed into a syntax tree: text, optionals `( )`, parameters `{ }` and
alternations `a/b`. The repository's JUnit tests for
`CucumberExpressionTokenizer.tokenize` and `CucumberExpressionParser.parse` fix
the behaviour example by example. This model states that behaviour as total
functions and proves general properties about them. Every test is also proved
as a lemma.

Files:

- `ast.dfy` (module `Ast`) holds the shared vocabulary:
  - token kinds, including the six `Escaped*` kinds and the `Escape` kind for a lone trailing backslash;
  - the `Token` value and the `AstNode` sum (five kinds with children, and `TextNode` with one token);
  - `Unescape`, which drops a backslash and gives the token the tag of the character it stands for;
  - `Render`, which writes a tree back out as text;
  - the well-formedness predicates every parse result satisfies.
- `tokenizer.dfy` (module `Tokenizer`) holds `Tokenize`, one left-to-right pass with one character of lookahead. It proves:
  - the tokens spell the input;
  - the token sequence is canonical: runs of text are maximal and a lone backslash comes only at the end;
  - `Tokenize` is the inverse of concatenation on canonical sequences;
  - resolving escapes token by token agrees with resolving them character by character.
- `parser.dfy` (module `Parser`) holds the parser in three layers:
  1. An item layer groups `(`…`)` (closed by the nearest following `)`, even across spaces), `{}` and `{`TEXT`}`.
  2. A run layer cuts the items at the unescaped spaces that are left.
  3. An alternation layer turns a run that still holds an unescaped `/` into an alternation.

  It proves that:
  - every result is a well-formed expression;
  - the tree, written back out, is the input with its escapes resolved;
  - inputs of each shape the tests use parse to the tree of that shape, whatever the words.
- `tokenizer_examples.dfy` and `parser_examples.dfy` hold one lemma per test. Each lemma goes from the test's string to the exact token list or tree the test expects.

## Model

All source paths are under `src/test/java/io/cucumber/cucumberexpressions/`; the
table writes them in full.

| member | source | states |
|---|---|---|
| Ast.UnescapedKind | src/test/java/io/cucumber/cucumberexpressions/CucumberExpressionParserTest.java:120-127 | an escaped kind maps to the structural kind of the character it escapes; every other kind is unchanged; the result is never an escaped kind |
| Ast.Unescape | src/test/java/io/cucumber/cucumberexpressions/CucumberExpressionParserTest.java:209-218 | a well-formed escaped token becomes the one character after the backslash, tagged with that character's structural kind; other tokens are unchanged |
| Tokenizer.TextRunLength | src/test/java/io/cucumber/cucumberexpressions/CucumberExpressionTokenizerTest.java:117-128 | the length of the longest prefix of ordinary characters: everything before it is ordinary and the character at it (if any) is not, so a space, escape or structural character ends a TEXT run |
| Tokenizer.Tokenize | src/test/java/io/cucumber/cucumberexpressions/CucumberExpressionTokenizerTest.java:34-141 | the token texts concatenate back to the input exactly, and the output is canonical: every token well formed for its kind, no two TEXT tokens adjacent, a lone backslash only as the last token |
| Tokenizer.CanonicalCons | src/test/java/io/cucumber/cucumberexpressions/CucumberExpressionTokenizerTest.java:34-43 | prepending a well-formed token that neither extends a TEXT run nor is a lone backslash in front of more tokens keeps a sequence canonical |
| Tokenizer.TokenizeCons | src/test/java/io/cucumber/cucumberexpressions/CucumberExpressionTokenizerTest.java:117-128 | the tokenizer reads a well-formed token off the front of a string and continues on the rest, provided a TEXT token is not followed by another ordinary character |
| Tokenizer.TokenizeConcat | src/test/java/io/cucumber/cucumberexpressions/CucumberExpressionTokenizerTest.java:34-141 | Tokenize inverts concatenation on canonical sequences: a canonical token list is the only tokenization of its text |
| Tokenizer.UnescapedTokenize | src/test/java/io/cucumber/cucumberexpressions/CucumberExpressionTokenizerTest.java:54-61 | resolving escapes token by token (drop the backslash of each escaped token) gives the same text as removing every escaping backslash from the string |
| Parser.FindFrom | src/test/java/io/cucumber/cucumberexpressions/CucumberExpressionParserTest.java:174-191 | returns the nearest position at or after the start that holds the kind, with none of that kind before it; returns None only when no such token exists |
| Parser.FindFromFirst | src/test/java/io/cucumber/cucumberexpressions/CucumberExpressionParserTest.java:155-172 | the nearest token of the kind is the one found, whatever follows it |
| Parser.ParseOptional | src/test/java/io/cucumber/cucumberexpressions/CucumberExpressionParserTest.java:174-191 | matches exactly when the first token is `(` and some `)` follows; then it consumes through the nearest `)`, holds no `)` inside, and its node is the optional of the inner tokens as text |
| Parser.ParseOptionalContent | src/test/java/io/cucumber/cucumberexpressions/CucumberExpressionParserTest.java:174-191 | content without `)` (all an optional can hold) parses to its tokens as text nodes, so an inner `(` stays literal |
| Parser.ParseParameter | src/test/java/io/cucumber/cucumberexpressions/CucumberExpressionParserTest.java:58-76 | matches exactly `{` `}` (an empty parameter, 2 tokens) or `{` TEXT `}` (a parameter holding that text, 3 tokens) |
| Parser.NextItem | src/test/java/io/cucumber/cucumberexpressions/CucumberExpressionParserTest.java:47-76 | consumes at least one token; an optional is tried first and, when it matches, is the item with the tokens it consumed; otherwise a matching parameter is; only when neither matches is the item the first token on its own, and a group it builds is a well-formed optional or parameter |
| Parser.ParseItems | src/test/java/io/cucumber/cucumberexpressions/CucumberExpressionParserTest.java:47-191 | the item layer over a whole input: every group it builds is a well-formed optional or parameter; with `Parser.RenderParseItems`, its items written back out spell every token, in order |
| Parser.ParseItemsSingles | src/test/java/io/cucumber/cucumberexpressions/CucumberExpressionParserTest.java:129-138 | every lone token the item layer leaves is a token of the input |
| Parser.FirstSingle | src/test/java/io/cucumber/cucumberexpressions/CucumberExpressionParserTest.java:221-239 | the position of the first lone token of the kind (or the length): no lone token of the kind before it |
| Parser.Alternatives | src/test/java/io/cucumber/cucumberexpressions/CucumberExpressionParserTest.java:194-207 | a run with a lone `/` yields at least two alternatives, each a well-formed alternative node |
| Parser.ParseTokens | src/test/java/io/cucumber/cucumberexpressions/CucumberExpressionParserTest.java:194-207 | the parser is total and always returns a well-formed expression: one expression root, whose children are well-formed items or alternations; an alternation has at least two alternatives and does not nest; no escaped kind appears anywhere |
| Parser.RunNodes | src/test/java/io/cucumber/cucumberexpressions/CucumberExpressionParserTest.java:194-239 | the alternation decision for one run: its nodes are valid expression children; `Parser.RunPlain` and `Parser.RunAlternation` give it exactly, items side by side without a lone `/`, one alternation split at the first lone `/` otherwise |
| Parser.BuildSequence | src/test/java/io/cucumber/cucumberexpressions/CucumberExpressionParserTest.java:221-262 | the run layer: runs cut at the lone spaces give valid expression children, each space kept as a text node; with `Parser.RenderBuildSequence`, the nodes spell the items' text, spaces included |
| Parser.Parse | src/test/java/io/cucumber/cucumberexpressions/CucumberExpressionParserTest.java:329-331 | the `parse` entry point every parser test calls: the result is a well-formed expression; with `Parser.RenderParse`, the tree written back out is the input with every escaping backslash removed |
| Parser.NoSlashNoAlternation | src/test/java/io/cucumber/cucumberexpressions/CucumberExpressionParserTest.java:34-191 | an input with no unescaped `/` parses to no alternation node: the expression's children are exactly the item layer's nodes |
| Parser.RenderParseTokens | src/test/java/io/cucumber/cucumberexpressions/CucumberExpressionParserTest.java:155-172 | for well-formed tokens, the tree written back out (parentheses, braces, slashes) is the tokens' text with escapes resolved |
| Parser.RenderParse | src/test/java/io/cucumber/cucumberexpressions/CucumberExpressionParserTest.java:140-153 | the tree of an expression, written back out, is the expression with every escaping backslash removed: nothing lost, added or reordered |
| Parser.RenderOptional | src/test/java/io/cucumber/cucumberexpressions/CucumberExpressionParserTest.java:47-56 | a matched optional spells exactly the tokens it consumed |
| Parser.RenderParameter | src/test/java/io/cucumber/cucumberexpressions/CucumberExpressionParserTest.java:58-76 | a matched parameter spells exactly the tokens it consumed |
| Parser.RenderParseItems | src/test/java/io/cucumber/cucumberexpressions/CucumberExpressionParserTest.java:78-91 | the item layer keeps every token's text, in order |
| Parser.RenderAlternatives | src/test/java/io/cucumber/cucumberexpressions/CucumberExpressionParserTest.java:221-239 | the alternatives joined by `/` spell the run they were cut from |
| Parser.RenderBuildSequence | src/test/java/io/cucumber/cucumberexpressions/CucumberExpressionParserTest.java:221-239 | the run layer keeps the items' text, the spaces between runs included |
| Parser.ItemsSingle | src/test/java/io/cucumber/cucumberexpressions/CucumberExpressionParserTest.java:34-45 | a token other than `(` or `{` is an item on its own |
| Parser.ItemsPlain | src/test/java/io/cucumber/cucumberexpressions/CucumberExpressionParserTest.java:34-45 | a stretch with no `(` or `{` passes through the item layer token by token, ahead of whatever follows |
| Parser.ItemsOptional | src/test/java/io/cucumber/cucumberexpressions/CucumberExpressionParserTest.java:174-191 | `(` closes at the nearest `)` whatever lies between (spaces and `(` included), and the tokens between become the optional's text |
| Parser.ItemsUnclosedOptional | src/test/java/io/cucumber/cucumberexpressions/CucumberExpressionParserTest.java:111-118 | a `(` with no `)` anywhere after it stays a lone token |
| Parser.ItemsParameter | src/test/java/io/cucumber/cucumberexpressions/CucumberExpressionParserTest.java:58-67 | `{` TEXT `}` is one parameter item holding the text |
| Parser.ItemsAnonymousParameter | src/test/java/io/cucumber/cucumberexpressions/CucumberExpressionParserTest.java:69-76 | `{` `}` is one parameter item with no children |
| Parser.ItemsUnclosedParameter | src/test/java/io/cucumber/cucumberexpressions/CucumberExpressionParserTest.java:102-109 | a `{` with no `}` anywhere after it stays a lone token |
| Parser.ItemsUnclosedAtEnd | src/test/java/io/cucumber/cucumberexpressions/CucumberExpressionParserTest.java:285-304 | a `(` or `{` as the last token stays a lone token after plain text |
| Parser.SequenceRun | src/test/java/io/cucumber/cucumberexpressions/CucumberExpressionParserTest.java:194-207 | items without a lone space form a single run |
| Parser.SequenceSplit | src/test/java/io/cucumber/cucumberexpressions/CucumberExpressionParserTest.java:221-239 | the first lone space ends the first run and stays in the tree as a text node between the runs |
| Parser.RunPlain | src/test/java/io/cucumber/cucumberexpressions/CucumberExpressionParserTest.java:78-91 | a run without a lone `/` is its items side by side |
| Parser.RunAlternation | src/test/java/io/cucumber/cucumberexpressions/CucumberExpressionParserTest.java:194-207 | a run with a lone `/` is one alternation whose first alternative is everything before the first `/` |
| Parser.RunTwo | src/test/java/io/cucumber/cucumberexpressions/CucumberExpressionParserTest.java:194-207 | a run with exactly one lone `/` is an alternation of exactly two alternatives, the items before and after it |
| Parser.SequencePlain | src/test/java/io/cucumber/cucumberexpressions/CucumberExpressionParserTest.java:78-91 | with no lone `/`, the run and alternation layers leave the items side by side, spaces included |
| Parser.PlainItemsParse | src/test/java/io/cucumber/cucumberexpressions/CucumberExpressionParserTest.java:155-172 | when the item layer leaves every token on its own and none is an unescaped `/`, the tree is the tokens as text nodes, escapes resolved |
| Parser.FlatParse | src/test/java/io/cucumber/cucumberexpressions/CucumberExpressionParserTest.java:34-45 | with no `(`, `{` or unescaped `/`, the tree is a flat, ordered list of text nodes, one per token, each space its own node |
| Parser.SequencePrefix | src/test/java/io/cucumber/cucumberexpressions/CucumberExpressionParserTest.java:221-239 | items ending in a lone space and holding no lone `/` come out as text in front of whatever the rest becomes |
| Parser.SequenceSuffix | src/test/java/io/cucumber/cucumberexpressions/CucumberExpressionParserTest.java:221-239 | a space-free run followed by items that start with a lone space and hold no lone `/` becomes that run's nodes followed by the items as text |
| Parser.SequenceAround | src/test/java/io/cucumber/cucumberexpressions/CucumberExpressionParserTest.java:221-239 | a run between two space-bounded stretches without `/` becomes that run's nodes, with the stretches around it as text |
| Parser.AlternationRun | src/test/java/io/cucumber/cucumberexpressions/CucumberExpressionParserTest.java:264-283 | only the whitespace-bounded run around the lone `/` becomes an alternation; the items before and after stay as siblings |
| Parser.AlternationOfItems | src/test/java/io/cucumber/cucumberexpressions/CucumberExpressionParserTest.java:306-327 | an item sequence with one lone `/` between two space-free runs parses to one alternation among the surrounding items, with groups kept inside their alternative |
| Parser.AlternationOfSingles | src/test/java/io/cucumber/cucumberexpressions/CucumberExpressionParserTest.java:264-283 | tokens the item layer leaves alone, with one unescaped `/` in a space-bounded run, parse to text, one two-way alternation, text |
| Parser.AlternationAmongText | src/test/java/io/cucumber/cucumberexpressions/CucumberExpressionParserTest.java:221-239 | among text that opens no group, the same: escaped spaces do not bound the run, unescaped spaces do |
| Parser.GroupAmongText | src/test/java/io/cucumber/cucumberexpressions/CucumberExpressionParserTest.java:78-91 | one group among lone tokens with no `/` is the group among text nodes |
| Parser.ItemsAmongText | src/test/java/io/cucumber/cucumberexpressions/CucumberExpressionParserTest.java:78-91 | text that opens no group stays token by token on either side of a group |
| Parser.GroupParse | src/test/java/io/cucumber/cucumberexpressions/CucumberExpressionParserTest.java:78-91 | a group among text without `/` parses to an expression of the text nodes around the group |
| Parser.OptionalAmongText | src/test/java/io/cucumber/cucumberexpressions/CucumberExpressionParserTest.java:78-91 | an optional among text: the tokens up to the nearest `)` are its text, the rest are text nodes around it |
| Parser.ParameterAmongText | src/test/java/io/cucumber/cucumberexpressions/CucumberExpressionParserTest.java:58-67 | a named parameter among text is a parameter node holding its name, with text nodes around it |
| Parser.AnonymousParameterAmongText | src/test/java/io/cucumber/cucumberexpressions/CucumberExpressionParserTest.java:69-76 | an anonymous parameter among text is a parameter node with no children, with text nodes around it |
| TokenizerExamples.EmptyStringExample | src/test/java/io/cucumber/cucumberexpressions/CucumberExpressionTokenizerTest.java:29-32 | the empty string has no tokens |
| TokenizerExamples.PhraseExample | src/test/java/io/cucumber/cucumberexpressions/CucumberExpressionTokenizerTest.java:34-43 | `three blind mice` is TEXT, WHITE_SPACE, TEXT, WHITE_SPACE, TEXT |
| TokenizerExamples.OptionalExample | src/test/java/io/cucumber/cucumberexpressions/CucumberExpressionTokenizerTest.java:45-52 | `(blind)` is BEGIN_OPTIONAL, TEXT, END_OPTIONAL |
| TokenizerExamples.EscapedOptionalExample | src/test/java/io/cucumber/cucumberexpressions/CucumberExpressionTokenizerTest.java:54-61 | `\(blind\)` is ESCAPED_BEGIN_OPTIONAL, TEXT, ESCAPED_END_OPTIONAL, each escaped token keeping its backslash |
| TokenizerExamples.OptionalPhraseExample | src/test/java/io/cucumber/cucumberexpressions/CucumberExpressionTokenizerTest.java:63-74 | `three (blind) mice` tokenizes as the test lists |
| TokenizerExamples.ParameterExample | src/test/java/io/cucumber/cucumberexpressions/CucumberExpressionTokenizerTest.java:76-83 | `{string}` is BEGIN_PARAMETER, TEXT, END_PARAMETER |
| TokenizerExamples.EscapedParameterExample | src/test/java/io/cucumber/cucumberexpressions/CucumberExpressionTokenizerTest.java:85-92 | `\{string\}` is ESCAPED_BEGIN_PARAMETER, TEXT, ESCAPED_END_PARAMETER |
| TokenizerExamples.ParameterPhraseExample | src/test/java/io/cucumber/cucumberexpressions/CucumberExpressionTokenizerTest.java:94-105 | `three {string} mice` tokenizes as the test lists |
| TokenizerExamples.EscapedAlternationExample | src/test/java/io/cucumber/cucumberexpressions/CucumberExpressionTokenizerTest.java:117-128 | escaped spaces and an escaped `/` are ESCAPED_WHITE_SPACE and ESCAPED_ALTERNATION tokens that end the TEXT runs around them |
| TokenizerExamples.AlternationPhraseExample | src/test/java/io/cucumber/cucumberexpressions/CucumberExpressionTokenizerTest.java:130-141 | an unescaped `/` is an ALTERNATION token that splits `blind/cripple` into two TEXT tokens |
| ParserExamples.EmptyStringExample | src/test/java/io/cucumber/cucumberexpressions/CucumberExpressionParserTest.java:27-32 | `""` parses to an expression node with no children |
| ParserExamples.PhraseShape | src/test/java/io/cucumber/cucumberexpressions/CucumberExpressionParserTest.java:34-45 | any word, space, word, space, word parses to five text nodes in order |
| ParserExamples.PhraseExample | src/test/java/io/cucumber/cucumberexpressions/CucumberExpressionParserTest.java:34-45 | `three blind mice` parses to the test's tree |
| ParserExamples.OptionalShape | src/test/java/io/cucumber/cucumberexpressions/CucumberExpressionParserTest.java:47-56 | any `(` word `)` is an optional holding that word |
| ParserExamples.OptionalExample | src/test/java/io/cucumber/cucumberexpressions/CucumberExpressionParserTest.java:47-56 | `(blind)` parses to the test's tree |
| ParserExamples.ParameterShape | src/test/java/io/cucumber/cucumberexpressions/CucumberExpressionParserTest.java:58-67 | any `{` word `}` is a parameter holding that word |
| ParserExamples.ParameterExample | src/test/java/io/cucumber/cucumberexpressions/CucumberExpressionParserTest.java:58-67 | `{string}` parses to the test's tree |
| ParserExamples.AnonymousParameterShape | src/test/java/io/cucumber/cucumberexpressions/CucumberExpressionParserTest.java:69-76 | `{` `}` is a parameter with no children |
| ParserExamples.AnonymousParameterExample | src/test/java/io/cucumber/cucumberexpressions/CucumberExpressionParserTest.java:69-76 | `{}` parses to the test's tree |
| ParserExamples.OptionalPhraseShape | src/test/java/io/cucumber/cucumberexpressions/CucumberExpressionParserTest.java:78-91 | word, space, optional word, space, word parses to text, an optional, text |
| ParserExamples.OptionalPhraseExample | src/test/java/io/cucumber/cucumberexpressions/CucumberExpressionParserTest.java:78-91 | `three (blind) mice` parses to the test's tree |
| ParserExamples.SlashShape | src/test/java/io/cucumber/cucumberexpressions/CucumberExpressionParserTest.java:93-100 | a lone backslash is one text node of kind ESCAPE |
| ParserExamples.SlashExample | src/test/java/io/cucumber/cucumberexpressions/CucumberExpressionParserTest.java:93-100 | `\` parses to the test's tree |
| ParserExamples.LoneOpeningShape | src/test/java/io/cucumber/cucumberexpressions/CucumberExpressionParserTest.java:102-118 | a lone `(` or `{` is a text node that keeps its structural kind |
| ParserExamples.OpeningBraceExample | src/test/java/io/cucumber/cucumberexpressions/CucumberExpressionParserTest.java:102-109 | `{` parses to the test's tree |
| ParserExamples.OpeningParenthesisExample | src/test/java/io/cucumber/cucumberexpressions/CucumberExpressionParserTest.java:111-118 | `(` parses to the test's tree |
| ParserExamples.EscapedOpeningParenthesisShape | src/test/java/io/cucumber/cucumberexpressions/CucumberExpressionParserTest.java:120-127 | an escaped `(` alone is a text node `(` of kind BEGIN_OPTIONAL |
| ParserExamples.EscapedOpeningParenthesisExample | src/test/java/io/cucumber/cucumberexpressions/CucumberExpressionParserTest.java:120-127 | `\(` parses to the test's tree |
| ParserExamples.EscapedOptionalShape | src/test/java/io/cucumber/cucumberexpressions/CucumberExpressionParserTest.java:129-138 | escaped `(`, word, `)` is three text nodes: the `(` unescaped and the `)` left literal |
| ParserExamples.EscapedOptionalExample | src/test/java/io/cucumber/cucumberexpressions/CucumberExpressionParserTest.java:129-138 | `\(blind)` parses to the test's tree |
| ParserExamples.EscapedOptionalPhraseShape | src/test/java/io/cucumber/cucumberexpressions/CucumberExpressionParserTest.java:140-153 | the same with a word and a space on each side: seven text nodes |
| ParserExamples.EscapedOptionalPhraseExample | src/test/java/io/cucumber/cucumberexpressions/CucumberExpressionParserTest.java:140-153 | `three \(blind) mice` parses to the test's tree |
| ParserExamples.EscapedOptionalFollowedByOptionalShape | src/test/java/io/cucumber/cucumberexpressions/CucumberExpressionParserTest.java:155-172 | an escaped `(` before an optional stays text; the optional closes at the first `)`; the leftover `)` is a text node |
| ParserExamples.EscapedOptionalFollowedByOptionalExample | src/test/java/io/cucumber/cucumberexpressions/CucumberExpressionParserTest.java:155-172 | `three \((very) blind) mice` parses to the test's tree |
| ParserExamples.OptionalContainingEscapedOptionalShape | src/test/java/io/cucumber/cucumberexpressions/CucumberExpressionParserTest.java:174-191 | an optional opened by `(` runs across an inner `(`, an escaped `)` and a space to the first unescaped `)`, all as text |
| ParserExamples.OptionalContainingEscapedOptionalExample | src/test/java/io/cucumber/cucumberexpressions/CucumberExpressionParserTest.java:174-191 | `three ((very\) blind) mice` parses to the test's tree |
| ParserExamples.AlternationShape | src/test/java/io/cucumber/cucumberexpressions/CucumberExpressionParserTest.java:194-207 | word `/` word is one alternation of two single-word alternatives |
| ParserExamples.AlternationExample | src/test/java/io/cucumber/cucumberexpressions/CucumberExpressionParserTest.java:194-207 | `mice/rats` parses to the test's tree |
| ParserExamples.EscapedAlternationShape | src/test/java/io/cucumber/cucumberexpressions/CucumberExpressionParserTest.java:209-218 | word, escaped `/`, word is three text nodes, the middle one `/` of kind ALTERNATION |
| ParserExamples.EscapedAlternationExample | src/test/java/io/cucumber/cucumberexpressions/CucumberExpressionParserTest.java:209-218 | `mice\/rats` parses to the test's tree |
| ParserExamples.AlternationPhraseShape | src/test/java/io/cucumber/cucumberexpressions/CucumberExpressionParserTest.java:221-239 | only the space-bounded run with the `/` becomes an alternation; the words and spaces around it are sibling text nodes |
| ParserExamples.AlternationPhraseExample | src/test/java/io/cucumber/cucumberexpressions/CucumberExpressionParserTest.java:221-239 | `three hungry/blind mice` parses to the test's tree |
| ParserExamples.AlternationWithWhiteSpaceShape | src/test/java/io/cucumber/cucumberexpressions/CucumberExpressionParserTest.java:241-262 | escaped spaces do not bound a run: the whole expression is one alternation, escaped spaces as space text nodes |
| ParserExamples.AlternationWithWhiteSpaceExample | src/test/java/io/cucumber/cucumberexpressions/CucumberExpressionParserTest.java:241-262 | `\ three\ hungry/blind\ mice\ ` parses to the test's tree |
| ParserExamples.AlternationWithUnusedEndOptionalShape | src/test/java/io/cucumber/cucumberexpressions/CucumberExpressionParserTest.java:264-283 | a stray `)` stays a text node inside the first alternative |
| ParserExamples.AlternationWithUnusedEndOptionalExample | src/test/java/io/cucumber/cucumberexpressions/CucumberExpressionParserTest.java:264-283 | `three )blind\ mice/rats` parses to the test's tree |
| ParserExamples.AlternationWithUnusedStartOptionalShape | src/test/java/io/cucumber/cucumberexpressions/CucumberExpressionParserTest.java:285-304 | an unclosed trailing `(` stays a text node in the last alternative |
| ParserExamples.AlternationWithUnusedStartOptionalExample | src/test/java/io/cucumber/cucumberexpressions/CucumberExpressionParserTest.java:285-304 | `three blind\ mice/rats(` parses to the test's tree |
| ParserExamples.AlternationFollowedByOptionalShape | src/test/java/io/cucumber/cucumberexpressions/CucumberExpressionParserTest.java:306-327 | a matched `(s)` after the `/` is an optional node inside the last alternative |
| ParserExamples.AlternationFollowedByOptionalExample | src/test/java/io/cucumber/cucumberexpressions/CucumberExpressionParserTest.java:306-327 | `three blind\ rat/cat(s)` parses to the test's tree |

## Left out

- Tokenizer.Tokenize: requires `Escapable`, so a backslash in front of an ordinary character (or in front of another backslash) is outside the model. No test fixes what the tokenizer does there, and the model does not invent a behaviour. A lone backslash at the very end is modelled (an ESCAPE token).
- Parser.Parse: carries the same `Escapable` requirement, inherited from the tokenizer.
- Parser.ParseParameter: braces holding anything other than nothing or one TEXT token are read as a literal `{`. No test covers that case. This choice keeps every parameter node empty or holding one text node.
- Parser.ParseOptionalContent: inside an optional, `{` and `/` stay text. No test puts a parameter or an alternation inside an optional.
- Source positions on tokens, and the error messages the implementation reports: no test observes them.
- The implementation has two token classes, `Ast.Token` and `CucumberExpressionTokenizer.Token`. The model has one `Token` datatype. Escaped kinds become structural tags when a token becomes a text node.
- Compiling the tree into a regular expression, and the parameter-type registry that resolves names inside `{…}`, are not part of this model.
- The JUnit and Hamcrest plumbing (`assertThat`, `contains`, `equalTo`) and the construction of tokenizer and parser objects: each test is one lemma about the model's functions instead.
- The tokenizer test named `alternation` (`CucumberExpressionTokenizerTest.java` lines 108-115) tokenizes `(blind)`, the same input as the `optional` test. TokenizerExamples.OptionalExample covers both. The alternation token is exercised by `alternationPhrase` (lines 130-141).
