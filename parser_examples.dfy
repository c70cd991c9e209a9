/**
 The parser on the expressions its tests use. For each test there is

 - a shape lemma: every token sequence of that form, whatever the words, parses
   to the expected tree. It is proved from the general lemmas of the parser;
 - the test's own tokens and tree, and a lemma that instantiates the shape;
 - an example lemma that goes from the expression string, through the
   tokenizer, to the tree the test expects.
 */
module ParserExamples {
  import opened Ast
  import opened Tokenizer
  import opened Parser
  import T = TokenizerExamples

  /** A text node for a token of the given spelling and kind. */
  function Txt(text: string, kind: TokenType): AstNode {
    TextNode(Token(text, kind))
  }

  // The escaped tokens the examples use, each with the token it stands for.
  lemma UnescapeSpace() ensures Unescape(Token("\\ ", EscapedWhiteSpace)) == Token(" ", WhiteSpace) {}
  lemma UnescapeBeginOptional()
    ensures Unescape(Token("\\(", EscapedBeginOptional)) == Token("(", BeginOptional) {}
  lemma UnescapeEndOptional() ensures Unescape(Token("\\)", EscapedEndOptional)) == Token(")", EndOptional) {}
  lemma UnescapeSlash() ensures Unescape(Token("\\/", EscapedAlternation)) == Token("/", Alternation) {}

  // ---------------------------------------------------------------------------
  // ``: an expression node with no children.

  lemma EmptyStringExample()
    ensures Escapable("") && Parse("") == ExpressionNode([])
  {
    assert Tokenize("") == [];
    assert ParseItems([]) == [];
    assert BuildSequence([]) == RunNodes([]);
  }

  // ---------------------------------------------------------------------------
  // `three blind mice`: words and spaces, each a text node.

  lemma PhraseShape(w1: Token, ws: Token, w2: Token, w3: Token)
    requires w1.kind == Text && ws.kind == WhiteSpace && w2.kind == Text && w3.kind == Text
    ensures ParseTokens([w1, ws, w2, ws, w3]) ==
              ExpressionNode([TextNode(w1), TextNode(ws), TextNode(w2), TextNode(ws), TextNode(w3)])
  {
    assert Texts([w1, ws, w2, ws, w3]) == [TextNode(w1), TextNode(ws), TextNode(w2), TextNode(ws),
                                           TextNode(w3)];
    FlatParse([w1, ws, w2, ws, w3]);
  }

  const PhraseAst := ExpressionNode([
    Txt("three", Text), Txt(" ", WhiteSpace), Txt("blind", Text), Txt(" ", WhiteSpace), Txt("mice", Text)])

  lemma PhraseTree()
    ensures ParseTokens(T.PhraseTokens) == PhraseAst
  {
    PhraseShape(Token("three", Text), Token(" ", WhiteSpace), Token("blind", Text), Token("mice", Text));
  }

  lemma PhraseExample()
    ensures Escapable(T.PhraseText) && Parse(T.PhraseText) == PhraseAst
  {
    T.PhraseExample();
    PhraseTree();
  }

  // ---------------------------------------------------------------------------
  // `(blind)`: an optional holding one text node.

  lemma OptionalShape(open: Token, w: Token, close: Token)
    requires open.kind == BeginOptional && w.kind == Text && close.kind == EndOptional
    ensures ParseTokens([open, w, close]) == ExpressionNode([OptionalNode([TextNode(w)])])
  {
    assert Texts([w]) == [TextNode(w)];
    assert [open, w, close] == [] + [open] + [w] + [close] + [];
    OptionalAmongText([], open, [w], close, []);
  }

  const OptionalAst := ExpressionNode([OptionalNode([Txt("blind", Text)])])

  lemma OptionalTree()
    ensures ParseTokens(T.OptionalTokens) == OptionalAst
  {
    OptionalShape(Token("(", BeginOptional), Token("blind", Text), Token(")", EndOptional));
  }

  lemma OptionalExample()
    ensures Escapable(T.OptionalText) && Parse(T.OptionalText) == OptionalAst
  {
    T.OptionalExample();
    OptionalTree();
  }

  // ---------------------------------------------------------------------------
  // `{string}`: a parameter holding its name.

  lemma ParameterShape(open: Token, name: Token, close: Token)
    requires open.kind == BeginParameter && name.kind == Text && close.kind == EndParameter
    ensures ParseTokens([open, name, close]) == ExpressionNode([ParameterNode([TextNode(name)])])
  {
    assert [open, name, close] == [] + [open, name, close] + [];
    ParameterAmongText([], open, name, close, []);
  }

  const ParameterAst := ExpressionNode([ParameterNode([Txt("string", Text)])])

  lemma ParameterTree()
    ensures ParseTokens(T.ParameterTokens) == ParameterAst
  {
    ParameterShape(Token("{", BeginParameter), Token("string", Text), Token("}", EndParameter));
  }

  lemma ParameterExample()
    ensures Escapable(T.ParameterText) && Parse(T.ParameterText) == ParameterAst
  {
    T.ParameterExample();
    ParameterTree();
  }

  // ---------------------------------------------------------------------------
  // `{}`: an anonymous parameter, with no children.

  lemma AnonymousParameterShape(open: Token, close: Token)
    requires open.kind == BeginParameter && close.kind == EndParameter
    ensures ParseTokens([open, close]) == ExpressionNode([ParameterNode([])])
  {
    assert [open, close] == [] + [open, close] + [];
    AnonymousParameterAmongText([], open, close, []);
  }

  const AnonymousParameterText := "{}"
  const AnonymousParameterTokens := [Token("{", BeginParameter), Token("}", EndParameter)]
  const AnonymousParameterAst := ExpressionNode([ParameterNode([])])

  lemma AnonymousParameterTree()
    ensures ParseTokens(AnonymousParameterTokens) == AnonymousParameterAst
  {
    AnonymousParameterShape(Token("{", BeginParameter), Token("}", EndParameter));
  }

  lemma AnonymousParameterCanonical()
    ensures Canonical(AnonymousParameterTokens) && Concat(AnonymousParameterTokens) == AnonymousParameterText
  {
    T.BeginParameterTokenValid();
    T.EndParameterTokenValid();
  }

  lemma AnonymousParameterExample()
    ensures Escapable(AnonymousParameterText) && Parse(AnonymousParameterText) == AnonymousParameterAst
  {
    AnonymousParameterCanonical();
    TokenizeConcat(AnonymousParameterTokens);
    AnonymousParameterTree();
  }

  // ---------------------------------------------------------------------------
  // `three (blind) mice`: an optional between two spaces.

  lemma OptionalPhraseNodes(w1: Token, ws: Token, open: Token, w2: Token, close: Token, w3: Token)
    requires w1.kind == Text && ws.kind == WhiteSpace && open.kind == BeginOptional
    requires w2.kind == Text && close.kind == EndOptional && w3.kind == Text
    ensures Texts([w1, ws]) + [OptionalNode(Texts([w2]))] + Texts([ws, w3]) ==
            [TextNode(w1), TextNode(ws), OptionalNode([TextNode(w2)]), TextNode(ws), TextNode(w3)]
  {
    assert Texts([w1, ws]) == [TextNode(w1), TextNode(ws)];
    assert Texts([w2]) == [TextNode(w2)];
    assert Texts([ws, w3]) == [TextNode(ws), TextNode(w3)];
  }

  lemma OptionalPhraseShape(w1: Token, ws: Token, open: Token, w2: Token, close: Token, w3: Token)
    requires w1.kind == Text && ws.kind == WhiteSpace && open.kind == BeginOptional
    requires w2.kind == Text && close.kind == EndOptional && w3.kind == Text
    ensures ParseTokens([w1, ws, open, w2, close, ws, w3]) ==
              ExpressionNode([TextNode(w1), TextNode(ws), OptionalNode([TextNode(w2)]), TextNode(ws),
                              TextNode(w3)])
  {
    assert NoGroupStart([w1, ws]) && NoGroupStart([ws, w3]);
    assert NoneOfKind([w1, ws], Alternation) && NoneOfKind([ws, w3], Alternation);
    assert NoneOfKind([w2], EndOptional);
    assert [w1, ws, open, w2, close, ws, w3] == [w1, ws] + [open] + [w2] + [close] + [ws, w3];
    OptionalAmongText([w1, ws], open, [w2], close, [ws, w3]);
    OptionalPhraseNodes(w1, ws, open, w2, close, w3);
  }

  const OptionalPhraseAst := ExpressionNode([
    Txt("three", Text), Txt(" ", WhiteSpace), OptionalNode([Txt("blind", Text)]), Txt(" ",
        WhiteSpace), Txt("mice", Text)])

  lemma OptionalPhraseTree()
    ensures ParseTokens(T.OptionalPhraseTokens) == OptionalPhraseAst
  {
    OptionalPhraseShape(Token("three", Text), Token(" ", WhiteSpace), Token("(", BeginOptional),
      Token("blind", Text), Token(")", EndOptional), Token("mice", Text));
  }

  lemma OptionalPhraseExample()
    ensures Escapable(T.OptionalPhraseText) && Parse(T.OptionalPhraseText) == OptionalPhraseAst
  {
    T.OptionalPhraseExample();
    OptionalPhraseTree();
  }

  // ---------------------------------------------------------------------------
  // `\`: a lone backslash is an ESCAPE token and stays as text.

  lemma SlashShape(e: Token)
    requires e.kind == Escape
    ensures ParseTokens([e]) == ExpressionNode([TextNode(e)])
  {
    assert Texts([e]) == [TextNode(e)];
    FlatParse([e]);
  }

  const SlashText := "\\"
  const SlashTokens := [Token("\\", Escape)]
  const SlashAst := ExpressionNode([Txt("\\", Escape)])

  lemma SlashTree()
    ensures ParseTokens(SlashTokens) == SlashAst
  {
    SlashShape(Token("\\", Escape));
  }

  lemma SlashCanonical() ensures Canonical(SlashTokens) && Concat(SlashTokens) == SlashText {
    T.BackslashTokenValid();
  }

  lemma SlashExample()
    ensures Escapable(SlashText) && Parse(SlashText) == SlashAst
  {
    SlashCanonical();
    TokenizeConcat(SlashTokens);
    SlashTree();
  }

  // ---------------------------------------------------------------------------
  // `{` and `(`: an opening token with nothing to close it is text.

  lemma LoneOpeningShape(t: Token)
    requires t.kind == BeginOptional || t.kind == BeginParameter
    ensures ParseTokens([t]) == ExpressionNode([TextNode(t)])
  {
    assert Texts([t]) == [TextNode(t)];
    assert [] + [t] == [t];
    ItemsUnclosedAtEnd([], t);
    PlainItemsParse([t]);
  }

  const OpeningBraceText := "{"
  const OpeningBraceTokens := [Token("{", BeginParameter)]
  const OpeningBraceAst := ExpressionNode([Txt("{", BeginParameter)])

  lemma OpeningBraceTree()
    ensures ParseTokens(OpeningBraceTokens) == OpeningBraceAst
  {
    LoneOpeningShape(Token("{", BeginParameter));
  }

  lemma OpeningBraceCanonical()
    ensures Canonical(OpeningBraceTokens) && Concat(OpeningBraceTokens) == OpeningBraceText {
    T.BeginParameterTokenValid();
  }

  lemma OpeningBraceExample()
    ensures Escapable(OpeningBraceText) && Parse(OpeningBraceText) == OpeningBraceAst
  {
    OpeningBraceCanonical();
    TokenizeConcat(OpeningBraceTokens);
    OpeningBraceTree();
  }

  const OpeningParenthesisText := "("
  const OpeningParenthesisTokens := [Token("(", BeginOptional)]
  const OpeningParenthesisAst := ExpressionNode([Txt("(", BeginOptional)])

  lemma OpeningParenthesisTree()
    ensures ParseTokens(OpeningParenthesisTokens) == OpeningParenthesisAst
  {
    LoneOpeningShape(Token("(", BeginOptional));
  }

  lemma OpeningParenthesisCanonical()
    ensures Canonical(OpeningParenthesisTokens) && Concat(OpeningParenthesisTokens)
      == OpeningParenthesisText {
    T.BeginOptionalTokenValid();
  }

  lemma OpeningParenthesisExample()
    ensures Escapable(OpeningParenthesisText) && Parse(OpeningParenthesisText) == OpeningParenthesisAst
  {
    OpeningParenthesisCanonical();
    TokenizeConcat(OpeningParenthesisTokens);
    OpeningParenthesisTree();
  }

  // ---------------------------------------------------------------------------
  // `\(`: an escaped parenthesis is text, and the tree holds the parenthesis
  // without its backslash.

  lemma EscapedOpeningParenthesisShape(e: Token)
    requires e.kind == EscapedBeginOptional
    ensures ParseTokens([e]) == ExpressionNode([TextNode(Unescape(e))])
  {
    assert Texts([e]) == [TextNode(Unescape(e))];
    FlatParse([e]);
  }

  const EscapedOpeningParenthesisText := "\\("
  const EscapedOpeningParenthesisTokens := [Token("\\(", EscapedBeginOptional)]
  const EscapedOpeningParenthesisAst := ExpressionNode([Txt("(", BeginOptional)])

  lemma EscapedOpeningParenthesisTree()
    ensures ParseTokens(EscapedOpeningParenthesisTokens) == EscapedOpeningParenthesisAst
  {
    UnescapeBeginOptional();
    EscapedOpeningParenthesisShape(Token("\\(", EscapedBeginOptional));
  }

  lemma EscapedOpeningParenthesisCanonical()
    ensures Canonical(EscapedOpeningParenthesisTokens) && Concat(EscapedOpeningParenthesisTokens)
      == EscapedOpeningParenthesisText {
    T.EscapedBeginOptionalTokenValid();
  }

  lemma EscapedOpeningParenthesisExample()
    ensures Escapable(EscapedOpeningParenthesisText) &&
            Parse(EscapedOpeningParenthesisText) == EscapedOpeningParenthesisAst
  {
    EscapedOpeningParenthesisCanonical();
    TokenizeConcat(EscapedOpeningParenthesisTokens);
    EscapedOpeningParenthesisTree();
  }

  // ---------------------------------------------------------------------------
  // `\(blind)`: with its `(` escaped, the `)` has nothing to close and is text.

  lemma EscapedOptionalShape(e: Token, w: Token, close: Token)
    requires e.kind == EscapedBeginOptional && w.kind == Text && close.kind == EndOptional
    ensures ParseTokens([e, w, close]) == ExpressionNode([TextNode(Unescape(e)), TextNode(w),
                                                          TextNode(close)])
  {
    assert Texts([e, w, close]) == [TextNode(Unescape(e)), TextNode(w), TextNode(close)];
    FlatParse([e, w, close]);
  }

  const EscapedOptionalText := "\\(blind)"
  const EscapedOptionalTokens := [Token("\\(", EscapedBeginOptional), Token("blind", Text),
                                  Token(")", EndOptional)]
  const EscapedOptionalAst := ExpressionNode([Txt("(", BeginOptional), Txt("blind", Text),
                                              Txt(")", EndOptional)])

  lemma EscapedOptionalTree()
    ensures ParseTokens(EscapedOptionalTokens) == EscapedOptionalAst
  {
    UnescapeBeginOptional();
    EscapedOptionalShape(Token("\\(", EscapedBeginOptional), Token("blind", Text), Token(")", EndOptional));
  }

  lemma EscapedOptionalValid() ensures ValidTokens(EscapedOptionalTokens) {
    T.EscapedBeginOptionalTokenValid();
    T.WordBlindValid();
    T.EndOptionalTokenValid();
  }
  lemma EscapedOptionalCanonical() ensures Canonical(EscapedOptionalTokens) {
    EscapedOptionalValid();
    CanonicalOfKinds(EscapedOptionalTokens, [EscapedBeginOptional, Text, EndOptional]);
  }
  lemma EscapedOptionalSpelling() ensures Concat(EscapedOptionalTokens) == EscapedOptionalText {}

  lemma EscapedOptionalExample()
    ensures Escapable(EscapedOptionalText) && Parse(EscapedOptionalText) == EscapedOptionalAst
  {
    EscapedOptionalCanonical();
    EscapedOptionalSpelling();
    TokenizeConcat(EscapedOptionalTokens);
    EscapedOptionalTree();
  }

  // ---------------------------------------------------------------------------
  // `three \(blind) mice`: the same inside a phrase.

  lemma EscapedOptionalPhraseShape(w1: Token, ws: Token, e: Token, w2: Token, close: Token, w3: Token)
    requires w1.kind == Text && ws.kind == WhiteSpace && e.kind == EscapedBeginOptional
    requires w2.kind == Text && close.kind == EndOptional && w3.kind == Text
    ensures ParseTokens([w1, ws, e, w2, close, ws, w3]) ==
              ExpressionNode([TextNode(w1), TextNode(ws), TextNode(Unescape(e)), TextNode(w2),
                              TextNode(close), TextNode(ws), TextNode(w3)])
  {
    assert Texts([w1, ws, e, w2, close, ws, w3]) ==
      [TextNode(w1), TextNode(ws), TextNode(Unescape(e)), TextNode(w2), TextNode(close), TextNode(ws),
       TextNode(w3)];
    FlatParse([w1, ws, e, w2, close, ws, w3]);
  }

  const EscapedOptionalPhraseText := "three \\(blind) mice"
  const EscapedOptionalPhraseTokens := [Token("three", Text), Token(" ", WhiteSpace),
    Token("\\(", EscapedBeginOptional), Token("blind", Text), Token(")", EndOptional),
    Token(" ", WhiteSpace), Token("mice", Text)]
  const EscapedOptionalPhraseAst := ExpressionNode([
    Txt("three", Text), Txt(" ", WhiteSpace), Txt("(", BeginOptional), Txt("blind", Text),
    Txt(")", EndOptional), Txt(" ", WhiteSpace), Txt("mice", Text)])

  lemma EscapedOptionalPhraseTree()
    ensures ParseTokens(EscapedOptionalPhraseTokens) == EscapedOptionalPhraseAst
  {
    UnescapeBeginOptional();
    EscapedOptionalPhraseShape(Token("three", Text), Token(" ", WhiteSpace),
        Token("\\(", EscapedBeginOptional),
      Token("blind", Text), Token(")", EndOptional), Token("mice", Text));
  }

  lemma EscapedOptionalPhraseValid() ensures ValidTokens(EscapedOptionalPhraseTokens) {
    T.WordThreeValid();
    T.SpaceTokenValid();
    T.EscapedBeginOptionalTokenValid();
    T.WordBlindValid();
    T.EndOptionalTokenValid();
    T.WordMiceValid();
  }
  lemma EscapedOptionalPhraseCanonical() ensures Canonical(EscapedOptionalPhraseTokens) {
    EscapedOptionalPhraseValid();
    CanonicalOfKinds(EscapedOptionalPhraseTokens, [Text, WhiteSpace, EscapedBeginOptional, Text, EndOptional,
                                                   WhiteSpace, Text]);
  }
  const EscapedOptionalPhraseHead := [Token("three", Text), Token(" ", WhiteSpace),
                                      Token("\\(", EscapedBeginOptional)]
  const EscapedOptionalPhraseTail := [Token("blind", Text), Token(")", EndOptional), Token(" ", WhiteSpace),
                                      Token("mice", Text)]
  lemma EscapedOptionalPhraseHeadSpelling() ensures Concat(EscapedOptionalPhraseHead) == "three \\(" {}
  lemma EscapedOptionalPhraseTailSpelling() ensures Concat(EscapedOptionalPhraseTail) == "blind) mice" {}
  lemma EscapedOptionalPhraseJoin() ensures "three \\(" + "blind) mice" == EscapedOptionalPhraseText {}
  lemma EscapedOptionalPhraseSpelling()
    ensures Concat(EscapedOptionalPhraseTokens) == EscapedOptionalPhraseText {
    assert EscapedOptionalPhraseTokens == EscapedOptionalPhraseHead + EscapedOptionalPhraseTail;
    ConcatAppend(EscapedOptionalPhraseHead, EscapedOptionalPhraseTail);
    EscapedOptionalPhraseHeadSpelling();
    EscapedOptionalPhraseTailSpelling();
    EscapedOptionalPhraseJoin();
  }

  lemma EscapedOptionalPhraseExample()
    ensures Escapable(EscapedOptionalPhraseText) && Parse(EscapedOptionalPhraseText)
      == EscapedOptionalPhraseAst
  {
    EscapedOptionalPhraseCanonical();
    EscapedOptionalPhraseSpelling();
    TokenizeConcat(EscapedOptionalPhraseTokens);
    EscapedOptionalPhraseTree();
  }

  // ---------------------------------------------------------------------------
  // `three \((very) blind) mice`: after an escaped `(`, the next `(` opens an
  // optional that the first `)` closes; the second `)` is text.

  lemma EscapedOptionalFollowedByOptionalNodes(w1: Token, ws: Token, e: Token, open: Token, w2: Token,
                                               close: Token, w3: Token, w4: Token)
    requires w1.kind == Text && ws.kind == WhiteSpace && e.kind == EscapedBeginOptional
      && open.kind == BeginOptional
    requires w2.kind == Text && close.kind == EndOptional && w3.kind == Text && w4.kind == Text
    ensures Texts([w1, ws, e]) + [OptionalNode(Texts([w2]))] + Texts([ws, w3, close, ws, w4]) ==
            [TextNode(w1), TextNode(ws), TextNode(Unescape(e)), OptionalNode([TextNode(w2)]), TextNode(ws),
             TextNode(w3), TextNode(close), TextNode(ws), TextNode(w4)]
  {
    assert Texts([w1, ws, e]) == [TextNode(w1), TextNode(ws), TextNode(Unescape(e))];
    assert Texts([w2]) == [TextNode(w2)];
    assert Texts([ws, w3, close, ws, w4]) == [TextNode(ws), TextNode(w3), TextNode(close), TextNode(ws),
                                              TextNode(w4)];
  }

  lemma EscapedOptionalFollowedByOptionalShape(w1: Token, ws: Token, e: Token, open: Token, w2: Token,
                                               close: Token, w3: Token, w4: Token)
    requires w1.kind == Text && ws.kind == WhiteSpace && e.kind == EscapedBeginOptional
      && open.kind == BeginOptional
    requires w2.kind == Text && close.kind == EndOptional && w3.kind == Text && w4.kind == Text
    ensures ParseTokens([w1, ws, e, open, w2, close, ws, w3, close, ws, w4]) ==
              ExpressionNode([TextNode(w1), TextNode(ws), TextNode(Unescape(e)), OptionalNode([TextNode(w2)]),
                              TextNode(ws), TextNode(w3), TextNode(close), TextNode(ws), TextNode(w4)])
  {
    assert NoGroupStart([w1, ws, e]) && NoGroupStart([ws, w3, close, ws, w4]);
    assert NoneOfKind([w1, ws, e], Alternation) && NoneOfKind([ws, w3, close, ws, w4], Alternation);
    assert NoneOfKind([w2], EndOptional);
    assert [w1, ws, e, open, w2, close, ws, w3, close, ws, w4] ==
      [w1, ws, e] + [open] + [w2] + [close] + [ws, w3, close, ws, w4];
    OptionalAmongText([w1, ws, e], open, [w2], close, [ws, w3, close, ws, w4]);
    EscapedOptionalFollowedByOptionalNodes(w1, ws, e, open, w2, close, w3, w4);
  }

  const EscapedOptionalFollowedByOptionalText := "three \\((very) blind) mice"
  const EscapedOptionalFollowedByOptionalTokens := [Token("three", Text), Token(" ", WhiteSpace),
    Token("\\(", EscapedBeginOptional), Token("(", BeginOptional), Token("very", Text),
    Token(")", EndOptional), Token(" ", WhiteSpace), Token("blind", Text), Token(")", EndOptional),
    Token(" ", WhiteSpace), Token("mice", Text)]
  const EscapedOptionalFollowedByOptionalAst := ExpressionNode([
    Txt("three", Text), Txt(" ", WhiteSpace), Txt("(", BeginOptional), OptionalNode([Txt("very", Text)]),
    Txt(" ", WhiteSpace), Txt("blind", Text), Txt(")", EndOptional), Txt(" ", WhiteSpace), Txt("mice", Text)])

  lemma EscapedOptionalFollowedByOptionalTree()
    ensures ParseTokens(EscapedOptionalFollowedByOptionalTokens) == EscapedOptionalFollowedByOptionalAst
  {
    UnescapeBeginOptional();
    EscapedOptionalFollowedByOptionalShape(Token("three", Text), Token(" ", WhiteSpace),
      Token("\\(", EscapedBeginOptional), Token("(", BeginOptional), Token("very", Text),
      Token(")", EndOptional), Token("blind", Text), Token("mice", Text));
  }

  lemma EscapedOptionalFollowedByOptionalValid()
    ensures ValidTokens(EscapedOptionalFollowedByOptionalTokens) {
    T.WordThreeValid();
    T.SpaceTokenValid();
    T.EscapedBeginOptionalTokenValid();
    T.BeginOptionalTokenValid();
    T.WordVeryValid();
    T.EndOptionalTokenValid();
    T.WordBlindValid();
    T.WordMiceValid();
  }
  lemma EscapedOptionalFollowedByOptionalCanonical()
    ensures Canonical(EscapedOptionalFollowedByOptionalTokens) {
    EscapedOptionalFollowedByOptionalValid();
    CanonicalOfKinds(EscapedOptionalFollowedByOptionalTokens, [Text, WhiteSpace, EscapedBeginOptional,
                                                               BeginOptional, Text, EndOptional, WhiteSpace,
                                                               Text, EndOptional, WhiteSpace, Text]);
  }
  const EscapedOptionalFollowedByOptionalHead := [Token("three", Text), Token(" ", WhiteSpace),
                                                  Token("\\(", EscapedBeginOptional),
                                                  Token("(", BeginOptional), Token("very", Text)]
  const EscapedOptionalFollowedByOptionalTail := [Token(")", EndOptional), Token(" ", WhiteSpace),
                                                  Token("blind", Text), Token(")", EndOptional),
                                                  Token(" ", WhiteSpace), Token("mice", Text)]
  lemma EscapedOptionalFollowedByOptionalHeadSpelling()
    ensures Concat(EscapedOptionalFollowedByOptionalHead) == "three \\((very" {}
  lemma EscapedOptionalFollowedByOptionalTailSpelling()
    ensures Concat(EscapedOptionalFollowedByOptionalTail) == ") blind) mice" {}
  lemma EscapedOptionalFollowedByOptionalJoin()
    ensures "three \\((very" + ") blind) mice" == EscapedOptionalFollowedByOptionalText {}
  lemma EscapedOptionalFollowedByOptionalSpelling()
    ensures Concat(EscapedOptionalFollowedByOptionalTokens) == EscapedOptionalFollowedByOptionalText {
    assert EscapedOptionalFollowedByOptionalTokens == EscapedOptionalFollowedByOptionalHead
        + EscapedOptionalFollowedByOptionalTail;
    ConcatAppend(EscapedOptionalFollowedByOptionalHead, EscapedOptionalFollowedByOptionalTail);
    EscapedOptionalFollowedByOptionalHeadSpelling();
    EscapedOptionalFollowedByOptionalTailSpelling();
    EscapedOptionalFollowedByOptionalJoin();
  }

  lemma EscapedOptionalFollowedByOptionalExample()
    ensures Escapable(EscapedOptionalFollowedByOptionalText) &&
            Parse(EscapedOptionalFollowedByOptionalText) == EscapedOptionalFollowedByOptionalAst
  {
    EscapedOptionalFollowedByOptionalCanonical();
    EscapedOptionalFollowedByOptionalSpelling();
    TokenizeConcat(EscapedOptionalFollowedByOptionalTokens);
    EscapedOptionalFollowedByOptionalTree();
  }

  // ---------------------------------------------------------------------------
  // `three ((very\) blind) mice`: an optional closes at the nearest unescaped
  // `)`, and a `(` inside it is text.

  lemma OptionalContainingEscapedOptionalNodes(w1: Token, ws: Token, open: Token, w2: Token, e: Token,
                                               w3: Token, w4: Token)
    requires w1.kind == Text && ws.kind == WhiteSpace && open.kind == BeginOptional && w2.kind == Text
    requires e.kind == EscapedEndOptional && w3.kind == Text && w4.kind == Text
    ensures Texts([w1, ws]) + [OptionalNode(Texts([open, w2, e, ws, w3]))] + Texts([ws, w4]) ==
            [TextNode(w1), TextNode(ws),
             OptionalNode([TextNode(open), TextNode(w2), TextNode(Unescape(e)), TextNode(ws), TextNode(w3)]),
             TextNode(ws), TextNode(w4)]
  {
    assert Texts([w1, ws]) == [TextNode(w1), TextNode(ws)];
    assert Texts([open, w2, e, ws, w3]) == [TextNode(open), TextNode(w2), TextNode(Unescape(e)),
                                            TextNode(ws), TextNode(w3)];
    assert Texts([ws, w4]) == [TextNode(ws), TextNode(w4)];
  }

  lemma OptionalContainingEscapedOptionalShape(w1: Token, ws: Token, open: Token, w2: Token, e: Token,
                                               w3: Token, close: Token, w4: Token)
    requires w1.kind == Text && ws.kind == WhiteSpace && open.kind == BeginOptional && w2.kind == Text
    requires e.kind == EscapedEndOptional && w3.kind == Text && close.kind == EndOptional && w4.kind == Text
    ensures ParseTokens([w1, ws, open, open, w2, e, ws, w3, close, ws, w4]) ==
              ExpressionNode([TextNode(w1), TextNode(ws),
                              OptionalNode([TextNode(open), TextNode(w2), TextNode(Unescape(e)),
                                            TextNode(ws), TextNode(w3)]),
                              TextNode(ws), TextNode(w4)])
  {
    assert NoGroupStart([w1, ws]) && NoGroupStart([ws, w4]);
    assert NoneOfKind([w1, ws], Alternation) && NoneOfKind([ws, w4], Alternation);
    assert NoneOfKind([open, w2, e, ws, w3], EndOptional);
    assert [w1, ws, open, open, w2, e, ws, w3, close, ws, w4] ==
      [w1, ws] + [open] + [open, w2, e, ws, w3] + [close] + [ws, w4];
    OptionalAmongText([w1, ws], open, [open, w2, e, ws, w3], close, [ws, w4]);
    OptionalContainingEscapedOptionalNodes(w1, ws, open, w2, e, w3, w4);
  }

  const OptionalContainingEscapedOptionalText := "three ((very\\) blind) mice"
  const OptionalContainingEscapedOptionalTokens := [Token("three", Text), Token(" ", WhiteSpace),
    Token("(", BeginOptional), Token("(", BeginOptional), Token("very", Text),
    Token("\\)", EscapedEndOptional), Token(" ", WhiteSpace), Token("blind", Text),
    Token(")", EndOptional), Token(" ", WhiteSpace), Token("mice", Text)]
  const OptionalContainingEscapedOptionalAst := ExpressionNode([
    Txt("three", Text), Txt(" ", WhiteSpace),
    OptionalNode([Txt("(", BeginOptional), Txt("very", Text), Txt(")", EndOptional), Txt(" ", WhiteSpace),
                  Txt("blind", Text)]),
    Txt(" ", WhiteSpace), Txt("mice", Text)])

  lemma OptionalContainingEscapedOptionalTree()
    ensures ParseTokens(OptionalContainingEscapedOptionalTokens) == OptionalContainingEscapedOptionalAst
  {
    UnescapeEndOptional();
    OptionalContainingEscapedOptionalShape(Token("three", Text), Token(" ", WhiteSpace),
        Token("(", BeginOptional),
      Token("very", Text), Token("\\)", EscapedEndOptional), Token("blind", Text), Token(")", EndOptional),
      Token("mice", Text));
  }

  lemma OptionalContainingEscapedOptionalValid()
    ensures ValidTokens(OptionalContainingEscapedOptionalTokens) {
    T.WordThreeValid();
    T.SpaceTokenValid();
    T.BeginOptionalTokenValid();
    T.WordVeryValid();
    T.EscapedEndOptionalTokenValid();
    T.WordBlindValid();
    T.EndOptionalTokenValid();
    T.WordMiceValid();
  }
  lemma OptionalContainingEscapedOptionalCanonical()
    ensures Canonical(OptionalContainingEscapedOptionalTokens) {
    OptionalContainingEscapedOptionalValid();
    CanonicalOfKinds(OptionalContainingEscapedOptionalTokens, [Text, WhiteSpace, BeginOptional,
                                                               BeginOptional, Text, EscapedEndOptional,
                                                               WhiteSpace, Text, EndOptional, WhiteSpace,
                                                               Text]);
  }
  const OptionalContainingEscapedOptionalHead := [Token("three", Text), Token(" ", WhiteSpace),
                                                  Token("(", BeginOptional), Token("(", BeginOptional),
                                                  Token("very", Text)]
  const OptionalContainingEscapedOptionalTail := [Token("\\)", EscapedEndOptional), Token(" ", WhiteSpace),
                                                  Token("blind", Text), Token(")", EndOptional),
                                                  Token(" ", WhiteSpace), Token("mice", Text)]
  lemma OptionalContainingEscapedOptionalHeadSpelling()
    ensures Concat(OptionalContainingEscapedOptionalHead) == "three ((very" {}
  lemma OptionalContainingEscapedOptionalTailSpelling()
    ensures Concat(OptionalContainingEscapedOptionalTail) == "\\) blind) mice" {}
  lemma OptionalContainingEscapedOptionalJoin()
    ensures "three ((very" + "\\) blind) mice" == OptionalContainingEscapedOptionalText {}
  lemma OptionalContainingEscapedOptionalSpelling()
    ensures Concat(OptionalContainingEscapedOptionalTokens) == OptionalContainingEscapedOptionalText {
    assert OptionalContainingEscapedOptionalTokens == OptionalContainingEscapedOptionalHead
        + OptionalContainingEscapedOptionalTail;
    ConcatAppend(OptionalContainingEscapedOptionalHead, OptionalContainingEscapedOptionalTail);
    OptionalContainingEscapedOptionalHeadSpelling();
    OptionalContainingEscapedOptionalTailSpelling();
    OptionalContainingEscapedOptionalJoin();
  }

  lemma OptionalContainingEscapedOptionalExample()
    ensures Escapable(OptionalContainingEscapedOptionalText) &&
            Parse(OptionalContainingEscapedOptionalText) == OptionalContainingEscapedOptionalAst
  {
    OptionalContainingEscapedOptionalCanonical();
    OptionalContainingEscapedOptionalSpelling();
    TokenizeConcat(OptionalContainingEscapedOptionalTokens);
    OptionalContainingEscapedOptionalTree();
  }

  // ---------------------------------------------------------------------------
  // `mice/rats`: an alternation of two one-word alternatives.

  lemma AlternationShape(w1: Token, slash: Token, w2: Token)
    requires w1.kind == Text && slash.kind == Alternation && w2.kind == Text
    ensures ParseTokens([w1, slash, w2]) ==
              ExpressionNode([AlternationNode([AlternativeNode([TextNode(w1)]),
                                               AlternativeNode([TextNode(w2)])])])
  {
    assert Texts([w1]) == [TextNode(w1)];
    assert Texts([w2]) == [TextNode(w2)];
    assert [w1, slash, w2] == [] + [w1] + [slash] + [w2] + [];
    AlternationAmongText([], [w1], slash, [w2], []);
  }

  const AlternationText := "mice/rats"
  const AlternationTokens := [Token("mice", Text), Token("/", Alternation), Token("rats", Text)]
  const AlternationAst := ExpressionNode([
    AlternationNode([AlternativeNode([Txt("mice", Text)]), AlternativeNode([Txt("rats", Text)])])])

  lemma AlternationTree()
    ensures ParseTokens(AlternationTokens) == AlternationAst
  {
    AlternationShape(Token("mice", Text), Token("/", Alternation), Token("rats", Text));
  }

  lemma AlternationValid() ensures ValidTokens(AlternationTokens) {
    T.WordMiceValid();
    T.SlashTokenValid();
    T.WordRatsValid();
  }
  lemma AlternationCanonical() ensures Canonical(AlternationTokens) {
    AlternationValid();
    CanonicalOfKinds(AlternationTokens, [Text, Alternation, Text]);
  }
  lemma AlternationSpelling() ensures Concat(AlternationTokens) == AlternationText {}

  lemma AlternationExample()
    ensures Escapable(AlternationText) && Parse(AlternationText) == AlternationAst
  {
    AlternationCanonical();
    AlternationSpelling();
    TokenizeConcat(AlternationTokens);
    AlternationTree();
  }

  // ---------------------------------------------------------------------------
  // `mice\/rats`: an escaped slash is text, not an alternation.

  lemma EscapedAlternationShape(w1: Token, e: Token, w2: Token)
    requires w1.kind == Text && e.kind == EscapedAlternation && w2.kind == Text
    ensures ParseTokens([w1, e, w2]) == ExpressionNode([TextNode(w1), TextNode(Unescape(e)), TextNode(w2)])
  {
    assert Texts([w1, e, w2]) == [TextNode(w1), TextNode(Unescape(e)), TextNode(w2)];
    FlatParse([w1, e, w2]);
  }

  const EscapedAlternationText := "mice\\/rats"
  const EscapedAlternationTokens := [Token("mice", Text), Token("\\/", EscapedAlternation),
                                     Token("rats", Text)]
  const EscapedAlternationAst := ExpressionNode([Txt("mice", Text), Txt("/", Alternation), Txt("rats", Text)])

  lemma EscapedAlternationTree()
    ensures ParseTokens(EscapedAlternationTokens) == EscapedAlternationAst
  {
    UnescapeSlash();
    EscapedAlternationShape(Token("mice", Text), Token("\\/", EscapedAlternation), Token("rats", Text));
  }

  lemma EscapedAlternationValid() ensures ValidTokens(EscapedAlternationTokens) {
    T.WordMiceValid();
    T.EscapedSlashTokenValid();
    T.WordRatsValid();
  }
  lemma EscapedAlternationCanonical() ensures Canonical(EscapedAlternationTokens) {
    EscapedAlternationValid();
    CanonicalOfKinds(EscapedAlternationTokens, [Text, EscapedAlternation, Text]);
  }
  lemma EscapedAlternationSpelling() ensures Concat(EscapedAlternationTokens) == EscapedAlternationText {}

  lemma EscapedAlternationExample()
    ensures Escapable(EscapedAlternationText) && Parse(EscapedAlternationText) == EscapedAlternationAst
  {
    EscapedAlternationCanonical();
    EscapedAlternationSpelling();
    TokenizeConcat(EscapedAlternationTokens);
    EscapedAlternationTree();
  }

  // ---------------------------------------------------------------------------
  // `three hungry/blind mice`: the alternation covers only the run between
  // the spaces.

  lemma AlternationPhraseNodes(w1: Token, ws: Token, w2: Token, slash: Token, w3: Token, w4: Token)
    requires w1.kind == Text && ws.kind == WhiteSpace && w2.kind == Text
    requires slash.kind == Alternation && w3.kind == Text && w4.kind == Text
    ensures Texts([w1, ws]) + [AlternationNode([AlternativeNode(Texts([w2])),
                                                AlternativeNode(Texts([w3]))])] + Texts([ws, w4]) ==
            [TextNode(w1), TextNode(ws), AlternationNode([AlternativeNode([TextNode(w2)]),
                                                          AlternativeNode([TextNode(w3)])]), TextNode(ws),
             TextNode(w4)]
  {
    assert Texts([w1, ws]) == [TextNode(w1), TextNode(ws)];
    assert Texts([w2]) == [TextNode(w2)];
    assert Texts([w3]) == [TextNode(w3)];
    assert Texts([ws, w4]) == [TextNode(ws), TextNode(w4)];
  }

  lemma AlternationPhraseShape(w1: Token, ws: Token, w2: Token, slash: Token, w3: Token, w4: Token)
    requires w1.kind == Text && ws.kind == WhiteSpace && w2.kind == Text
    requires slash.kind == Alternation && w3.kind == Text && w4.kind == Text
    ensures ParseTokens([w1, ws, w2, slash, w3, ws, w4]) ==
              ExpressionNode([TextNode(w1), TextNode(ws),
                              AlternationNode([AlternativeNode([TextNode(w2)]),
                                               AlternativeNode([TextNode(w3)])]),
                              TextNode(ws), TextNode(w4)])
  {
    assert NoGroupStart([w1, ws]) && NoGroupStart([w2]);
    assert NoGroupStart([w3]) && NoGroupStart([ws, w4]);
    assert NoneOfKind([w1, ws], Alternation) && NoneOfKind([w2], Alternation);
    assert NoneOfKind([w3], Alternation) && NoneOfKind([ws, w4], Alternation);
    assert NoneOfKind([w2], WhiteSpace) && NoneOfKind([w3], WhiteSpace);
    assert [w1, ws, w2, slash, w3, ws, w4] == [w1, ws] + [w2] + [slash] + [w3] + [ws, w4];
    AlternationAmongText([w1, ws], [w2], slash, [w3], [ws, w4]);
    AlternationPhraseNodes(w1, ws, w2, slash, w3, w4);
  }

  const AlternationPhraseText := "three hungry/blind mice"
  const AlternationPhraseTokens := [Token("three", Text), Token(" ", WhiteSpace), Token("hungry", Text),
    Token("/", Alternation), Token("blind", Text), Token(" ", WhiteSpace), Token("mice", Text)]
  const AlternationPhraseAst := ExpressionNode([
    Txt("three", Text), Txt(" ", WhiteSpace),
    AlternationNode([AlternativeNode([Txt("hungry", Text)]), AlternativeNode([Txt("blind", Text)])]),
    Txt(" ", WhiteSpace), Txt("mice", Text)])

  lemma AlternationPhraseTree()
    ensures ParseTokens(AlternationPhraseTokens) == AlternationPhraseAst
  {
    AlternationPhraseShape(Token("three", Text), Token(" ", WhiteSpace), Token("hungry", Text),
      Token("/", Alternation), Token("blind", Text), Token("mice", Text));
  }

  lemma AlternationPhraseValid() ensures ValidTokens(AlternationPhraseTokens) {
    T.WordThreeValid();
    T.SpaceTokenValid();
    T.WordHungryValid();
    T.SlashTokenValid();
    T.WordBlindValid();
    T.WordMiceValid();
  }
  lemma AlternationPhraseCanonical() ensures Canonical(AlternationPhraseTokens) {
    AlternationPhraseValid();
    CanonicalOfKinds(AlternationPhraseTokens, [Text, WhiteSpace, Text, Alternation, Text, WhiteSpace, Text]);
  }
  const AlternationPhraseHead := [Token("three", Text), Token(" ", WhiteSpace), Token("hungry", Text)]
  const AlternationPhraseTail := [Token("/", Alternation), Token("blind", Text), Token(" ", WhiteSpace),
                                  Token("mice", Text)]
  lemma AlternationPhraseHeadSpelling() ensures Concat(AlternationPhraseHead) == "three hungry" {}
  lemma AlternationPhraseTailSpelling() ensures Concat(AlternationPhraseTail) == "/blind mice" {}
  lemma AlternationPhraseJoin() ensures "three hungry" + "/blind mice" == AlternationPhraseText {}
  lemma AlternationPhraseSpelling() ensures Concat(AlternationPhraseTokens) == AlternationPhraseText {
    assert AlternationPhraseTokens == AlternationPhraseHead + AlternationPhraseTail;
    ConcatAppend(AlternationPhraseHead, AlternationPhraseTail);
    AlternationPhraseHeadSpelling();
    AlternationPhraseTailSpelling();
    AlternationPhraseJoin();
  }

  lemma AlternationPhraseExample()
    ensures Escapable(AlternationPhraseText) && Parse(AlternationPhraseText) == AlternationPhraseAst
  {
    AlternationPhraseCanonical();
    AlternationPhraseSpelling();
    TokenizeConcat(AlternationPhraseTokens);
    AlternationPhraseTree();
  }

  // ---------------------------------------------------------------------------
  // `\ three\ hungry/blind\ mice\ `: escaped spaces do not end a run, so the
  // whole expression is one alternation.

  lemma AlternationWithWhiteSpaceNodes(esc: Token, w1: Token, w2: Token, slash: Token, w3: Token, w4: Token)
    requires esc.kind == EscapedWhiteSpace && slash.kind == Alternation
    requires w1.kind == Text && w2.kind == Text && w3.kind == Text && w4.kind == Text
    ensures Texts([]) + [AlternationNode([AlternativeNode(Texts([esc, w1, esc, w2])),
                                          AlternativeNode(Texts([w3, esc, w4, esc]))])] + Texts([]) ==
            [AlternationNode([AlternativeNode([TextNode(Unescape(esc)), TextNode(w1),
                                               TextNode(Unescape(esc)), TextNode(w2)]),
                              AlternativeNode([TextNode(w3), TextNode(Unescape(esc)), TextNode(w4),
                                               TextNode(Unescape(esc))])])]
  {
    assert Texts([esc, w1, esc, w2]) == [TextNode(Unescape(esc)), TextNode(w1), TextNode(Unescape(esc)),
                                         TextNode(w2)];
    assert Texts([w3, esc, w4, esc]) == [TextNode(w3), TextNode(Unescape(esc)), TextNode(w4),
                                         TextNode(Unescape(esc))];
  }

  lemma AlternationWithWhiteSpaceShape(esc: Token, w1: Token, w2: Token, slash: Token, w3: Token, w4: Token)
    requires esc.kind == EscapedWhiteSpace && slash.kind == Alternation
    requires w1.kind == Text && w2.kind == Text && w3.kind == Text && w4.kind == Text
    ensures ParseTokens([esc, w1, esc, w2, slash, w3, esc, w4, esc]) ==
              ExpressionNode([AlternationNode([
                AlternativeNode([TextNode(Unescape(esc)), TextNode(w1), TextNode(Unescape(esc)),
                                 TextNode(w2)]),
                AlternativeNode([TextNode(w3), TextNode(Unescape(esc)), TextNode(w4),
                                 TextNode(Unescape(esc))])])])
  {
    assert NoGroupStart([]) && NoGroupStart([esc, w1, esc, w2]);
    assert NoGroupStart([w3, esc, w4, esc]) && NoGroupStart([]);
    assert NoneOfKind([], Alternation) && NoneOfKind([esc, w1, esc, w2], Alternation);
    assert NoneOfKind([w3, esc, w4, esc], Alternation) && NoneOfKind([], Alternation);
    assert NoneOfKind([esc, w1, esc, w2], WhiteSpace) && NoneOfKind([w3, esc, w4, esc], WhiteSpace);
    assert [esc, w1, esc, w2, slash, w3, esc, w4, esc] == [] + [esc, w1, esc, w2] + [slash] + [w3, esc, w4,
        esc] + [];
    AlternationAmongText([], [esc, w1, esc, w2], slash, [w3, esc, w4, esc], []);
    AlternationWithWhiteSpaceNodes(esc, w1, w2, slash, w3, w4);
  }

  const AlternationWithWhiteSpaceText := "\\ three\\ hungry/blind\\ mice\\ "
  const AlternationWithWhiteSpaceTokens := [Token("\\ ", EscapedWhiteSpace), Token("three", Text),
    Token("\\ ", EscapedWhiteSpace), Token("hungry", Text), Token("/", Alternation),
    Token("blind", Text), Token("\\ ", EscapedWhiteSpace), Token("mice", Text),
    Token("\\ ", EscapedWhiteSpace)]
  const AlternationWithWhiteSpaceAst := ExpressionNode([
    AlternationNode([
      AlternativeNode([Txt(" ", WhiteSpace), Txt("three", Text), Txt(" ", WhiteSpace), Txt("hungry", Text)]),
      AlternativeNode([Txt("blind", Text), Txt(" ", WhiteSpace), Txt("mice", Text), Txt(" ", WhiteSpace)])])])

  lemma AlternationWithWhiteSpaceTree()
    ensures ParseTokens(AlternationWithWhiteSpaceTokens) == AlternationWithWhiteSpaceAst
  {
    UnescapeSpace();
    AlternationWithWhiteSpaceShape(Token("\\ ", EscapedWhiteSpace), Token("three", Text),
        Token("hungry", Text),
      Token("/", Alternation), Token("blind", Text), Token("mice", Text));
  }

  lemma AlternationWithWhiteSpaceValid() ensures ValidTokens(AlternationWithWhiteSpaceTokens) {
    T.EscapedSpaceTokenValid();
    T.WordThreeValid();
    T.WordHungryValid();
    T.SlashTokenValid();
    T.WordBlindValid();
    T.WordMiceValid();
  }
  lemma AlternationWithWhiteSpaceCanonical() ensures Canonical(AlternationWithWhiteSpaceTokens) {
    AlternationWithWhiteSpaceValid();
    CanonicalOfKinds(AlternationWithWhiteSpaceTokens, [EscapedWhiteSpace, Text, EscapedWhiteSpace, Text,
                                                       Alternation, Text, EscapedWhiteSpace, Text,
                                                       EscapedWhiteSpace]);
  }
  const AlternationWithWhiteSpaceHead := [Token("\\ ", EscapedWhiteSpace), Token("three", Text),
                                          Token("\\ ", EscapedWhiteSpace), Token("hungry", Text)]
  const AlternationWithWhiteSpaceTail := [Token("/", Alternation), Token("blind", Text),
                                          Token("\\ ", EscapedWhiteSpace), Token("mice", Text),
                                          Token("\\ ", EscapedWhiteSpace)]
  lemma AlternationWithWhiteSpaceHeadSpelling()
    ensures Concat(AlternationWithWhiteSpaceHead) == "\\ three\\ hungry" {}
  lemma AlternationWithWhiteSpaceTailSpelling()
    ensures Concat(AlternationWithWhiteSpaceTail) == "/blind\\ mice\\ " {}
  lemma AlternationWithWhiteSpaceJoin()
    ensures "\\ three\\ hungry" + "/blind\\ mice\\ " == AlternationWithWhiteSpaceText {}
  lemma AlternationWithWhiteSpaceSpelling()
    ensures Concat(AlternationWithWhiteSpaceTokens) == AlternationWithWhiteSpaceText {
    assert AlternationWithWhiteSpaceTokens == AlternationWithWhiteSpaceHead + AlternationWithWhiteSpaceTail;
    ConcatAppend(AlternationWithWhiteSpaceHead, AlternationWithWhiteSpaceTail);
    AlternationWithWhiteSpaceHeadSpelling();
    AlternationWithWhiteSpaceTailSpelling();
    AlternationWithWhiteSpaceJoin();
  }

  lemma AlternationWithWhiteSpaceExample()
    ensures Escapable(AlternationWithWhiteSpaceText) && Parse(AlternationWithWhiteSpaceText)
      == AlternationWithWhiteSpaceAst
  {
    AlternationWithWhiteSpaceCanonical();
    AlternationWithWhiteSpaceSpelling();
    TokenizeConcat(AlternationWithWhiteSpaceTokens);
    AlternationWithWhiteSpaceTree();
  }

  // ---------------------------------------------------------------------------
  // `three )blind\ mice/rats`: a `)` that closes nothing is text inside the
  // first alternative.

  lemma AlternationWithUnusedEndOptionalNodes(w1: Token, ws: Token, close: Token, w2: Token, esc: Token,
                                              w3: Token, slash: Token, w4: Token)
    requires w1.kind == Text && ws.kind == WhiteSpace && close.kind == EndOptional && w2.kind == Text
    requires esc.kind == EscapedWhiteSpace && w3.kind == Text && slash.kind == Alternation && w4.kind == Text
    ensures Texts([w1, ws]) + [AlternationNode([AlternativeNode(Texts([close, w2, esc, w3])),
                                                AlternativeNode(Texts([w4]))])] + Texts([]) ==
            [TextNode(w1), TextNode(ws), AlternationNode([AlternativeNode([TextNode(close), TextNode(w2),
                TextNode(Unescape(esc)), TextNode(w3)]), AlternativeNode([TextNode(w4)])])]
  {
    assert Texts([w1, ws]) == [TextNode(w1), TextNode(ws)];
    assert Texts([close, w2, esc, w3]) == [TextNode(close), TextNode(w2), TextNode(Unescape(esc)),
                                           TextNode(w3)];
    assert Texts([w4]) == [TextNode(w4)];
  }

  lemma AlternationWithUnusedEndOptionalShape(w1: Token, ws: Token, close: Token, w2: Token, esc: Token,
                                              w3: Token, slash: Token, w4: Token)
    requires w1.kind == Text && ws.kind == WhiteSpace && close.kind == EndOptional && w2.kind == Text
    requires esc.kind == EscapedWhiteSpace && w3.kind == Text && slash.kind == Alternation && w4.kind == Text
    ensures ParseTokens([w1, ws, close, w2, esc, w3, slash, w4]) ==
              ExpressionNode([TextNode(w1), TextNode(ws), AlternationNode([
                AlternativeNode([TextNode(close), TextNode(w2), TextNode(Unescape(esc)), TextNode(w3)]),
                AlternativeNode([TextNode(w4)])])])
  {
    assert NoGroupStart([w1, ws]) && NoGroupStart([close, w2, esc, w3]);
    assert NoGroupStart([w4]) && NoGroupStart([]);
    assert NoneOfKind([w1, ws], Alternation) && NoneOfKind([close, w2, esc, w3], Alternation);
    assert NoneOfKind([w4], Alternation) && NoneOfKind([], Alternation);
    assert NoneOfKind([close, w2, esc, w3], WhiteSpace) && NoneOfKind([w4], WhiteSpace);
    assert [w1, ws, close, w2, esc, w3, slash, w4] == [w1, ws] + [close, w2, esc, w3] + [slash] + [w4] + [];
    AlternationAmongText([w1, ws], [close, w2, esc, w3], slash, [w4], []);
    AlternationWithUnusedEndOptionalNodes(w1, ws, close, w2, esc, w3, slash, w4);
  }

  const AlternationWithUnusedEndOptionalText := "three )blind\\ mice/rats"
  const AlternationWithUnusedEndOptionalTokens := [Token("three", Text), Token(" ", WhiteSpace),
    Token(")", EndOptional), Token("blind", Text), Token("\\ ", EscapedWhiteSpace), Token("mice", Text),
    Token("/", Alternation), Token("rats", Text)]
  const AlternationWithUnusedEndOptionalAst := ExpressionNode([
    Txt("three", Text), Txt(" ", WhiteSpace),
    AlternationNode([
      AlternativeNode([Txt(")", EndOptional), Txt("blind", Text), Txt(" ", WhiteSpace), Txt("mice", Text)]),
      AlternativeNode([Txt("rats", Text)])])])

  lemma AlternationWithUnusedEndOptionalTree()
    ensures ParseTokens(AlternationWithUnusedEndOptionalTokens) == AlternationWithUnusedEndOptionalAst
  {
    UnescapeSpace();
    AlternationWithUnusedEndOptionalShape(Token("three", Text), Token(" ", WhiteSpace),
        Token(")", EndOptional),
      Token("blind", Text), Token("\\ ", EscapedWhiteSpace), Token("mice", Text), Token("/", Alternation),
      Token("rats", Text));
  }

  lemma AlternationWithUnusedEndOptionalValid() ensures ValidTokens(AlternationWithUnusedEndOptionalTokens) {
    T.WordThreeValid();
    T.SpaceTokenValid();
    T.EndOptionalTokenValid();
    T.WordBlindValid();
    T.EscapedSpaceTokenValid();
    T.WordMiceValid();
    T.SlashTokenValid();
    T.WordRatsValid();
  }
  lemma AlternationWithUnusedEndOptionalCanonical()
    ensures Canonical(AlternationWithUnusedEndOptionalTokens) {
    AlternationWithUnusedEndOptionalValid();
    CanonicalOfKinds(AlternationWithUnusedEndOptionalTokens, [Text, WhiteSpace, EndOptional, Text,
                                                              EscapedWhiteSpace, Text, Alternation, Text]);
  }
  const AlternationWithUnusedEndOptionalHead := [Token("three", Text), Token(" ", WhiteSpace),
                                                 Token(")", EndOptional), Token("blind", Text)]
  const AlternationWithUnusedEndOptionalTail := [Token("\\ ", EscapedWhiteSpace), Token("mice", Text),
                                                 Token("/", Alternation), Token("rats", Text)]
  lemma AlternationWithUnusedEndOptionalHeadSpelling()
    ensures Concat(AlternationWithUnusedEndOptionalHead) == "three )blind" {}
  lemma AlternationWithUnusedEndOptionalTailSpelling()
    ensures Concat(AlternationWithUnusedEndOptionalTail) == "\\ mice/rats" {}
  lemma AlternationWithUnusedEndOptionalJoin()
    ensures "three )blind" + "\\ mice/rats" == AlternationWithUnusedEndOptionalText {}
  lemma AlternationWithUnusedEndOptionalSpelling()
    ensures Concat(AlternationWithUnusedEndOptionalTokens) == AlternationWithUnusedEndOptionalText {
    assert AlternationWithUnusedEndOptionalTokens == AlternationWithUnusedEndOptionalHead
        + AlternationWithUnusedEndOptionalTail;
    ConcatAppend(AlternationWithUnusedEndOptionalHead, AlternationWithUnusedEndOptionalTail);
    AlternationWithUnusedEndOptionalHeadSpelling();
    AlternationWithUnusedEndOptionalTailSpelling();
    AlternationWithUnusedEndOptionalJoin();
  }

  lemma AlternationWithUnusedEndOptionalExample()
    ensures Escapable(AlternationWithUnusedEndOptionalText) &&
            Parse(AlternationWithUnusedEndOptionalText) == AlternationWithUnusedEndOptionalAst
  {
    AlternationWithUnusedEndOptionalCanonical();
    AlternationWithUnusedEndOptionalSpelling();
    TokenizeConcat(AlternationWithUnusedEndOptionalTokens);
    AlternationWithUnusedEndOptionalTree();
  }

  // ---------------------------------------------------------------------------
  // `three blind\ mice/rats(`: a `(` that is never closed is text at the end
  // of the last alternative.

  lemma AlternationWithUnusedStartOptionalItems(w1: Token, ws: Token, w2: Token, esc: Token, w3: Token,
                                                slash: Token, w4: Token, open: Token)
    requires w1.kind == Text && ws.kind == WhiteSpace && w2.kind == Text && esc.kind == EscapedWhiteSpace
    requires w3.kind == Text && slash.kind == Alternation && w4.kind == Text && open.kind == BeginOptional
    ensures ParseItems([w1, ws] + [w2, esc, w3] + [slash] + [w4, open] + []) ==
            Singles([w1, ws] + [w2, esc, w3] + [slash] + [w4, open] + [])
  {
    var plain := [w1, ws, w2, esc, w3, slash, w4];
    assert [w1, ws] + [w2, esc, w3] + [slash] + [w4, open] + [] == plain + [open];
    ItemsUnclosedAtEnd(plain, open);
  }

  lemma AlternationWithUnusedStartOptionalNodes(w1: Token, ws: Token, w2: Token, esc: Token, w3: Token,
                                                w4: Token, open: Token)
    requires w1.kind == Text && ws.kind == WhiteSpace && w2.kind == Text && esc.kind == EscapedWhiteSpace
    requires w3.kind == Text && w4.kind == Text && open.kind == BeginOptional
    ensures Texts([w1, ws]) +
            [AlternationNode([AlternativeNode(Texts([w2, esc, w3])), AlternativeNode(Texts([w4, open]))])] +
            Texts([]) ==
            [TextNode(w1), TextNode(ws), AlternationNode([
              AlternativeNode([TextNode(w2), TextNode(Unescape(esc)), TextNode(w3)]),
              AlternativeNode([TextNode(w4), TextNode(open)])])]
  {
    assert Texts([w1, ws]) == [TextNode(w1), TextNode(ws)];
    assert Texts([w2, esc, w3]) == [TextNode(w2), TextNode(Unescape(esc)), TextNode(w3)];
    assert Texts([w4, open]) == [TextNode(w4), TextNode(open)];
    assert Texts([]) == [];
  }

  lemma AlternationWithUnusedStartOptionalShape(w1: Token, ws: Token, w2: Token, esc: Token, w3: Token,
                                                slash: Token, w4: Token, open: Token)
    requires w1.kind == Text && ws.kind == WhiteSpace && w2.kind == Text && esc.kind == EscapedWhiteSpace
    requires w3.kind == Text && slash.kind == Alternation && w4.kind == Text && open.kind == BeginOptional
    ensures ParseTokens([w1, ws, w2, esc, w3, slash, w4, open]) ==
              ExpressionNode([TextNode(w1), TextNode(ws), AlternationNode([
                AlternativeNode([TextNode(w2), TextNode(Unescape(esc)), TextNode(w3)]),
                AlternativeNode([TextNode(w4), TextNode(open)])])])
  {
    assert NoneOfKind([w1, ws], Alternation) && NoneOfKind([w2, esc, w3], Alternation);
    assert NoneOfKind([w4, open], Alternation) && NoneOfKind([], Alternation);
    assert NoneOfKind([w2, esc, w3], WhiteSpace) && NoneOfKind([w4, open], WhiteSpace);
    assert [w1, ws, w2, esc, w3, slash, w4, open] == [w1, ws] + [w2, esc, w3] + [slash] + [w4, open] + [];
    AlternationWithUnusedStartOptionalItems(w1, ws, w2, esc, w3, slash, w4, open);
    AlternationOfSingles([w1, ws], [w2, esc, w3], slash, [w4, open], []);
    AlternationWithUnusedStartOptionalNodes(w1, ws, w2, esc, w3, w4, open);
  }

  const AlternationWithUnusedStartOptionalText := "three blind\\ mice/rats("
  const AlternationWithUnusedStartOptionalTokens := [Token("three", Text), Token(" ", WhiteSpace),
    Token("blind", Text), Token("\\ ", EscapedWhiteSpace), Token("mice", Text), Token("/", Alternation),
    Token("rats", Text), Token("(", BeginOptional)]
  const AlternationWithUnusedStartOptionalAst := ExpressionNode([
    Txt("three", Text), Txt(" ", WhiteSpace),
    AlternationNode([
      AlternativeNode([Txt("blind", Text), Txt(" ", WhiteSpace), Txt("mice", Text)]),
      AlternativeNode([Txt("rats", Text), Txt("(", BeginOptional)])])])

  lemma AlternationWithUnusedStartOptionalTree()
    ensures ParseTokens(AlternationWithUnusedStartOptionalTokens) == AlternationWithUnusedStartOptionalAst
  {
    UnescapeSpace();
    AlternationWithUnusedStartOptionalShape(Token("three", Text), Token(" ", WhiteSpace),
        Token("blind", Text),
      Token("\\ ", EscapedWhiteSpace), Token("mice", Text), Token("/", Alternation), Token("rats", Text),
      Token("(", BeginOptional));
  }

  lemma AlternationWithUnusedStartOptionalValid()
    ensures ValidTokens(AlternationWithUnusedStartOptionalTokens) {
    T.WordThreeValid();
    T.SpaceTokenValid();
    T.WordBlindValid();
    T.EscapedSpaceTokenValid();
    T.WordMiceValid();
    T.SlashTokenValid();
    T.WordRatsValid();
    T.BeginOptionalTokenValid();
  }
  lemma AlternationWithUnusedStartOptionalCanonical()
    ensures Canonical(AlternationWithUnusedStartOptionalTokens) {
    AlternationWithUnusedStartOptionalValid();
    CanonicalOfKinds(AlternationWithUnusedStartOptionalTokens, [Text, WhiteSpace, Text, EscapedWhiteSpace,
                                                                Text, Alternation, Text, BeginOptional]);
  }
  const AlternationWithUnusedStartOptionalHead := [Token("three", Text), Token(" ", WhiteSpace),
                                                   Token("blind", Text), Token("\\ ", EscapedWhiteSpace)]
  const AlternationWithUnusedStartOptionalTail := [Token("mice", Text), Token("/", Alternation),
                                                   Token("rats", Text), Token("(", BeginOptional)]
  lemma AlternationWithUnusedStartOptionalHeadSpelling()
    ensures Concat(AlternationWithUnusedStartOptionalHead) == "three blind\\ " {}
  lemma AlternationWithUnusedStartOptionalTailSpelling()
    ensures Concat(AlternationWithUnusedStartOptionalTail) == "mice/rats(" {}
  lemma AlternationWithUnusedStartOptionalJoin()
    ensures "three blind\\ " + "mice/rats(" == AlternationWithUnusedStartOptionalText {}
  lemma AlternationWithUnusedStartOptionalSpelling()
    ensures Concat(AlternationWithUnusedStartOptionalTokens) == AlternationWithUnusedStartOptionalText {
    assert AlternationWithUnusedStartOptionalTokens == AlternationWithUnusedStartOptionalHead
        + AlternationWithUnusedStartOptionalTail;
    ConcatAppend(AlternationWithUnusedStartOptionalHead, AlternationWithUnusedStartOptionalTail);
    AlternationWithUnusedStartOptionalHeadSpelling();
    AlternationWithUnusedStartOptionalTailSpelling();
    AlternationWithUnusedStartOptionalJoin();
  }

  lemma AlternationWithUnusedStartOptionalExample()
    ensures Escapable(AlternationWithUnusedStartOptionalText) &&
            Parse(AlternationWithUnusedStartOptionalText) == AlternationWithUnusedStartOptionalAst
  {
    AlternationWithUnusedStartOptionalCanonical();
    AlternationWithUnusedStartOptionalSpelling();
    TokenizeConcat(AlternationWithUnusedStartOptionalTokens);
    AlternationWithUnusedStartOptionalTree();
  }

  // ---------------------------------------------------------------------------
  // `three blind\ rat/cat(s)`: an optional is one item of the last
  // alternative.

  lemma ItemsTrailingOptional(plain: seq<Token>, open: Token, w: Token, close: Token)
    requires NoGroupStart(plain) && open.kind == BeginOptional && w.kind == Text && close.kind == EndOptional
    ensures ParseItems(plain + [open, w, close]) == Singles(plain) + [Group(OptionalNode([TextNode(w)]))]
  {
    var group := [open] + [w] + [close] + [];
    calc {
      ParseItems(plain + [open, w, close]);
      { assert [open, w, close] == group; }
      ParseItems(plain + group);
      { ItemsPlain(plain, group); }
      Singles(plain) + ParseItems(group);
      { ItemsOptional(open, [w], close, []); assert Texts([w]) == [TextNode(w)]; }
      Singles(plain) + ([Group(OptionalNode([TextNode(w)]))] + ParseItems([]));
      Singles(plain) + [Group(OptionalNode([TextNode(w)]))];
    }
  }

  lemma AlternationFollowedByOptionalSingles(w1: Token, ws: Token, w2: Token, esc: Token, w3: Token,
                                             slash: Token, w4: Token)
    ensures Singles([w1, ws] + [w2, esc, w3] + [slash] + [w4] + []) ==
            [Single(w1), Single(ws)] + [Single(w2), Single(esc),
                                        Single(w3)] + [Single(slash)] + [Single(w4)] + []
  {
    SinglesAround([w1, ws], [w2, esc, w3], slash, [w4], []);
    assert Singles([w1, ws]) == [Single(w1), Single(ws)];
    assert Singles([w2, esc, w3]) == [Single(w2), Single(esc), Single(w3)];
    assert Singles([w4]) == [Single(w4)] && Singles([]) == [];
  }

  lemma AlternationFollowedByOptionalItems(w1: Token, ws: Token, w2: Token, esc: Token, w3: Token,
                                           slash: Token, w4: Token, open: Token, w5: Token, close: Token)
    requires w1.kind == Text && ws.kind == WhiteSpace && w2.kind == Text && esc.kind == EscapedWhiteSpace
    requires w3.kind == Text && slash.kind == Alternation && w4.kind == Text && open.kind == BeginOptional
    requires w5.kind == Text && close.kind == EndOptional
    ensures ParseItems([w1, ws, w2, esc, w3, slash, w4, open, w5, close]) ==
              [Single(w1), Single(ws)] + [Single(w2), Single(esc), Single(w3)] + [Single(slash)] +
              [Single(w4), Group(OptionalNode([TextNode(w5)]))] + []
  {
    var plain := [w1, ws] + [w2, esc, w3] + [slash] + [w4] + [];
    assert NoGroupStart(plain);
    calc {
      ParseItems([w1, ws, w2, esc, w3, slash, w4, open, w5, close]);
      { assert [w1, ws, w2, esc, w3, slash, w4, open, w5, close] == plain + [open, w5, close]; }
      ParseItems(plain + [open, w5, close]);
      { ItemsTrailingOptional(plain, open, w5, close); }
      Singles(plain) + [Group(OptionalNode([TextNode(w5)]))];
      { AlternationFollowedByOptionalSingles(w1, ws, w2, esc, w3, slash, w4); }
      [Single(w1), Single(ws)] + [Single(w2), Single(esc), Single(w3)] + [Single(slash)] +
      [Single(w4)] + [] + [Group(OptionalNode([TextNode(w5)]))];
      [Single(w1), Single(ws)] + [Single(w2), Single(esc), Single(w3)] + [Single(slash)] +
      [Single(w4), Group(OptionalNode([TextNode(w5)]))] + [];
    }
  }

  lemma AlternationFollowedByOptionalNodes(w1: Token, ws: Token, w2: Token, esc: Token, w3: Token,
                                           w4: Token, w5: Token)
    requires w1.kind == Text && ws.kind == WhiteSpace && w2.kind == Text && esc.kind == EscapedWhiteSpace
    requires w3.kind == Text && w4.kind == Text && w5.kind == Text
    ensures ItemNodes([Single(w1), Single(ws)]) +
            [AlternationNode([AlternativeNode(ItemNodes([Single(w2), Single(esc), Single(w3)])),
                              AlternativeNode(ItemNodes([Single(w4),
                                                         Group(OptionalNode([TextNode(w5)]))]))])] +
            ItemNodes([]) ==
            [TextNode(w1), TextNode(ws), AlternationNode([
              AlternativeNode([TextNode(w2), TextNode(Unescape(esc)), TextNode(w3)]),
              AlternativeNode([TextNode(w4), OptionalNode([TextNode(w5)])])])]
  {
    assert ItemNodes([Single(w1), Single(ws)]) == [TextNode(w1), TextNode(ws)];
    assert ItemNodes([Single(w2), Single(esc), Single(w3)]) == [TextNode(w2), TextNode(Unescape(esc)),
                                                                TextNode(w3)];
    assert ItemNodes([Single(w4), Group(OptionalNode([TextNode(w5)]))]) == [TextNode(w4),
        OptionalNode([TextNode(w5)])];
    assert ItemNodes([]) == [];
  }

  lemma AlternationFollowedByOptionalShape(w1: Token, ws: Token, w2: Token, esc: Token, w3: Token,
                                           slash: Token, w4: Token, open: Token, w5: Token, close: Token)
    requires w1.kind == Text && ws.kind == WhiteSpace && w2.kind == Text && esc.kind == EscapedWhiteSpace
    requires w3.kind == Text && slash.kind == Alternation && w4.kind == Text && open.kind == BeginOptional
    requires w5.kind == Text && close.kind == EndOptional
    ensures ParseTokens([w1, ws, w2, esc, w3, slash, w4, open, w5, close]) ==
              ExpressionNode([TextNode(w1), TextNode(ws), AlternationNode([
                AlternativeNode([TextNode(w2), TextNode(Unescape(esc)), TextNode(w3)]),
                AlternativeNode([TextNode(w4), OptionalNode([TextNode(w5)])])])])
  {
    var pre, a := [Single(w1), Single(ws)], [Single(w2), Single(esc), Single(w3)];
    var b := [Single(w4), Group(OptionalNode([TextNode(w5)]))];
    assert NoSingle(pre, Alternation) && NoSingle(a, Alternation) && NoSingle(a, WhiteSpace);
    assert NoSingle(b, Alternation) && NoSingle(b, WhiteSpace);
    AlternationFollowedByOptionalItems(w1, ws, w2, esc, w3, slash, w4, open, w5, close);
    AlternationOfItems([w1, ws, w2, esc, w3, slash, w4, open, w5, close], pre, a, slash, b, []);
    AlternationFollowedByOptionalNodes(w1, ws, w2, esc, w3, w4, w5);
  }

  const AlternationFollowedByOptionalText := "three blind\\ rat/cat(s)"
  const AlternationFollowedByOptionalTokens := [Token("three", Text), Token(" ", WhiteSpace),
    Token("blind", Text), Token("\\ ", EscapedWhiteSpace), Token("rat", Text), Token("/", Alternation),
    Token("cat", Text), Token("(", BeginOptional), Token("s", Text), Token(")", EndOptional)]
  const AlternationFollowedByOptionalAst := ExpressionNode([
    Txt("three", Text), Txt(" ", WhiteSpace),
    AlternationNode([
      AlternativeNode([Txt("blind", Text), Txt(" ", WhiteSpace), Txt("rat", Text)]),
      AlternativeNode([Txt("cat", Text), OptionalNode([Txt("s", Text)])])])])

  lemma AlternationFollowedByOptionalTree()
    ensures ParseTokens(AlternationFollowedByOptionalTokens) == AlternationFollowedByOptionalAst
  {
    UnescapeSpace();
    AlternationFollowedByOptionalShape(Token("three", Text), Token(" ", WhiteSpace), Token("blind", Text),
      Token("\\ ", EscapedWhiteSpace), Token("rat", Text), Token("/", Alternation), Token("cat", Text),
      Token("(", BeginOptional), Token("s", Text), Token(")", EndOptional));
  }

  lemma AlternationFollowedByOptionalValid() ensures ValidTokens(AlternationFollowedByOptionalTokens) {
    T.WordThreeValid();
    T.SpaceTokenValid();
    T.WordBlindValid();
    T.EscapedSpaceTokenValid();
    T.WordRatValid();
    T.SlashTokenValid();
    T.WordCatValid();
    T.BeginOptionalTokenValid();
    T.WordSValid();
    T.EndOptionalTokenValid();
  }
  lemma AlternationFollowedByOptionalCanonical() ensures Canonical(AlternationFollowedByOptionalTokens) {
    AlternationFollowedByOptionalValid();
    CanonicalOfKinds(AlternationFollowedByOptionalTokens, [Text, WhiteSpace, Text, EscapedWhiteSpace, Text,
                                                           Alternation, Text, BeginOptional, Text,
                                                           EndOptional]);
  }
  const AlternationFollowedByOptionalHead := [Token("three", Text), Token(" ", WhiteSpace),
                                              Token("blind", Text), Token("\\ ", EscapedWhiteSpace),
                                              Token("rat", Text)]
  const AlternationFollowedByOptionalTail := [Token("/", Alternation), Token("cat", Text),
                                              Token("(", BeginOptional), Token("s", Text),
                                              Token(")", EndOptional)]
  lemma AlternationFollowedByOptionalHeadSpelling()
    ensures Concat(AlternationFollowedByOptionalHead) == "three blind\\ rat" {}
  lemma AlternationFollowedByOptionalTailSpelling()
    ensures Concat(AlternationFollowedByOptionalTail) == "/cat(s)" {}
  lemma AlternationFollowedByOptionalJoin()
    ensures "three blind\\ rat" + "/cat(s)" == AlternationFollowedByOptionalText {}
  lemma AlternationFollowedByOptionalSpelling()
    ensures Concat(AlternationFollowedByOptionalTokens) == AlternationFollowedByOptionalText {
    assert AlternationFollowedByOptionalTokens == AlternationFollowedByOptionalHead
        + AlternationFollowedByOptionalTail;
    ConcatAppend(AlternationFollowedByOptionalHead, AlternationFollowedByOptionalTail);
    AlternationFollowedByOptionalHeadSpelling();
    AlternationFollowedByOptionalTailSpelling();
    AlternationFollowedByOptionalJoin();
  }

  lemma AlternationFollowedByOptionalExample()
    ensures Escapable(AlternationFollowedByOptionalText) &&
            Parse(AlternationFollowedByOptionalText) == AlternationFollowedByOptionalAst
  {
    AlternationFollowedByOptionalCanonical();
    AlternationFollowedByOptionalSpelling();
    TokenizeConcat(AlternationFollowedByOptionalTokens);
    AlternationFollowedByOptionalTree();
  }
}
