/**
 The tokenizer on the expressions its tests use. Each example fixes an
 expression and the token sequence the tests expect, and proves that the
 tokenizer produces exactly that sequence: the expected sequence is
 canonical and spells the expression, so by TokenizeConcat it is the
 tokenizer's output.
 */
module TokenizerExamples {
  import opened Ast
  import opened Tokenizer

  // The tokens the examples are made of, each valid on its own.
  lemma WordAndValid() ensures ValidToken(Token("and", Text)) {}
  lemma WordBlindValid() ensures ValidToken(Token("blind", Text)) {}
  lemma WordCatValid() ensures ValidToken(Token("cat", Text)) {}
  lemma WordCrippleValid() ensures ValidToken(Token("cripple", Text)) {}
  lemma WordFamishedValid() ensures ValidToken(Token("famished", Text)) {}
  lemma WordHungryValid() ensures ValidToken(Token("hungry", Text)) {}
  lemma WordMiceValid() ensures ValidToken(Token("mice", Text)) {}
  lemma WordRatValid() ensures ValidToken(Token("rat", Text)) {}
  lemma WordRatsValid() ensures ValidToken(Token("rats", Text)) {}
  lemma WordSValid() ensures ValidToken(Token("s", Text)) {}
  lemma WordStringValid() ensures ValidToken(Token("string", Text)) {}
  lemma WordThreeValid() ensures ValidToken(Token("three", Text)) {}
  lemma WordVeryValid() ensures ValidToken(Token("very", Text)) {}
  lemma SlashTokenValid() ensures ValidToken(Token("/", Alternation)) {}
  lemma BeginOptionalTokenValid() ensures ValidToken(Token("(", BeginOptional)) {}
  lemma BeginParameterTokenValid() ensures ValidToken(Token("{", BeginParameter)) {}
  lemma EndOptionalTokenValid() ensures ValidToken(Token(")", EndOptional)) {}
  lemma EndParameterTokenValid() ensures ValidToken(Token("}", EndParameter)) {}
  lemma BackslashTokenValid() ensures ValidToken(Token("\\", Escape)) {}
  lemma EscapedSlashTokenValid() ensures ValidToken(Token("\\/", EscapedAlternation)) {}
  lemma EscapedBeginOptionalTokenValid() ensures ValidToken(Token("\\(", EscapedBeginOptional)) {}
  lemma EscapedBeginParameterTokenValid() ensures ValidToken(Token("\\{", EscapedBeginParameter)) {}
  lemma EscapedEndOptionalTokenValid() ensures ValidToken(Token("\\)", EscapedEndOptional)) {}
  lemma EscapedEndParameterTokenValid() ensures ValidToken(Token("\\}", EscapedEndParameter)) {}
  lemma EscapedSpaceTokenValid() ensures ValidToken(Token("\\ ", EscapedWhiteSpace)) {}
  lemma SpaceTokenValid() ensures ValidToken(Token(" ", WhiteSpace)) {}

  /** The empty expression has no tokens. */
  lemma EmptyStringExample()
    ensures Escapable("") && Tokenize("") == []
  {
  }

  // `three blind mice`: words and single spaces alternate.
  const PhraseText := "three blind mice"
  const PhraseTokens := [Token("three", Text), Token(" ", WhiteSpace), Token("blind", Text),
    Token(" ", WhiteSpace), Token("mice", Text)]

  lemma PhraseValid() ensures ValidTokens(PhraseTokens) {
    WordThreeValid();
    SpaceTokenValid();
    WordBlindValid();
    WordMiceValid();
  }
  lemma PhraseCanonical() ensures Canonical(PhraseTokens) {
    PhraseValid();
    CanonicalOfKinds(PhraseTokens, [Text, WhiteSpace, Text, WhiteSpace, Text]);
  }
  lemma PhraseSpelling() ensures Concat(PhraseTokens) == PhraseText {}

  lemma PhraseExample()
    ensures Escapable(PhraseText) && Tokenize(PhraseText) == PhraseTokens
  {
    PhraseCanonical();
    PhraseSpelling();
    TokenizeConcat(PhraseTokens);
  }

  // `(blind)`: the parentheses are tokens of their own.
  const OptionalText := "(blind)"
  const OptionalTokens := [Token("(", BeginOptional), Token("blind", Text), Token(")", EndOptional)]

  lemma OptionalValid() ensures ValidTokens(OptionalTokens) {
    BeginOptionalTokenValid();
    WordBlindValid();
    EndOptionalTokenValid();
  }
  lemma OptionalCanonical() ensures Canonical(OptionalTokens) {
    OptionalValid();
    CanonicalOfKinds(OptionalTokens, [BeginOptional, Text, EndOptional]);
  }
  lemma OptionalSpelling() ensures Concat(OptionalTokens) == OptionalText {}

  lemma OptionalExample()
    ensures Escapable(OptionalText) && Tokenize(OptionalText) == OptionalTokens
  {
    OptionalCanonical();
    OptionalSpelling();
    TokenizeConcat(OptionalTokens);
  }

  // `\(blind\)`: a backslash and a parenthesis make one escaped token.
  const EscapedOptionalText := "\\(blind\\)"
  const EscapedOptionalTokens := [Token("\\(", EscapedBeginOptional), Token("blind", Text),
    Token("\\)", EscapedEndOptional)]

  lemma EscapedOptionalValid() ensures ValidTokens(EscapedOptionalTokens) {
    EscapedBeginOptionalTokenValid();
    WordBlindValid();
    EscapedEndOptionalTokenValid();
  }
  lemma EscapedOptionalCanonical() ensures Canonical(EscapedOptionalTokens) {
    EscapedOptionalValid();
    CanonicalOfKinds(EscapedOptionalTokens, [EscapedBeginOptional, Text, EscapedEndOptional]);
  }
  lemma EscapedOptionalSpelling() ensures Concat(EscapedOptionalTokens) == EscapedOptionalText {}

  lemma EscapedOptionalExample()
    ensures Escapable(EscapedOptionalText) && Tokenize(EscapedOptionalText) == EscapedOptionalTokens
  {
    EscapedOptionalCanonical();
    EscapedOptionalSpelling();
    TokenizeConcat(EscapedOptionalTokens);
  }

  // `three (blind) mice`.
  const OptionalPhraseText := "three (blind) mice"
  const OptionalPhraseTokens := [Token("three", Text), Token(" ", WhiteSpace), Token("(", BeginOptional),
    Token("blind", Text), Token(")", EndOptional), Token(" ", WhiteSpace),
    Token("mice", Text)]

  lemma OptionalPhraseValid() ensures ValidTokens(OptionalPhraseTokens) {
    WordThreeValid();
    SpaceTokenValid();
    BeginOptionalTokenValid();
    WordBlindValid();
    EndOptionalTokenValid();
    WordMiceValid();
  }
  lemma OptionalPhraseCanonical() ensures Canonical(OptionalPhraseTokens) {
    OptionalPhraseValid();
    CanonicalOfKinds(OptionalPhraseTokens, [Text, WhiteSpace, BeginOptional, Text, EndOptional, WhiteSpace,
                                            Text]);
  }
  const OptionalPhraseHead := [Token("three", Text), Token(" ", WhiteSpace), Token("(", BeginOptional)]
  const OptionalPhraseTail := [Token("blind", Text), Token(")", EndOptional), Token(" ", WhiteSpace),
                               Token("mice", Text)]
  lemma OptionalPhraseHeadSpelling() ensures Concat(OptionalPhraseHead) == "three (" {}
  lemma OptionalPhraseTailSpelling() ensures Concat(OptionalPhraseTail) == "blind) mice" {}
  lemma OptionalPhraseJoin() ensures "three (" + "blind) mice" == OptionalPhraseText {}
  lemma OptionalPhraseSpelling() ensures Concat(OptionalPhraseTokens) == OptionalPhraseText {
    assert OptionalPhraseTokens == OptionalPhraseHead + OptionalPhraseTail;
    ConcatAppend(OptionalPhraseHead, OptionalPhraseTail);
    OptionalPhraseHeadSpelling();
    OptionalPhraseTailSpelling();
    OptionalPhraseJoin();
  }

  lemma OptionalPhraseExample()
    ensures Escapable(OptionalPhraseText) && Tokenize(OptionalPhraseText) == OptionalPhraseTokens
  {
    OptionalPhraseCanonical();
    OptionalPhraseSpelling();
    TokenizeConcat(OptionalPhraseTokens);
  }

  // `{string}`: the braces are tokens of their own.
  const ParameterText := "{string}"
  const ParameterTokens := [Token("{", BeginParameter), Token("string", Text), Token("}", EndParameter)]

  lemma ParameterValid() ensures ValidTokens(ParameterTokens) {
    BeginParameterTokenValid();
    WordStringValid();
    EndParameterTokenValid();
  }
  lemma ParameterCanonical() ensures Canonical(ParameterTokens) {
    ParameterValid();
    CanonicalOfKinds(ParameterTokens, [BeginParameter, Text, EndParameter]);
  }
  lemma ParameterSpelling() ensures Concat(ParameterTokens) == ParameterText {}

  lemma ParameterExample()
    ensures Escapable(ParameterText) && Tokenize(ParameterText) == ParameterTokens
  {
    ParameterCanonical();
    ParameterSpelling();
    TokenizeConcat(ParameterTokens);
  }

  // `\{string\}`: escaped braces.
  const EscapedParameterText := "\\{string\\}"
  const EscapedParameterTokens := [Token("\\{", EscapedBeginParameter), Token("string", Text),
    Token("\\}", EscapedEndParameter)]

  lemma EscapedParameterValid() ensures ValidTokens(EscapedParameterTokens) {
    EscapedBeginParameterTokenValid();
    WordStringValid();
    EscapedEndParameterTokenValid();
  }
  lemma EscapedParameterCanonical() ensures Canonical(EscapedParameterTokens) {
    EscapedParameterValid();
    CanonicalOfKinds(EscapedParameterTokens, [EscapedBeginParameter, Text, EscapedEndParameter]);
  }
  lemma EscapedParameterSpelling() ensures Concat(EscapedParameterTokens) == EscapedParameterText {}

  lemma EscapedParameterExample()
    ensures Escapable(EscapedParameterText) && Tokenize(EscapedParameterText) == EscapedParameterTokens
  {
    EscapedParameterCanonical();
    EscapedParameterSpelling();
    TokenizeConcat(EscapedParameterTokens);
  }

  // `three {string} mice`.
  const ParameterPhraseText := "three {string} mice"
  const ParameterPhraseTokens := [Token("three", Text), Token(" ", WhiteSpace), Token("{", BeginParameter),
    Token("string", Text), Token("}", EndParameter), Token(" ", WhiteSpace),
    Token("mice", Text)]

  lemma ParameterPhraseValid() ensures ValidTokens(ParameterPhraseTokens) {
    WordThreeValid();
    SpaceTokenValid();
    BeginParameterTokenValid();
    WordStringValid();
    EndParameterTokenValid();
    WordMiceValid();
  }
  lemma ParameterPhraseCanonical() ensures Canonical(ParameterPhraseTokens) {
    ParameterPhraseValid();
    CanonicalOfKinds(ParameterPhraseTokens, [Text, WhiteSpace, BeginParameter, Text, EndParameter,
                                             WhiteSpace, Text]);
  }
  const ParameterPhraseHead := [Token("three", Text), Token(" ", WhiteSpace), Token("{", BeginParameter)]
  const ParameterPhraseTail := [Token("string", Text), Token("}", EndParameter), Token(" ", WhiteSpace),
                                Token("mice", Text)]
  lemma ParameterPhraseHeadSpelling() ensures Concat(ParameterPhraseHead) == "three {" {}
  lemma ParameterPhraseTailSpelling() ensures Concat(ParameterPhraseTail) == "string} mice" {}
  lemma ParameterPhraseJoin() ensures "three {" + "string} mice" == ParameterPhraseText {}
  lemma ParameterPhraseSpelling() ensures Concat(ParameterPhraseTokens) == ParameterPhraseText {
    assert ParameterPhraseTokens == ParameterPhraseHead + ParameterPhraseTail;
    ConcatAppend(ParameterPhraseHead, ParameterPhraseTail);
    ParameterPhraseHeadSpelling();
    ParameterPhraseTailSpelling();
    ParameterPhraseJoin();
  }

  lemma ParameterPhraseExample()
    ensures Escapable(ParameterPhraseText) && Tokenize(ParameterPhraseText) == ParameterPhraseTokens
  {
    ParameterPhraseCanonical();
    ParameterPhraseSpelling();
    TokenizeConcat(ParameterPhraseTokens);
  }

  // `blind\ and\ famished\/cripple`: escaped spaces and an escaped slash end a TEXT run
  // without starting a structural token.
  const EscapedAlternationText := "blind\\ and\\ famished\\/cripple"
  const EscapedAlternationTokens := [Token("blind", Text), Token("\\ ", EscapedWhiteSpace),
                                     Token("and", Text),
    Token("\\ ", EscapedWhiteSpace), Token("famished", Text),
    Token("\\/", EscapedAlternation), Token("cripple", Text)]

  lemma EscapedAlternationValid() ensures ValidTokens(EscapedAlternationTokens) {
    WordBlindValid();
    EscapedSpaceTokenValid();
    WordAndValid();
    WordFamishedValid();
    EscapedSlashTokenValid();
    WordCrippleValid();
  }
  lemma EscapedAlternationCanonical() ensures Canonical(EscapedAlternationTokens) {
    EscapedAlternationValid();
    CanonicalOfKinds(EscapedAlternationTokens, [Text, EscapedWhiteSpace, Text, EscapedWhiteSpace, Text,
                                                EscapedAlternation, Text]);
  }
  const EscapedAlternationHead := [Token("blind", Text), Token("\\ ", EscapedWhiteSpace), Token("and", Text)]
  const EscapedAlternationTail := [Token("\\ ", EscapedWhiteSpace), Token("famished", Text),
                                   Token("\\/", EscapedAlternation), Token("cripple", Text)]
  lemma EscapedAlternationHeadSpelling() ensures Concat(EscapedAlternationHead) == "blind\\ and" {}
  lemma EscapedAlternationTailSpelling() ensures Concat(EscapedAlternationTail) == "\\ famished\\/cripple" {}
  lemma EscapedAlternationJoin() ensures "blind\\ and" + "\\ famished\\/cripple" == EscapedAlternationText {}
  lemma EscapedAlternationSpelling() ensures Concat(EscapedAlternationTokens) == EscapedAlternationText {
    assert EscapedAlternationTokens == EscapedAlternationHead + EscapedAlternationTail;
    ConcatAppend(EscapedAlternationHead, EscapedAlternationTail);
    EscapedAlternationHeadSpelling();
    EscapedAlternationTailSpelling();
    EscapedAlternationJoin();
  }

  lemma EscapedAlternationExample()
    ensures Escapable(EscapedAlternationText) && Tokenize(EscapedAlternationText) == EscapedAlternationTokens
  {
    EscapedAlternationCanonical();
    EscapedAlternationSpelling();
    TokenizeConcat(EscapedAlternationTokens);
  }

  // `three blind/cripple mice`: the slash is a token of its own.
  const AlternationPhraseText := "three blind/cripple mice"
  const AlternationPhraseTokens := [Token("three", Text), Token(" ", WhiteSpace), Token("blind", Text),
    Token("/", Alternation), Token("cripple", Text), Token(" ", WhiteSpace),
    Token("mice", Text)]

  lemma AlternationPhraseValid() ensures ValidTokens(AlternationPhraseTokens) {
    WordThreeValid();
    SpaceTokenValid();
    WordBlindValid();
    SlashTokenValid();
    WordCrippleValid();
    WordMiceValid();
  }
  lemma AlternationPhraseCanonical() ensures Canonical(AlternationPhraseTokens) {
    AlternationPhraseValid();
    CanonicalOfKinds(AlternationPhraseTokens, [Text, WhiteSpace, Text, Alternation, Text, WhiteSpace, Text]);
  }
  const AlternationPhraseHead := [Token("three", Text), Token(" ", WhiteSpace), Token("blind", Text)]
  const AlternationPhraseTail := [Token("/", Alternation), Token("cripple", Text), Token(" ", WhiteSpace),
                                  Token("mice", Text)]
  lemma AlternationPhraseHeadSpelling() ensures Concat(AlternationPhraseHead) == "three blind" {}
  lemma AlternationPhraseTailSpelling() ensures Concat(AlternationPhraseTail) == "/cripple mice" {}
  lemma AlternationPhraseJoin() ensures "three blind" + "/cripple mice" == AlternationPhraseText {}
  lemma AlternationPhraseSpelling() ensures Concat(AlternationPhraseTokens) == AlternationPhraseText {
    assert AlternationPhraseTokens == AlternationPhraseHead + AlternationPhraseTail;
    ConcatAppend(AlternationPhraseHead, AlternationPhraseTail);
    AlternationPhraseHeadSpelling();
    AlternationPhraseTailSpelling();
    AlternationPhraseJoin();
  }

  lemma AlternationPhraseExample()
    ensures Escapable(AlternationPhraseText) && Tokenize(AlternationPhraseText) == AlternationPhraseTokens
  {
    AlternationPhraseCanonical();
    AlternationPhraseSpelling();
    TokenizeConcat(AlternationPhraseTokens);
  }
}
