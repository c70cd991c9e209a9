/**
 The vocabulary shared by the Cucumber Expression tokenizer and parser: the
 token kinds, the token value, the syntax-tree value, and the invariants every
 parse result keeps.
 */
module Ast {

  /** Every kind of token the tokenizer emits. The parser only ever places the
      unescaped kinds (everything but the `Escaped*` ones) in a tree. */
  datatype TokenType =
    | BeginOptional        // `(`
    | EndOptional          // `)`
    | BeginParameter       // `{`
    | EndParameter         // `}`
    | Alternation          // `/`
    | WhiteSpace           // one space
    | Text                 // a maximal run of ordinary characters
    | Escape               // a lone backslash with nothing after it
    | EscapedBeginOptional
    | EscapedEndOptional
    | EscapedBeginParameter
    | EscapedEndParameter
    | EscapedAlternation
    | EscapedWhiteSpace

  /** One lexical unit and the raw source text it was cut from. */
  datatype Token = Token(text: string, kind: TokenType)

  /** A closed sum: five kinds carry an ordered list of children, a text node
      carries exactly one token. */
  datatype AstNode =
    | ExpressionNode(children: seq<AstNode>)
    | OptionalNode(children: seq<AstNode>)
    | ParameterNode(children: seq<AstNode>)
    | AlternationNode(children: seq<AstNode>)
    | AlternativeNode(children: seq<AstNode>)
    | TextNode(token: Token)

  // ---------------------------------------------------------------------------
  // Characters

  /** The six characters that have a structural meaning and can be escaped. */
  predicate IsSpecial(c: char) {
    c == ' ' || c == '(' || c == ')' || c == '{' || c == '}' || c == '/'
  }

  /** A character that may appear inside a TEXT token. */
  predicate IsOrdinary(c: char) {
    !IsSpecial(c) && c != '\\'
  }

  /** The kind of the one-character token an unescaped special character makes. */
  function SpecialKind(c: char): (k: TokenType)
    requires IsSpecial(c)
    ensures !IsEscaped(k) && k != Text && k != Escape
  {
    match c
    case ' ' => WhiteSpace
    case '(' => BeginOptional
    case ')' => EndOptional
    case '{' => BeginParameter
    case '}' => EndParameter
    case '/' => Alternation
  }

  /** The kind of the two-character token a backslash and a special character make. */
  function EscapedKind(c: char): (k: TokenType)
    requires IsSpecial(c)
    ensures IsEscaped(k)
  {
    match c
    case ' ' => EscapedWhiteSpace
    case '(' => EscapedBeginOptional
    case ')' => EscapedEndOptional
    case '{' => EscapedBeginParameter
    case '}' => EscapedEndParameter
    case '/' => EscapedAlternation
  }

  predicate IsEscaped(k: TokenType) {
    k.EscapedBeginOptional? || k.EscapedEndOptional? || k.EscapedBeginParameter? ||
    k.EscapedEndParameter? || k.EscapedAlternation? || k.EscapedWhiteSpace?
  }

  /** The structural kind an escaped kind stands for; other kinds are unchanged. */
  function UnescapedKind(k: TokenType): (u: TokenType)
    ensures !IsEscaped(u)
    ensures !IsEscaped(k) ==> u == k
    ensures forall c :: IsSpecial(c) && k == EscapedKind(c) ==> u == SpecialKind(c)
  {
    match k
    case EscapedBeginOptional => BeginOptional
    case EscapedEndOptional => EndOptional
    case EscapedBeginParameter => BeginParameter
    case EscapedEndParameter => EndParameter
    case EscapedAlternation => Alternation
    case EscapedWhiteSpace => WhiteSpace
    case _ => k
  }

  // ---------------------------------------------------------------------------
  // Tokens

  /** The shape of a token as the tokenizer produces it: the kind fixes the text. */
  predicate ValidToken(t: Token) {
    || (t.kind == Text && |t.text| >= 1 && forall i :: 0 <= i < |t.text| ==> IsOrdinary(t.text[i]))
    || (t.kind == Escape && t.text == "\\")
    || (|t.text| == 1 && IsSpecial(t.text[0]) && t.kind == SpecialKind(t.text[0]))
    || (|t.text| == 2 && t.text[0] == '\\' && IsSpecial(t.text[1]) && t.kind == EscapedKind(t.text[1]))
  }

  predicate ValidTokens(ts: seq<Token>) {
    forall i :: 0 <= i < |ts| ==> ValidToken(ts[i])
  }

  /** The raw source text of a token sequence. */
  function Concat(ts: seq<Token>): string {
    if ts == [] then "" else ts[0].text + Concat(ts[1..])
  }

  lemma {:induction false} ConcatAppend(a: seq<Token>, b: seq<Token>)
    ensures Concat(a + b) == Concat(a) + Concat(b)
  {
    if a == [] {
      assert a + b == b;
    } else {
      assert (a + b)[1..] == a[1..] + b;
      ConcatAppend(a[1..], b);
    }
  }

  /** The token a text node carries: an escaped token loses its backslash and
      takes the kind of the structural character it stands for. */
  function Unescape(t: Token): (u: Token)
    ensures !IsEscaped(u.kind)
    ensures !IsEscaped(t.kind) ==> u == t
    ensures ValidToken(t) && IsEscaped(t.kind) ==>
              |t.text| == 2 && u == Token([t.text[1]], SpecialKind(t.text[1]))
  {
    if IsEscaped(t.kind) && |t.text| > 0 then Token(t.text[1..], UnescapedKind(t.kind))
    else Token(t.text, UnescapedKind(t.kind))
  }

  /** The text a token sequence reads as once escapes are resolved. */
  function UnescapedText(ts: seq<Token>): string {
    if ts == [] then "" else Unescape(ts[0]).text + UnescapedText(ts[1..])
  }

  /** A well-formed token of a structural kind spells that kind's character. */
  lemma StructuralText(t: Token)
    requires ValidToken(t)
    ensures t.kind == BeginOptional ==> t.text == "("
    ensures t.kind == EndOptional ==> t.text == ")"
    ensures t.kind == BeginParameter ==> t.text == "{"
    ensures t.kind == EndParameter ==> t.text == "}"
    ensures t.kind == Alternation ==> t.text == "/"
    ensures t.kind == WhiteSpace ==> t.text == " "
  {
  }

  lemma UnescapedTextCons(t: Token, ts: seq<Token>)
    ensures UnescapedText([t] + ts) == Unescape(t).text + UnescapedText(ts)
  {
    assert ([t] + ts)[1..] == ts;
  }

  lemma {:induction false} UnescapedTextAppend(a: seq<Token>, b: seq<Token>)
    ensures UnescapedText(a + b) == UnescapedText(a) + UnescapedText(b)
  {
    if a != [] {
      assert (a + b)[1..] == a[1..] + b;
      UnescapedTextAppend(a[1..], b);
    } else {
      assert a + b == b;
    }
  }

  // ---------------------------------------------------------------------------
  // Trees

  /** A tree written back out as the text it matches structurally: optionals in
      parentheses, parameters in braces, alternatives separated by slashes. */
  function Render(n: AstNode): string
    decreases n, 1
  {
    match n
    case ExpressionNode(cs) => RenderAll(cs)
    case AlternativeNode(cs) => RenderAll(cs)
    case OptionalNode(cs) => "(" + RenderAll(cs) + ")"
    case ParameterNode(cs) => "{" + RenderAll(cs) + "}"
    case AlternationNode(cs) => RenderJoined(cs)
    case TextNode(t) => t.text
  }

  function RenderAll(cs: seq<AstNode>): string
    decreases cs, 0
  {
    if cs == [] then "" else Render(cs[0]) + RenderAll(cs[1..])
  }

  lemma {:induction false} RenderAllAppend(a: seq<AstNode>, b: seq<AstNode>)
    ensures RenderAll(a + b) == RenderAll(a) + RenderAll(b)
  {
    if a != [] {
      assert (a + b)[1..] == a[1..] + b;
      RenderAllAppend(a[1..], b);
    } else {
      assert a + b == b;
    }
  }

  lemma RenderAllOne(n: AstNode)
    ensures RenderAll([n]) == Render(n)
  {
    assert [n][1..] == [];
  }

  /** The alternatives of an alternation, separated by `/`. */
  function RenderJoined(cs: seq<AstNode>): string
    decreases cs, 0
  {
    if cs == [] then ""
    else if |cs| == 1 then Render(cs[0])
    else Render(cs[0]) + "/" + RenderJoined(cs[1..])
  }

  /** A text node whose token is not one of the escaped kinds. */
  predicate IsPlainText(n: AstNode) {
    n.TextNode? && !IsEscaped(n.token.kind)
  }

  /** An optional holds text nodes only. */
  predicate ValidOptional(n: AstNode) {
    n.OptionalNode? && forall i :: 0 <= i < |n.children| ==> IsPlainText(n.children[i])
  }

  /** A parameter is anonymous or holds one TEXT token. */
  predicate ValidParameter(n: AstNode) {
    && n.ParameterNode?
    && |n.children| <= 1
    && forall i :: 0 <= i < |n.children| ==> n.children[i].TextNode? && n.children[i].token.kind == Text
  }

  /** What may stand directly inside an expression or an alternative. */
  predicate ValidItem(n: AstNode) {
    IsPlainText(n) || ValidOptional(n) || ValidParameter(n)
  }

  predicate ValidAlternative(n: AstNode) {
    n.AlternativeNode? && forall i :: 0 <= i < |n.children| ==> ValidItem(n.children[i])
  }

  /** An alternation has at least two alternatives and does not nest. */
  predicate ValidAlternation(n: AstNode) {
    && n.AlternationNode?
    && |n.children| >= 2
    && forall i :: 0 <= i < |n.children| ==> ValidAlternative(n.children[i])
  }

  predicate ValidExpressionChild(n: AstNode) {
    ValidItem(n) || ValidAlternation(n)
  }

  /** The shape of every parse result: one expression root, alternations only
      directly below it, no escaped token anywhere. */
  predicate ValidExpression(n: AstNode) {
    n.ExpressionNode? && forall i :: 0 <= i < |n.children| ==> ValidExpressionChild(n.children[i])
  }
}
