/**
 The Cucumber Expression parser. It never fails: an optional or a parameter
 that does not close degrades to literal text.

 Parsing happens in three layers over the token sequence:
 1. items: left to right, an unescaped `(` with an unescaped `)` somewhere
    after it becomes an optional (the nearest such `)` closes it, even across
    spaces), `{` `}` and `{` TEXT `}` become parameters, and every other token
    stays a single token;
 2. runs: the items are cut at the unescaped spaces that are left;
 3. alternation: a run holding an unescaped `/` that is left becomes an
    alternation of the pieces between those slashes.
 A matched optional or parameter is opaque to layers 2 and 3.
 */
module Parser {
  import opened Ast
  import opened Tokenizer

  datatype Option<T> = None | Some(value: T)

  /** What a sub-parser reports: the node it built and how many tokens it
      consumed, or that it does not apply here. */
  datatype Match = NoMatch | Matched(node: AstNode, consumed: nat)

  /** The result of the item layer: a group (optional or parameter) or one
      token that no group took. */
  datatype Item = Group(node: AstNode) | Single(token: Token)

  /** The nearest position at or after `from` that holds a token of `kind`. */
  function FindFrom(ts: seq<Token>, kind: TokenType, from: nat): (r: Option<nat>)
    requires from <= |ts|
    ensures r.Some? ==> from <= r.value < |ts| && ts[r.value].kind == kind
    ensures r.Some? ==> forall k :: from <= k < r.value ==> ts[k].kind != kind
    ensures r.None? ==> forall k :: from <= k < |ts| ==> ts[k].kind != kind
    decreases |ts| - from
  {
    if from == |ts| then None
    else if ts[from].kind == kind then Some(from)
    else FindFrom(ts, kind, from + 1)
  }

  /** The search stops at the first token of the kind. */
  lemma FindFromFirst(ts: seq<Token>, kind: TokenType, from: nat, j: nat)
    requires from <= j < |ts| && ts[j].kind == kind
    requires forall k :: from <= k < j ==> ts[k].kind != kind
    ensures FindFrom(ts, kind, from) == Some(j)
  {
  }

  /** Each token as a text node of its own, escapes resolved. */
  function Texts(ts: seq<Token>): (ns: seq<AstNode>)
    ensures |ns| == |ts|
  {
    seq(|ts|, i requires 0 <= i < |ts| => TextNode(Unescape(ts[i])))
  }

  predicate NoneOfKind(ts: seq<Token>, kind: TokenType) {
    forall k :: 0 <= k < |ts| ==> ts[k].kind != kind
  }

  /** An optional: `(` and everything up to the nearest following `)`.
      Without such a `)` the sub-parser does not apply. */
  function ParseOptional(ts: seq<Token>): (m: Match)
    ensures m.Matched? <==>
              |ts| > 0 && ts[0].kind == BeginOptional && !NoneOfKind(ts[1..], EndOptional)
    ensures m.Matched? ==>
              && 2 <= m.consumed <= |ts|
              && ts[m.consumed - 1].kind == EndOptional
              && NoneOfKind(ts[1..m.consumed - 1], EndOptional)
              && m.node == OptionalNode(Texts(ts[1..m.consumed - 1]))
    decreases |ts|, 0
  {
    if |ts| == 0 || ts[0].kind != BeginOptional then NoMatch
    else match FindFrom(ts, EndOptional, 1)
      case None =>
        assert NoneOfKind(ts[1..], EndOptional) by {
          forall k | 0 <= k < |ts[1..]| ensures ts[1..][k].kind != EndOptional {
            assert ts[1..][k] == ts[k + 1];
          }
        }
        NoMatch
      case Some(j) =>
        assert !NoneOfKind(ts[1..], EndOptional) by { assert ts[1..][j - 1] == ts[j]; }
        var content := ts[1..j];
        assert NoneOfKind(content, EndOptional) by {
          forall k | 0 <= k < |content| ensures content[k].kind != EndOptional {
            assert content[k] == ts[k + 1];
          }
        }
        Matched(OptionalNode(ParseOptionalContent(content)), j + 1)
  }

  /** The inside of an optional: nested optionals and single tokens as text;
      no parameter and no alternation. Because an optional closes at the
      nearest `)`, its content holds no `)` and is plain text throughout. */
  function ParseOptionalContent(ts: seq<Token>): (ns: seq<AstNode>)
    ensures NoneOfKind(ts, EndOptional) ==> ns == Texts(ts)
    decreases |ts|, 1
  {
    if ts == [] then []
    else
      var m := ParseOptional(ts);
      if m.Matched? then [m.node] + ParseOptionalContent(ts[m.consumed..])
      else
        var rest := ParseOptionalContent(ts[1..]);
        assert NoneOfKind(ts, EndOptional) ==> NoneOfKind(ts[1..], EndOptional) by {
          if NoneOfKind(ts, EndOptional) {
            forall k | 0 <= k < |ts[1..]| ensures ts[1..][k].kind != EndOptional {
              assert ts[1..][k] == ts[k + 1];
            }
          }
        }
        [TextNode(Unescape(ts[0]))] + rest
  }

  /** A parameter: `{` `}` (anonymous) or `{` TEXT `}`, closed by the nearest
      following `}`. Anything else between the braces, or no `}` at all,
      and the sub-parser does not apply. */
  function ParseParameter(ts: seq<Token>): (m: Match)
    ensures m.Matched? <==>
              && |ts| >= 2 && ts[0].kind == BeginParameter
              && (ts[1].kind == EndParameter || (|ts| >= 3 && ts[1].kind == Text && ts[2].kind == EndParameter))
    ensures m.Matched? && ts[1].kind == EndParameter ==> m == Matched(ParameterNode([]), 2)
    ensures m.Matched? && ts[1].kind == Text ==> m == Matched(ParameterNode([TextNode(ts[1])]), 3)
  {
    if |ts| == 0 || ts[0].kind != BeginParameter then NoMatch
    else match FindFrom(ts, EndParameter, 1)
      case None => NoMatch
      case Some(j) =>
        if j == 1 then Matched(ParameterNode([]), 2)
        else if j == 2 && ts[1].kind == Text then Matched(ParameterNode([TextNode(ts[1])]), 3)
        else NoMatch
  }

  /** One step of the item layer: an optional first, then a parameter, else
      the token on its own. Returns the item and how many tokens it took. */
  function NextItem(ts: seq<Token>): (r: (Item, nat))
    requires ts != []
    ensures 1 <= r.1 <= |ts|
    ensures r.0.Group? ==> ValidOptional(r.0.node) || ValidParameter(r.0.node)
    ensures r.0.Single? ==> r == (Single(ts[0]), 1)
    ensures ParseOptional(ts).Matched? ==> r == (Group(ParseOptional(ts).node), ParseOptional(ts).consumed)
    ensures !ParseOptional(ts).Matched? && ParseParameter(ts).Matched? ==>
              r == (Group(ParseParameter(ts).node), ParseParameter(ts).consumed)
    ensures r.0.Single? <==> !ParseOptional(ts).Matched? && !ParseParameter(ts).Matched?
  {
    var o := ParseOptional(ts);
    if o.Matched? then (Group(o.node), o.consumed)
    else
      var p := ParseParameter(ts);
      if p.Matched? then (Group(p.node), p.consumed)
      else (Single(ts[0]), 1)
  }

  /** The item layer over a whole scope, left to right. */
  function ParseItems(ts: seq<Token>): (items: seq<Item>)
    ensures ValidItems(items)
    decreases |ts|
  {
    if ts == [] then []
    else
      var (it, c) := NextItem(ts);
      [it] + ParseItems(ts[c..])
  }

  /** The item layer invents no token: every lone token is one of the input's. */
  lemma {:induction false} ParseItemsSingles(ts: seq<Token>)
    ensures forall i :: 0 <= i < |ParseItems(ts)| && ParseItems(ts)[i].Single? ==> ParseItems(ts)[i].token in ts
    decreases |ts|
  {
    if ts != [] {
      var (it, c) := NextItem(ts);
      assert ts == ts[..c] + ts[c..];
      var rest := ParseItems(ts[c..]);
      ParseItemsSingles(ts[c..]);
      forall i | 0 <= i < |rest| && rest[i].Single? ensures rest[i].token in ts {
        assert rest[i].token in ts[c..];
        var j :| 0 <= j < |ts[c..]| && ts[c..][j] == rest[i].token;
        assert ts[c + j] == rest[i].token;
      }
      assert ParseItems(ts) == [it] + rest;
    }
  }

  /** Every group the item layer builds is a well-formed optional or parameter. */
  predicate ValidItems(items: seq<Item>) {
    forall i :: 0 <= i < |items| && items[i].Group? ==>
      ValidOptional(items[i].node) || ValidParameter(items[i].node)
  }

  predicate IsSingleOf(it: Item, kind: TokenType) {
    it.Single? && it.token.kind == kind
  }

  /** The first item that is a lone token of `kind`, or the length if none. */
  function FirstSingle(items: seq<Item>, kind: TokenType): (k: nat)
    ensures k <= |items|
    ensures k < |items| ==> IsSingleOf(items[k], kind)
    ensures forall j :: 0 <= j < k ==> !IsSingleOf(items[j], kind)
  {
    if items == [] then 0
    else if IsSingleOf(items[0], kind) then 0
    else 1 + FirstSingle(items[1..], kind)
  }

  /** Items as nodes: groups as built, lone tokens as text nodes. */
  function ItemNode(it: Item): AstNode {
    match it
    case Group(n) => n
    case Single(t) => TextNode(Unescape(t))
  }

  function ItemNodes(items: seq<Item>): (ns: seq<AstNode>)
    ensures |ns| == |items|
    ensures forall i :: 0 <= i < |items| ==> ns[i] == ItemNode(items[i])
    ensures ValidItems(items) ==> forall i :: 0 <= i < |ns| ==> ValidItem(ns[i])
  {
    seq(|items|, i requires 0 <= i < |items| => ItemNode(items[i]))
  }

  /** The pieces of a run between its lone `/` tokens, one alternative each. */
  function Alternatives(run: seq<Item>): (alts: seq<AstNode>)
    ensures |alts| >= 1
    ensures FirstSingle(run, Alternation) < |run| ==> |alts| >= 2
    ensures forall i :: 0 <= i < |alts| ==> alts[i].AlternativeNode?
    ensures ValidItems(run) ==> forall i :: 0 <= i < |alts| ==> ValidAlternative(alts[i])
    decreases |run|
  {
    var k := FirstSingle(run, Alternation);
    if k == |run| then [AlternativeNode(ItemNodes(run))]
    else [AlternativeNode(ItemNodes(run[..k]))] + Alternatives(run[k + 1..])
  }

  /** One run between unescaped spaces: an alternation if a lone `/` is left
      in it, its items side by side otherwise. */
  function RunNodes(run: seq<Item>): (ns: seq<AstNode>)
    ensures ValidItems(run) ==> forall i :: 0 <= i < |ns| ==> ValidExpressionChild(ns[i])
  {
    if FirstSingle(run, Alternation) < |run| then [AlternationNode(Alternatives(run))]
    else ItemNodes(run)
  }

  /** The run layer: runs separated by the lone spaces, each space kept as a
      text node between them. */
  function BuildSequence(items: seq<Item>): (ns: seq<AstNode>)
    ensures ValidItems(items) ==> forall i :: 0 <= i < |ns| ==> ValidExpressionChild(ns[i])
    decreases |items|
  {
    var k := FirstSingle(items, WhiteSpace);
    if k == |items| then RunNodes(items)
    else RunNodes(items[..k]) + [TextNode(items[k].token)] + BuildSequence(items[k + 1..])
  }

  /** The parser over a token sequence; always an expression node. */
  function ParseTokens(ts: seq<Token>): (n: AstNode)
    ensures ValidExpression(n)
  {
    ExpressionNode(BuildSequence(ParseItems(ts)))
  }

  /** The parser over an expression: tokenize, then parse. */
  function Parse(s: string): (n: AstNode)
    requires Escapable(s)
    ensures ValidExpression(n)
  {
    ParseTokens(Tokenize(s))
  }

  // ---------------------------------------------------------------------------
  // Nothing lost, nothing invented, order kept: written back out, the tree
  // spells the expression with its escapes resolved.

  lemma {:induction false} RenderTexts(ts: seq<Token>)
    ensures RenderAll(Texts(ts)) == UnescapedText(ts)
  {
    if ts != [] {
      assert Texts(ts)[1..] == Texts(ts[1..]);
      RenderTexts(ts[1..]);
    }
  }

  lemma ItemNodesAppend(a: seq<Item>, b: seq<Item>)
    ensures ItemNodes(a + b) == ItemNodes(a) + ItemNodes(b)
  {
  }

  lemma UnescapedTextWrap(a: Token, mid: seq<Token>, b: Token)
    ensures UnescapedText([a] + mid + [b]) == Unescape(a).text + UnescapedText(mid) + Unescape(b).text
  {
    UnescapedTextAppend([a] + mid, [b]);
    UnescapedTextCons(a, mid);
    UnescapedTextCons(b, []);
  }

  lemma SliceWrap(ts: seq<Token>, c: nat)
    requires 2 <= c <= |ts|
    ensures ts[..c] == [ts[0]] + ts[1..c - 1] + [ts[c - 1]]
  {
  }

  /** A matched optional spells the tokens it consumed. */
  lemma RenderOptional(ts: seq<Token>)
    requires ValidTokens(ts) && ParseOptional(ts).Matched?
    ensures Render(ParseOptional(ts).node) == UnescapedText(ts[..ParseOptional(ts).consumed])
  {
    var m := ParseOptional(ts);
    var c := m.consumed;
    var mid := ts[1..c - 1];
    assert m.node == OptionalNode(Texts(mid));
    calc {
      Render(m.node);
      Render(OptionalNode(Texts(mid)));
      { RenderTexts(mid); }
      "(" + UnescapedText(mid) + ")";
      { assert ValidToken(ts[0]) && ValidToken(ts[c - 1]);
        StructuralText(ts[0]);
        StructuralText(ts[c - 1]); }
      Unescape(ts[0]).text + UnescapedText(mid) + Unescape(ts[c - 1]).text;
      { UnescapedTextWrap(ts[0], mid, ts[c - 1]); }
      UnescapedText([ts[0]] + mid + [ts[c - 1]]);
      { SliceWrap(ts, c); }
      UnescapedText(ts[..c]);
    }
  }

  /** A matched parameter spells the tokens it consumed. */
  lemma RenderParameter(ts: seq<Token>)
    requires ValidTokens(ts) && ParseParameter(ts).Matched?
    ensures Render(ParseParameter(ts).node) == UnescapedText(ts[..ParseParameter(ts).consumed])
  {
    var m := ParseParameter(ts);
    var c := m.consumed;
    assert ValidToken(ts[0]) && ValidToken(ts[c - 1]);
    StructuralText(ts[0]);
    StructuralText(ts[c - 1]);
    SliceWrap(ts, c);
    var mid := ts[1..c - 1];
    var inner := if c == 2 then [] else [TextNode(ts[1])];
    assert m.node == ParameterNode(inner);
    calc {
      RenderAll(inner);
      { if c == 2 { assert mid == []; }
        else { assert mid == [ts[1]]; UnescapedTextCons(ts[1], []); RenderAllOne(TextNode(ts[1])); } }
      UnescapedText(mid);
    }
    calc {
      Render(m.node);
      "{" + RenderAll(inner) + "}";
      { assert Unescape(ts[0]).text == "{" && Unescape(ts[c - 1]).text == "}"; }
      Unescape(ts[0]).text + UnescapedText(mid) + Unescape(ts[c - 1]).text;
      { UnescapedTextWrap(ts[0], mid, ts[c - 1]); }
      UnescapedText(ts[..c]);
    }
  }

  /** The item one step takes spells the tokens it consumed. */
  lemma RenderNextItem(ts: seq<Token>)
    requires ValidTokens(ts) && ts != []
    ensures Render(ItemNode(NextItem(ts).0)) == UnescapedText(ts[..NextItem(ts).1])
  {
    if ParseOptional(ts).Matched? {
      RenderOptional(ts);
    } else if ParseParameter(ts).Matched? {
      RenderParameter(ts);
    } else {
      UnescapedTextCons(ts[0], []);
      assert ts[..1] == [ts[0]];
    }
  }

  /** The item layer keeps every token's text, in order. */
  lemma {:induction false} RenderParseItems(ts: seq<Token>)
    requires ValidTokens(ts)
    ensures RenderAll(ItemNodes(ParseItems(ts))) == UnescapedText(ts)
    decreases |ts|
  {
    if ts != [] {
      var (it, c) := NextItem(ts);
      assert ts == ts[..c] + ts[c..];
      var rest := ParseItems(ts[c..]);
      calc {
        RenderAll(ItemNodes(ParseItems(ts)));
        { ItemNodesAppend([it], rest); }
        RenderAll([ItemNode(it)] + ItemNodes(rest));
        { RenderAllAppend([ItemNode(it)], ItemNodes(rest)); }
        Render(ItemNode(it)) + RenderAll(ItemNodes(rest));
        { RenderNextItem(ts); assert ValidTokens(ts[c..]); RenderParseItems(ts[c..]); }
        UnescapedText(ts[..c]) + UnescapedText(ts[c..]);
        { UnescapedTextAppend(ts[..c], ts[c..]); }
        UnescapedText(ts);
      }
    }
  }

  /** Every lone token is well formed. */
  predicate ValidSingles(items: seq<Item>) {
    forall i :: 0 <= i < |items| && items[i].Single? ==> ValidToken(items[i].token)
  }

  lemma ValidSinglesSlice(items: seq<Item>, lo: nat, hi: nat)
    requires lo <= hi <= |items| && ValidSingles(items)
    ensures ValidSingles(items[lo..hi])
  {
    forall i | 0 <= i < hi - lo && items[lo..hi][i].Single? ensures ValidToken(items[lo..hi][i].token) {
      assert items[lo..hi][i] == items[lo + i];
    }
  }

  /** Cutting the items at one of them cuts their rendering there too. */
  lemma RenderItemsSplit(items: seq<Item>, k: nat)
    requires k < |items|
    ensures RenderAll(ItemNodes(items)) ==
              RenderAll(ItemNodes(items[..k])) + Render(ItemNode(items[k])) + RenderAll(ItemNodes(items[k + 1..]))
  {
    var a, x, b := items[..k], items[k], items[k + 1..];
    assert items == a + [x] + b;
    calc {
      RenderAll(ItemNodes(items));
      RenderAll(ItemNodes(a + [x] + b));
      { ItemNodesAppend(a + [x], b); ItemNodesAppend(a, [x]); }
      RenderAll(ItemNodes(a) + ItemNodes([x]) + ItemNodes(b));
      { RenderAllAppend(ItemNodes(a) + ItemNodes([x]), ItemNodes(b));
        RenderAllAppend(ItemNodes(a), ItemNodes([x])); }
      RenderAll(ItemNodes(a)) + RenderAll(ItemNodes([x])) + RenderAll(ItemNodes(b));
      { assert ItemNodes([x]) == [ItemNode(x)]; RenderAllOne(ItemNode(x)); }
      RenderAll(ItemNodes(a)) + Render(ItemNode(x)) + RenderAll(ItemNodes(b));
    }
  }

  /** One step of the alternation layer: the piece before the first lone
      `/`, the slash, the alternatives after it. */
  lemma RenderAlternativesStep(run: seq<Item>, k: nat)
    requires k == FirstSingle(run, Alternation) && k < |run|
    ensures RenderJoined(Alternatives(run)) ==
              RenderAll(ItemNodes(run[..k])) + "/" + RenderJoined(Alternatives(run[k + 1..]))
  {
    AlternativesUnfold(run, k);
    RenderJoinedCons(run[..k], Alternatives(run[k + 1..]));
  }

  lemma AlternativesUnfold(run: seq<Item>, k: nat)
    requires k == FirstSingle(run, Alternation) && k < |run|
    ensures Alternatives(run) == [AlternativeNode(ItemNodes(run[..k]))] + Alternatives(run[k + 1..])
  {
  }

  lemma RenderJoinedCons(first: seq<Item>, rest: seq<AstNode>)
    requires rest != []
    ensures RenderJoined([AlternativeNode(ItemNodes(first))] + rest) ==
              RenderAll(ItemNodes(first)) + "/" + RenderJoined(rest)
  {
    var head := AlternativeNode(ItemNodes(first));
    assert ([head] + rest)[0] == head && ([head] + rest)[1..] == rest;
  }

  lemma SlashItem(it: Item)
    requires IsSingleOf(it, Alternation) && ValidToken(it.token)
    ensures Render(ItemNode(it)) == "/"
  {
    StructuralText(it.token);
  }

  lemma {:induction false} RenderAlternatives(run: seq<Item>)
    requires ValidSingles(run)
    ensures RenderJoined(Alternatives(run)) == RenderAll(ItemNodes(run))
    decreases |run|
  {
    var k := FirstSingle(run, Alternation);
    if k < |run| {
      var first, rest := run[..k], run[k + 1..];
      calc {
        RenderJoined(Alternatives(run));
        { RenderAlternativesStep(run, k); }
        RenderAll(ItemNodes(first)) + "/" + RenderJoined(Alternatives(rest));
        { ValidSinglesSlice(run, k + 1, |run|); RenderAlternatives(rest); }
        RenderAll(ItemNodes(first)) + "/" + RenderAll(ItemNodes(rest));
        { assert ValidToken(run[k].token); SlashItem(run[k]); }
        RenderAll(ItemNodes(first)) + Render(ItemNode(run[k])) + RenderAll(ItemNodes(rest));
        { RenderItemsSplit(run, k); }
        RenderAll(ItemNodes(run));
      }
    }
  }

  lemma RenderRunNodes(run: seq<Item>)
    requires ValidSingles(run)
    ensures RenderAll(RunNodes(run)) == RenderAll(ItemNodes(run))
  {
    if FirstSingle(run, Alternation) < |run| {
      var alts := Alternatives(run);
      calc {
        RenderAll(RunNodes(run));
        RenderAll([AlternationNode(alts)]);
        { RenderAllOne(AlternationNode(alts)); }
        RenderJoined(alts);
        { RenderAlternatives(run); }
        RenderAll(ItemNodes(run));
      }
    }
  }

  /** The run layer keeps the items' text, spaces included, in order. */
  lemma {:induction false} RenderBuildSequence(items: seq<Item>)
    requires ValidSingles(items)
    ensures RenderAll(BuildSequence(items)) == RenderAll(ItemNodes(items))
    decreases |items|
  {
    var k := FirstSingle(items, WhiteSpace);
    if k == |items| {
      RenderRunNodes(items);
    } else {
      var run, rest := items[..k], items[k + 1..];
      calc {
        RenderAll(BuildSequence(items));
        { RenderBuildStep(items, k); }
        RenderAll(RunNodes(run)) + Render(ItemNode(items[k])) + RenderAll(BuildSequence(rest));
        { ValidSinglesSlice(items, 0, k); RenderRunNodes(run); }
        RenderAll(ItemNodes(run)) + Render(ItemNode(items[k])) + RenderAll(BuildSequence(rest));
        { ValidSinglesSlice(items, k + 1, |items|); RenderBuildSequence(rest); }
        RenderAll(ItemNodes(run)) + Render(ItemNode(items[k])) + RenderAll(ItemNodes(rest));
        { RenderItemsSplit(items, k); }
        RenderAll(ItemNodes(items));
      }
    }
  }

  /** One step of the run layer: a run, the space after it, the rest. */
  lemma RenderBuildStep(items: seq<Item>, k: nat)
    requires k == FirstSingle(items, WhiteSpace) && k < |items|
    ensures RenderAll(BuildSequence(items)) ==
              RenderAll(RunNodes(items[..k])) + Render(ItemNode(items[k])) + RenderAll(BuildSequence(items[k + 1..]))
  {
    var run, n, rest := RunNodes(items[..k]), TextNode(items[k].token), BuildSequence(items[k + 1..]);
    calc {
      RenderAll(BuildSequence(items));
      { BuildSequenceUnfold(items, k); }
      RenderAll(run + [n] + rest);
      { RenderAllAround(run, n, rest); }
      RenderAll(run) + Render(n) + RenderAll(rest);
      { assert ItemNode(items[k]) == n; }
      RenderAll(run) + Render(ItemNode(items[k])) + RenderAll(rest);
    }
  }

  lemma BuildSequenceUnfold(items: seq<Item>, k: nat)
    requires k == FirstSingle(items, WhiteSpace) && k < |items|
    ensures BuildSequence(items) == RunNodes(items[..k]) + [TextNode(items[k].token)] + BuildSequence(items[k + 1..])
  {
  }

  lemma RenderAllAround(a: seq<AstNode>, n: AstNode, b: seq<AstNode>)
    ensures RenderAll(a + [n] + b) == RenderAll(a) + Render(n) + RenderAll(b)
  {
    RenderAllAppend(a + [n], b);
    RenderAllAppend(a, [n]);
    assert RenderAll([n]) == Render(n);
  }

  /** The parse tree of a token sequence spells its tokens, escapes resolved. */
  lemma RenderParseTokens(ts: seq<Token>)
    requires ValidTokens(ts)
    ensures Render(ParseTokens(ts)) == UnescapedText(ts)
  {
    var items := ParseItems(ts);
    ParseItemsSingles(ts);
    assert ValidSingles(items);
    RenderBuildSequence(items);
    RenderParseItems(ts);
  }

  /** The parse tree of an expression spells the expression with every
      escaping backslash removed: no character is lost, added or moved. */
  lemma RenderParse(s: string)
    requires Escapable(s)
    ensures Render(Parse(s)) == Unescaped(s)
  {
    RenderParseTokens(Tokenize(s));
    UnescapedTokenize(s);
  }

  // ---------------------------------------------------------------------------
  // The layers on inputs of a known shape.

  /** Tokens that no group claims, each an item of its own. */
  function Singles(ts: seq<Token>): (items: seq<Item>)
    ensures |items| == |ts|
    ensures forall i :: 0 <= i < |ts| ==> items[i] == Single(ts[i])
  {
    seq(|ts|, i requires 0 <= i < |ts| => Single(ts[i]))
  }

  /** No token that could open a group. */
  predicate NoGroupStart(ts: seq<Token>) {
    forall i :: 0 <= i < |ts| ==> ts[i].kind != BeginOptional && ts[i].kind != BeginParameter
  }

  /** A token that cannot open a group stays a lone token. */
  lemma ItemsSingle(t: Token, rest: seq<Token>)
    requires t.kind != BeginOptional && t.kind != BeginParameter
    ensures ParseItems([t] + rest) == [Single(t)] + ParseItems(rest)
  {
    assert ([t] + rest)[1..] == rest;
  }

  lemma SinglesCons(a: seq<Token>)
    requires a != []
    ensures Singles(a) == [Single(a[0])] + Singles(a[1..])
  {
  }

  /** A stretch without `(` or `{` passes through the item layer unchanged. */
  lemma {:induction false} ItemsPlain(a: seq<Token>, rest: seq<Token>)
    requires NoGroupStart(a)
    ensures ParseItems(a + rest) == Singles(a) + ParseItems(rest)
  {
    if a == [] {
      assert a + rest == rest;
    } else {
      calc {
        ParseItems(a + rest);
        { assert a + rest == [a[0]] + (a[1..] + rest); }
        ParseItems([a[0]] + (a[1..] + rest));
        { ItemsSingle(a[0], a[1..] + rest); }
        [Single(a[0])] + ParseItems(a[1..] + rest);
        { ItemsPlain(a[1..], rest); }
        [Single(a[0])] + (Singles(a[1..]) + ParseItems(rest));
        { SinglesCons(a); }
        Singles(a) + ParseItems(rest);
      }
    }
  }

  lemma ItemsFlat(a: seq<Token>)
    requires NoGroupStart(a)
    ensures ParseItems(a) == Singles(a)
  {
    ItemsPlain(a, []);
    assert a + [] == a;
    assert Singles(a) + [] == Singles(a);
  }

  lemma Regroup<T>(a: seq<T>, b: seq<T>, c: seq<T>)
    ensures a + b + c == a + (b + c)
  {
  }

  /** `(` closes at the first `)` after it, whatever lies between, and what
      lies between becomes the optional's text. */
  lemma ItemsOptional(open: Token, mid: seq<Token>, close: Token, rest: seq<Token>)
    requires open.kind == BeginOptional && close.kind == EndOptional && NoneOfKind(mid, EndOptional)
    ensures ParseItems([open] + mid + [close] + rest) == [Group(OptionalNode(Texts(mid)))] + ParseItems(rest)
  {
    var ts, n := [open] + mid + [close] + rest, |mid| + 2;
    assert ts[n - 1] == close;
    assert ts[1..n - 1] == mid;
    assert ts[n..] == rest;
    assert ts[1..][n - 2] == close;
    assert forall k :: 1 <= k < n - 1 ==> ts[k] == mid[k - 1];
    FindFromFirst(ts, EndOptional, 1, n - 1);
    assert ParseOptional(ts) == Matched(OptionalNode(Texts(mid)), n);
    assert NextItem(ts) == (Group(OptionalNode(Texts(mid))), n);
  }

  /** A `(` with no `)` anywhere after it is a lone token. */
  lemma ItemsUnclosedOptional(t: Token, rest: seq<Token>)
    requires t.kind == BeginOptional && NoneOfKind(rest, EndOptional)
    ensures ParseItems([t] + rest) == [Single(t)] + ParseItems(rest)
  {
    assert ([t] + rest)[1..] == rest;
  }

  lemma ItemsParameter(open: Token, name: Token, close: Token, rest: seq<Token>)
    requires open.kind == BeginParameter && name.kind == Text && close.kind == EndParameter
    ensures ParseItems([open, name, close] + rest) == [Group(ParameterNode([TextNode(name)]))] + ParseItems(rest)
  {
    assert ([open, name, close] + rest)[3..] == rest;
  }

  lemma ItemsAnonymousParameter(open: Token, close: Token, rest: seq<Token>)
    requires open.kind == BeginParameter && close.kind == EndParameter
    ensures ParseItems([open, close] + rest) == [Group(ParameterNode([]))] + ParseItems(rest)
  {
    assert ([open, close] + rest)[2..] == rest;
  }

  /** A `{` with no `}` anywhere after it is a lone token. */
  lemma ItemsUnclosedParameter(t: Token, rest: seq<Token>)
    requires t.kind == BeginParameter && NoneOfKind(rest, EndParameter)
    ensures ParseItems([t] + rest) == [Single(t)] + ParseItems(rest)
  {
    assert ([t] + rest)[1..] == rest;
  }

  /** No lone token of `kind` among the items. */
  predicate NoSingle(items: seq<Item>, kind: TokenType) {
    forall i :: 0 <= i < |items| ==> !IsSingleOf(items[i], kind)
  }

  lemma FirstSingleAt(a: seq<Item>, it: Item, b: seq<Item>, kind: TokenType)
    requires NoSingle(a, kind) && IsSingleOf(it, kind)
    ensures FirstSingle(a + [it] + b, kind) == |a|
  {
    var items := a + [it] + b;
    assert items[|a|] == it;
    assert forall j :: 0 <= j < |a| ==> items[j] == a[j];
  }

  /** Items without a lone space form one run. */
  lemma SequenceRun(run: seq<Item>)
    requires NoSingle(run, WhiteSpace)
    ensures BuildSequence(run) == RunNodes(run)
  {
  }

  /** The first lone space ends the first run and stays in the tree as text. */
  lemma SequenceSplit(run: seq<Item>, ws: Token, rest: seq<Item>)
    requires NoSingle(run, WhiteSpace) && ws.kind == WhiteSpace
    ensures BuildSequence(run + [Single(ws)] + rest) == RunNodes(run) + [TextNode(ws)] + BuildSequence(rest)
  {
    var items := run + [Single(ws)] + rest;
    FirstSingleAt(run, Single(ws), rest, WhiteSpace);
    assert items[..|run|] == run && items[|run| + 1..] == rest && items[|run|] == Single(ws);
  }

  /** A run without a lone `/` is its items side by side. */
  lemma RunPlain(run: seq<Item>)
    requires NoSingle(run, Alternation)
    ensures RunNodes(run) == ItemNodes(run)
  {
  }

  /** A run with a lone `/` is one alternation; the first alternative is
      everything before the first such `/`. */
  lemma RunAlternation(a: seq<Item>, slash: Token, b: seq<Item>)
    requires NoSingle(a, Alternation) && slash.kind == Alternation
    ensures RunNodes(a + [Single(slash)] + b) == [AlternationNode([AlternativeNode(ItemNodes(a))] + Alternatives(b))]
  {
    var run := a + [Single(slash)] + b;
    FirstSingleAt(a, Single(slash), b, Alternation);
    assert run[..|a|] == a && run[|a| + 1..] == b;
  }

  lemma AlternativesLast(run: seq<Item>)
    requires NoSingle(run, Alternation)
    ensures Alternatives(run) == [AlternativeNode(ItemNodes(run))]
  {
  }

  lemma AlternativesSplit(a: seq<Item>, slash: Token, b: seq<Item>)
    requires NoSingle(a, Alternation) && slash.kind == Alternation
    ensures Alternatives(a + [Single(slash)] + b) == [AlternativeNode(ItemNodes(a))] + Alternatives(b)
  {
    var run := a + [Single(slash)] + b;
    FirstSingleAt(a, Single(slash), b, Alternation);
    assert run[..|a|] == a && run[|a| + 1..] == b;
  }

  lemma ItemNodesAround(a: seq<Item>, it: Item, b: seq<Item>)
    ensures ItemNodes(a + [it] + b) == ItemNodes(a) + [ItemNode(it)] + ItemNodes(b)
  {
  }

  /** Without a lone `/`, the run and alternation layers leave the items side
      by side, the lone spaces among them as text. */
  lemma {:induction false} SequencePlain(items: seq<Item>)
    requires NoSingle(items, Alternation)
    ensures BuildSequence(items) == ItemNodes(items)
    decreases |items|
  {
    var k := FirstSingle(items, WhiteSpace);
    if k == |items| {
      SequenceRun(items);
      RunPlain(items);
    } else {
      var a, ws, b := items[..k], items[k].token, items[k + 1..];
      assert items == a + [Single(ws)] + b;
      calc {
        BuildSequence(items);
        { SequenceSplit(a, ws, b); }
        RunNodes(a) + [TextNode(ws)] + BuildSequence(b);
        { RunPlain(a); SequencePlain(b); }
        ItemNodes(a) + [TextNode(ws)] + ItemNodes(b);
        { ItemNodesAround(a, Single(ws), b); }
        ItemNodes(items);
      }
    }
  }

  /** When the item layer leaves every token on its own and none is a `/`,
      the tree is the tokens themselves, each a text node, escapes resolved. */
  lemma PlainItemsParse(ts: seq<Token>)
    requires ParseItems(ts) == Singles(ts) && NoneOfKind(ts, Alternation)
    ensures ParseTokens(ts) == ExpressionNode(Texts(ts))
  {
    NoSingleSingles(ts, Alternation);
    SequencePlain(Singles(ts));
    ItemNodesSingles(ts);
  }

  /** Without `(`, `{` or an unescaped `/`, the tree is the tokens themselves. */
  lemma FlatParse(ts: seq<Token>)
    requires NoGroupStart(ts) && NoneOfKind(ts, Alternation)
    ensures ParseTokens(ts) == ExpressionNode(Texts(ts))
  {
    ItemsFlat(ts);
    PlainItemsParse(ts);
  }

  /** Without an unescaped `/` anywhere, the tree holds no alternation: the
      expression's children are the items' nodes, groups included. */
  lemma NoSlashNoAlternation(ts: seq<Token>)
    requires NoneOfKind(ts, Alternation)
    ensures ParseTokens(ts).children == ItemNodes(ParseItems(ts))
    ensures forall i :: 0 <= i < |ParseTokens(ts).children| ==> !ParseTokens(ts).children[i].AlternationNode?
  {
    var items := ParseItems(ts);
    ParseItemsSingles(ts);
    forall i | 0 <= i < |items| ensures !IsSingleOf(items[i], Alternation) {
      if items[i].Single? {
        assert items[i].token in ts;
      }
    }
    SequencePlain(items);
  }


  lemma NoSingleAround(a: seq<Item>, it: Item, b: seq<Item>, kind: TokenType)
    requires NoSingle(a, kind) && !IsSingleOf(it, kind) && NoSingle(b, kind)
    ensures NoSingle(a + [it] + b, kind)
  {
    var r := a + [it] + b;
    forall i | 0 <= i < |r| ensures !IsSingleOf(r[i], kind) {
      if i < |a| {
        assert r[i] == a[i];
      } else if i > |a| {
        var j := i - |a| - 1;
        assert r[i] == b[j];
      }
    }
  }

  lemma NoSingleSingles(ts: seq<Token>, kind: TokenType)
    requires NoneOfKind(ts, kind)
    ensures NoSingle(Singles(ts), kind)
  {
  }

  lemma ItemNodesSingles(ts: seq<Token>)
    ensures ItemNodes(Singles(ts)) == Texts(ts)
  {
  }

  /** A run holding exactly one lone `/` is an alternation of two alternatives. */
  lemma RunTwo(a: seq<Item>, slash: Token, b: seq<Item>)
    requires NoSingle(a, Alternation) && NoSingle(b, Alternation) && slash.kind == Alternation
    ensures RunNodes(a + [Single(slash)] + b) ==
              [AlternationNode([AlternativeNode(ItemNodes(a)), AlternativeNode(ItemNodes(b))])]
  {
    RunAlternation(a, slash, b);
    AlternativesLast(b);
    assert [AlternativeNode(ItemNodes(a))] + [AlternativeNode(ItemNodes(b))] ==
      [AlternativeNode(ItemNodes(a)), AlternativeNode(ItemNodes(b))];
  }

  /** One run and its closing lone space, ahead of items already known to
      come out side by side. */
  lemma SequencePrefixStep(a: seq<Item>, ws: Token, b: seq<Item>, rest: seq<Item>)
    requires NoSingle(a, WhiteSpace) && NoSingle(a, Alternation) && ws.kind == WhiteSpace
    requires BuildSequence(b + rest) == ItemNodes(b) + BuildSequence(rest)
    ensures BuildSequence(a + [Single(ws)] + b + rest) == ItemNodes(a + [Single(ws)] + b) + BuildSequence(rest)
  {
    calc {
      BuildSequence(a + [Single(ws)] + b + rest);
      { Regroup(a + [Single(ws)], b, rest); }
      BuildSequence(a + [Single(ws)] + (b + rest));
      { SequenceSplit(a, ws, b + rest); }
      RunNodes(a) + [TextNode(ws)] + BuildSequence(b + rest);
      { RunPlain(a); }
      ItemNodes(a) + [TextNode(ws)] + (ItemNodes(b) + BuildSequence(rest));
      { Regroup(ItemNodes(a) + [TextNode(ws)], ItemNodes(b), BuildSequence(rest)); }
      (ItemNodes(a) + [TextNode(ws)] + ItemNodes(b)) + BuildSequence(rest);
      { ItemNodesAround(a, Single(ws), b); assert ItemNode(Single(ws)) == TextNode(ws); }
      ItemNodes(a + [Single(ws)] + b) + BuildSequence(rest);
    }
  }

  /** Items that end in a lone space and hold no lone `/` come out side by
      side, ahead of whatever the rest becomes. */
  lemma {:induction false} SequencePrefix(pre: seq<Item>, rest: seq<Item>)
    requires NoSingle(pre, Alternation)
    requires pre != [] ==> IsSingleOf(pre[|pre| - 1], WhiteSpace)
    ensures BuildSequence(pre + rest) == ItemNodes(pre) + BuildSequence(rest)
    decreases |pre|
  {
    if pre == [] {
      assert pre + rest == rest;
    } else {
      var k := FirstSingle(pre, WhiteSpace);
      var a, ws, b := pre[..k], pre[k].token, pre[k + 1..];
      assert pre == a + [Single(ws)] + b;
      assert b != [] ==> b[|b| - 1] == pre[|pre| - 1];
      SequencePrefix(b, rest);
      SequencePrefixStep(a, ws, b, rest);
    }
  }

  lemma ItemNodesCons(it: Item, b: seq<Item>)
    ensures ItemNodes([it] + b) == [ItemNode(it)] + ItemNodes(b)
  {
  }

  /** A run without lone spaces, then items that start with a lone space and
      hold no lone `/`: the run's nodes, then those items side by side. */
  lemma SequenceSuffix(run: seq<Item>, post: seq<Item>)
    requires NoSingle(run, WhiteSpace) && NoSingle(post, Alternation)
    requires post != [] ==> IsSingleOf(post[0], WhiteSpace)
    ensures BuildSequence(run + post) == RunNodes(run) + ItemNodes(post)
  {
    if post == [] {
      assert run + post == run;
      SequenceRun(run);
    } else {
      var ws, b := post[0].token, post[1..];
      assert post == [Single(ws)] + b;
      calc {
        BuildSequence(run + post);
        { assert run + post == run + [Single(ws)] + b; }
        BuildSequence(run + [Single(ws)] + b);
        { SequenceSplit(run, ws, b); }
        RunNodes(run) + [TextNode(ws)] + BuildSequence(b);
        { SequencePlain(b); }
        RunNodes(run) + ([TextNode(ws)] + ItemNodes(b));
        { ItemNodesCons(Single(ws), b); }
        RunNodes(run) + ItemNodes(post);
      }
    }
  }

  /** A run with no lone space, between a stretch of plain items that ends
      in a lone space and one that starts with a lone space. */
  lemma SequenceAround(pre: seq<Item>, run: seq<Item>, post: seq<Item>)
    requires NoSingle(pre, Alternation) && NoSingle(post, Alternation) && NoSingle(run, WhiteSpace)
    requires pre != [] ==> IsSingleOf(pre[|pre| - 1], WhiteSpace)
    requires post != [] ==> IsSingleOf(post[0], WhiteSpace)
    ensures BuildSequence(pre + (run + post)) == ItemNodes(pre) + RunNodes(run) + ItemNodes(post)
  {
    calc {
      BuildSequence(pre + (run + post));
      { SequencePrefix(pre, run + post); }
      ItemNodes(pre) + BuildSequence(run + post);
      { SequenceSuffix(run, post); }
      ItemNodes(pre) + (RunNodes(run) + ItemNodes(post));
      ItemNodes(pre) + RunNodes(run) + ItemNodes(post);
    }
  }

  lemma RegroupAround(pre: seq<Item>, a: seq<Item>, it: Item, b: seq<Item>, post: seq<Item>)
    ensures pre + a + [it] + b + post == pre + ((a + [it] + b) + post)
  {
  }

  /** One alternation between two stretches of plain items: the stretch in
      front ends in a lone space, the one behind starts with one. */
  lemma AlternationRun(pre: seq<Item>, a: seq<Item>, slash: Token, b: seq<Item>, post: seq<Item>)
    requires slash.kind == Alternation
    requires NoSingle(pre, Alternation) && NoSingle(post, Alternation)
    requires NoSingle(a, Alternation) && NoSingle(b, Alternation)
    requires NoSingle(a, WhiteSpace) && NoSingle(b, WhiteSpace)
    requires pre != [] ==> IsSingleOf(pre[|pre| - 1], WhiteSpace)
    requires post != [] ==> IsSingleOf(post[0], WhiteSpace)
    ensures BuildSequence(pre + a + [Single(slash)] + b + post) ==
              ItemNodes(pre) +
              [AlternationNode([AlternativeNode(ItemNodes(a)), AlternativeNode(ItemNodes(b))])] +
              ItemNodes(post)
  {
    var run := a + [Single(slash)] + b;
    NoSingleAround(a, Single(slash), b, WhiteSpace);
    RegroupAround(pre, a, Single(slash), b, post);
    calc {
      BuildSequence(pre + (run + post));
      { SequenceAround(pre, run, post); }
      ItemNodes(pre) + RunNodes(run) + ItemNodes(post);
      { RunTwo(a, slash, b); }
      ItemNodes(pre) + [AlternationNode([AlternativeNode(ItemNodes(a)), AlternativeNode(ItemNodes(b))])] +
      ItemNodes(post);
    }
  }


  /** One group among tokens the item layer leaves alone, with no `/`
      among them: the tree is those tokens as text around the group. */
  lemma GroupAmongText(pre: seq<Token>, g: AstNode, post: seq<Token>)
    requires NoneOfKind(pre, Alternation) && NoneOfKind(post, Alternation)
    ensures BuildSequence(Singles(pre) + [Group(g)] + Singles(post)) == Texts(pre) + [g] + Texts(post)
  {
    NoSingleSingles(pre, Alternation);
    NoSingleSingles(post, Alternation);
    NoSingleAround(Singles(pre), Group(g), Singles(post), Alternation);
    SequencePlain(Singles(pre) + [Group(g)] + Singles(post));
    ItemNodesAround(Singles(pre), Group(g), Singles(post));
    ItemNodesSingles(pre);
    ItemNodesSingles(post);
  }

  /** A group between two stretches of plain tokens: the stretches stay lone
      tokens on either side of it. */
  lemma ItemsAmongText(pre: seq<Token>, group: seq<Token>, g: AstNode, post: seq<Token>)
    requires NoGroupStart(pre) && NoGroupStart(post)
    requires ParseItems(group + post) == [Group(g)] + ParseItems(post)
    ensures ParseItems(pre + group + post) == Singles(pre) + [Group(g)] + Singles(post)
  {
    calc {
      ParseItems(pre + group + post);
      { Regroup(pre, group, post); }
      ParseItems(pre + (group + post));
      { ItemsPlain(pre, group + post); }
      Singles(pre) + ([Group(g)] + ParseItems(post));
      { ItemsFlat(post); }
      Singles(pre) + [Group(g)] + Singles(post);
    }
  }

  /** A group among text that holds no lone `/` parses to the group among
      text nodes. */
  lemma GroupParse(pre: seq<Token>, group: seq<Token>, g: AstNode, post: seq<Token>)
    requires NoGroupStart(pre) && NoGroupStart(post)
    requires NoneOfKind(pre, Alternation) && NoneOfKind(post, Alternation)
    requires ParseItems(group + post) == [Group(g)] + ParseItems(post)
    ensures ParseTokens(pre + group + post) == ExpressionNode(Texts(pre) + [g] + Texts(post))
  {
    ItemsAmongText(pre, group, g, post);
    GroupAmongText(pre, g, post);
  }

  /** An optional among text that opens no other group: the tokens between
      `(` and the nearest `)` become the optional's text, the rest stays
      text around it. */
  lemma OptionalAmongText(pre: seq<Token>, open: Token, mid: seq<Token>, close: Token, post: seq<Token>)
    requires NoGroupStart(pre) && NoGroupStart(post)
    requires NoneOfKind(pre, Alternation) && NoneOfKind(post, Alternation)
    requires open.kind == BeginOptional && close.kind == EndOptional && NoneOfKind(mid, EndOptional)
    ensures ParseTokens(pre + [open] + mid + [close] + post) ==
              ExpressionNode(Texts(pre) + [OptionalNode(Texts(mid))] + Texts(post))
  {
    var group := [open] + mid + [close];
    assert pre + [open] + mid + [close] + post == pre + group + post;
    ItemsOptional(open, mid, close, post);
    GroupParse(pre, group, OptionalNode(Texts(mid)), post);
  }

  /** A parameter with a name among text that opens no other group. */
  lemma ParameterAmongText(pre: seq<Token>, open: Token, name: Token, close: Token, post: seq<Token>)
    requires NoGroupStart(pre) && NoGroupStart(post)
    requires NoneOfKind(pre, Alternation) && NoneOfKind(post, Alternation)
    requires open.kind == BeginParameter && name.kind == Text && close.kind == EndParameter
    ensures ParseTokens(pre + [open, name, close] + post) ==
              ExpressionNode(Texts(pre) + [ParameterNode([TextNode(name)])] + Texts(post))
  {
    ItemsParameter(open, name, close, post);
    GroupParse(pre, [open, name, close], ParameterNode([TextNode(name)]), post);
  }

  /** An anonymous parameter among text that opens no other group. */
  lemma AnonymousParameterAmongText(pre: seq<Token>, open: Token, close: Token, post: seq<Token>)
    requires NoGroupStart(pre) && NoGroupStart(post)
    requires NoneOfKind(pre, Alternation) && NoneOfKind(post, Alternation)
    requires open.kind == BeginParameter && close.kind == EndParameter
    ensures ParseTokens(pre + [open, close] + post) ==
              ExpressionNode(Texts(pre) + [ParameterNode([])] + Texts(post))
  {
    ItemsAnonymousParameter(open, close, post);
    GroupParse(pre, [open, close], ParameterNode([]), post);
  }

  /** A `(` or `{` at the very end is a lone token, like any token no group
      takes. */
  lemma ItemsUnclosedAtEnd(pre: seq<Token>, t: Token)
    requires NoGroupStart(pre)
    requires t.kind == BeginOptional || t.kind == BeginParameter
    ensures ParseItems(pre + [t]) == Singles(pre + [t])
  {
    ItemsPlain(pre, [t]);
    if t.kind == BeginOptional {
      ItemsUnclosedOptional(t, []);
    } else {
      ItemsUnclosedParameter(t, []);
    }
    assert [t] + [] == [t];
    SinglesAppend(pre, [t]);
  }


  lemma SinglesAppend(x: seq<Token>, y: seq<Token>)
    ensures Singles(x + y) == Singles(x) + Singles(y)
  {
  }

  lemma NoGroupStartAppend(x: seq<Token>, y: seq<Token>)
    requires NoGroupStart(x) && NoGroupStart(y)
    ensures NoGroupStart(x + y)
  {
    forall i | 0 <= i < |x + y| ensures (x + y)[i].kind != BeginOptional && (x + y)[i].kind != BeginParameter {
      if i >= |x| {
        assert (x + y)[i] == y[i - |x|];
      }
    }
  }

  /** Lone tokens around one more lone token, piece by piece. */
  lemma SinglesAround(pre: seq<Token>, a: seq<Token>, slash: Token, b: seq<Token>, post: seq<Token>)
    ensures Singles(pre + a + [slash] + b + post) ==
              Singles(pre) + Singles(a) + [Single(slash)] + Singles(b) + Singles(post)
  {
    calc {
      Singles(pre + a + [slash] + b + post);
      { SinglesAppend(pre + a + [slash] + b, post); SinglesAppend(pre + a + [slash], b);
        SinglesAppend(pre + a, [slash]); SinglesAppend(pre, a); }
      Singles(pre) + Singles(a) + Singles([slash]) + Singles(b) + Singles(post);
      { assert Singles([slash]) == [Single(slash)]; }
      Singles(pre) + Singles(a) + [Single(slash)] + Singles(b) + Singles(post);
    }
  }

  /** An item sequence with one lone `/` between two whitespace-free runs
      parses to one alternation among the surrounding items. */
  lemma AlternationOfItems(ts: seq<Token>, pre: seq<Item>, a: seq<Item>, slash: Token, b: seq<Item>,
                           post: seq<Item>)
    requires ParseItems(ts) == pre + a + [Single(slash)] + b + post
    requires slash.kind == Alternation
    requires NoSingle(pre, Alternation) && NoSingle(post, Alternation)
    requires NoSingle(a, Alternation) && NoSingle(b, Alternation)
    requires NoSingle(a, WhiteSpace) && NoSingle(b, WhiteSpace)
    requires pre != [] ==> IsSingleOf(pre[|pre| - 1], WhiteSpace)
    requires post != [] ==> IsSingleOf(post[0], WhiteSpace)
    ensures ParseTokens(ts) ==
              ExpressionNode(ItemNodes(pre) +
                             [AlternationNode([AlternativeNode(ItemNodes(a)), AlternativeNode(ItemNodes(b))])] +
                             ItemNodes(post))
  {
    AlternationRun(pre, a, slash, b, post);
  }

  /** One alternation of two plain alternatives among text that the item
      layer leaves token by token: the text in front ends in a space, the
      text behind starts with one, and neither holds a `/`. */
  lemma AlternationOfSingles(pre: seq<Token>, a: seq<Token>, slash: Token, b: seq<Token>, post: seq<Token>)
    requires ParseItems(pre + a + [slash] + b + post) == Singles(pre + a + [slash] + b + post)
    requires slash.kind == Alternation
    requires NoneOfKind(pre, Alternation) && NoneOfKind(a, Alternation)
    requires NoneOfKind(b, Alternation) && NoneOfKind(post, Alternation)
    requires NoneOfKind(a, WhiteSpace) && NoneOfKind(b, WhiteSpace)
    requires pre != [] ==> pre[|pre| - 1].kind == WhiteSpace
    requires post != [] ==> post[0].kind == WhiteSpace
    ensures ParseTokens(pre + a + [slash] + b + post) ==
              ExpressionNode(Texts(pre) + [AlternationNode([AlternativeNode(Texts(a)),
                                                            AlternativeNode(Texts(b))])] + Texts(post))
  {
    SinglesAround(pre, a, slash, b, post);
    NoSingleSingles(pre, Alternation);
    NoSingleSingles(a, Alternation);
    NoSingleSingles(b, Alternation);
    NoSingleSingles(post, Alternation);
    NoSingleSingles(a, WhiteSpace);
    NoSingleSingles(b, WhiteSpace);
    AlternationRun(Singles(pre), Singles(a), slash, Singles(b), Singles(post));
    ItemNodesSingles(pre);
    ItemNodesSingles(a);
    ItemNodesSingles(b);
    ItemNodesSingles(post);
  }

  /** The same among text that opens no group. */
  lemma AlternationAmongText(pre: seq<Token>, a: seq<Token>, slash: Token, b: seq<Token>, post: seq<Token>)
    requires NoGroupStart(pre) && NoGroupStart(a) && NoGroupStart(b) && NoGroupStart(post)
    requires slash.kind == Alternation
    requires NoneOfKind(pre, Alternation) && NoneOfKind(a, Alternation)
    requires NoneOfKind(b, Alternation) && NoneOfKind(post, Alternation)
    requires NoneOfKind(a, WhiteSpace) && NoneOfKind(b, WhiteSpace)
    requires pre != [] ==> pre[|pre| - 1].kind == WhiteSpace
    requires post != [] ==> post[0].kind == WhiteSpace
    ensures ParseTokens(pre + a + [slash] + b + post) ==
              ExpressionNode(Texts(pre) + [AlternationNode([AlternativeNode(Texts(a)),
                                                            AlternativeNode(Texts(b))])] + Texts(post))
  {
    var ts := pre + a + [slash] + b + post;
    NoGroupStartAppend(pre, a);
    NoGroupStartAppend(pre + a, [slash]);
    NoGroupStartAppend(pre + a + [slash], b);
    NoGroupStartAppend(pre + a + [slash] + b, post);
    ItemsFlat(ts);
    AlternationOfSingles(pre, a, slash, b, post);
  }

}
