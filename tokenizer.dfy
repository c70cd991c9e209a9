/**
 The Cucumber Expression tokenizer: one left-to-right pass over the
 expression with one character of lookahead.
 */
module Tokenizer {
  import opened Ast

  /** Every backslash is either the last character or escapes one of the six
      special characters. A backslash before any other character is outside
      this model. */
  predicate Escapable(s: string) {
    forall i :: 0 <= i < |s| - 1 && s[i] == '\\' ==> IsSpecial(s[i + 1])
  }

  /** The sequences the tokenizer produces: every token well formed, no TEXT
      token directly after another (runs are maximal), and a lone backslash
      only as the very last token. */
  predicate Canonical(ts: seq<Token>) {
    && ValidTokens(ts)
    && (forall i :: 0 <= i < |ts| - 1 ==> !(ts[i].kind == Text && ts[i + 1].kind == Text))
    && (forall i :: 0 <= i < |ts| - 1 ==> ts[i].kind != Escape)
  }

  /** The length of the run of ordinary characters at the start of `s`. */
  function TextRunLength(s: string): (n: nat)
    ensures n <= |s|
    ensures forall i :: 0 <= i < n ==> IsOrdinary(s[i])
    ensures n == |s| || !IsOrdinary(s[n])
  {
    if s == [] || !IsOrdinary(s[0]) then 0 else 1 + TextRunLength(s[1..])
  }

  lemma EscapableSuffix(s: string, k: nat)
    requires Escapable(s) && k <= |s|
    ensures Escapable(s[k..])
  {
    forall i | 0 <= i < |s[k..]| - 1 && s[k..][i] == '\\'
      ensures IsSpecial(s[k..][i + 1])
    {
      assert s[k + i] == '\\';
    }
  }

  /** Splits an expression into tokens. In priority order at each position:
      a backslash and a special character make one escaped token; a trailing
      backslash makes an ESCAPE token; a special character makes its own
      one-character token; anything else starts a maximal TEXT run. */
  function Tokenize(s: string): (ts: seq<Token>)
    requires Escapable(s)
    ensures Concat(ts) == s
    ensures Canonical(ts)
    decreases |s|
  {
    if s == [] then []
    else if s[0] == '\\' then
      if |s| == 1 then [Token("\\", Escape)]
      else
        EscapableSuffix(s, 2);
        var rest := Tokenize(s[2..]);
        var t := Token(s[..2], EscapedKind(s[1]));
        CanonicalCons(t, rest);
        [t] + rest
    else if IsSpecial(s[0]) then
      EscapableSuffix(s, 1);
      var rest := Tokenize(s[1..]);
      var t := Token([s[0]], SpecialKind(s[0]));
      CanonicalCons(t, rest);
      [t] + rest
    else
      var n := TextRunLength(s);
      EscapableSuffix(s, n);
      var rest := Tokenize(s[n..]);
      var t := Token(s[..n], Text);
      assert rest != [] ==> rest[0].text[0] == s[n];
      CanonicalCons(t, rest);
      [t] + rest
  }

  /** Prepending a well-formed token keeps a sequence canonical when it breaks
      no TEXT run and is not a lone backslash in front of more tokens. */
  lemma CanonicalCons(t: Token, ts: seq<Token>)
    requires Canonical(ts) && ValidToken(t)
    requires ts != [] ==> t.kind != Escape && !(t.kind == Text && ts[0].kind == Text)
    ensures Canonical([t] + ts)
  {
    var r := [t] + ts;
    forall i | 0 <= i < |r| - 1 ensures !(r[i].kind == Text && r[i + 1].kind == Text) && r[i].kind != Escape {
      if i > 0 { assert r[i] == ts[i - 1] && r[i + 1] == ts[i]; }
    }
  }

  /** A valid sequence is canonical when its kinds, listed one by one, never
      put two TEXT tokens side by side nor anything after a lone backslash. */
  lemma CanonicalOfKinds(ts: seq<Token>, ks: seq<TokenType>)
    requires ValidTokens(ts) && |ks| == |ts|
    requires forall i :: 0 <= i < |ts| ==> ts[i].kind == ks[i]
    requires forall i :: 0 <= i < |ks| - 1 ==> ks[i] != Escape && !(ks[i] == Text && ks[i + 1] == Text)
    ensures Canonical(ts)
  {
  }

  lemma CanonicalTail(ts: seq<Token>)
    requires Canonical(ts) && ts != []
    ensures Canonical(ts[1..])
  {
    var r := ts[1..];
    forall i | 0 <= i < |r| - 1 ensures !(r[i].kind == Text && r[i + 1].kind == Text) && r[i].kind != Escape {
      assert r[i] == ts[i + 1] && r[i + 1] == ts[i + 2];
    }
  }

  /** A TEXT token followed by anything that does not continue the run is
      read back as exactly that run. */
  lemma TextRunOfPrefix(t: Token, rest: string)
    requires t.kind == Text && ValidToken(t)
    requires rest != [] ==> !IsOrdinary(rest[0])
    ensures TextRunLength(t.text + rest) == |t.text|
  {
    var s := t.text + rest;
    if rest != [] {
      assert s[|t.text|] == rest[0];
    }
  }

  /** The tokenizer reads a well-formed token off the front of a string and
      carries on with the rest, provided the token is not a lone backslash
      with more to follow and a TEXT token is not followed by more text. */
  lemma TokenizeCons(t: Token, rest: string)
    requires ValidToken(t) && Escapable(rest)
    requires t.kind == Escape ==> rest == []
    requires t.kind == Text && rest != [] ==> !IsOrdinary(rest[0])
    ensures Escapable(t.text + rest)
    ensures Tokenize(t.text + rest) == [t] + Tokenize(rest)
  {
    var s := t.text + rest;
    forall i | 0 <= i < |s| - 1 && s[i] == '\\' ensures IsSpecial(s[i + 1]) {
      if i >= |t.text| {
        assert s[i] == rest[i - |t.text|] && s[i + 1] == rest[i + 1 - |t.text|];
      }
    }
    if t.kind == Text {
      TextRunOfPrefix(t, rest);
      assert s[..|t.text|] == t.text && s[|t.text|..] == rest;
    } else if |t.text| == 1 {
      assert s[1..] == rest;
    } else if |t.text| == 2 {
      assert s[..2] == t.text && s[2..] == rest;
    }
  }

  /** Tokenize is the inverse of Concat on canonical sequences: a canonical
      sequence is the only one that spells its text. */
  lemma {:induction false} TokenizeConcat(ts: seq<Token>)
    requires Canonical(ts)
    ensures Escapable(Concat(ts))
    ensures Tokenize(Concat(ts)) == ts
  {
    if ts != [] {
      var t, rest := ts[0], ts[1..];
      CanonicalTail(ts);
      TokenizeConcat(rest);
      assert ValidToken(t);
      if rest != [] {
        assert ts[1] == rest[0] && ValidToken(rest[0]);
        assert Concat(rest) == rest[0].text + Concat(rest[1..]);
        assert Concat(rest)[0] == rest[0].text[0];
      }
      TokenizeCons(t, Concat(rest));
    }
  }

  /** The expression with every escaping backslash removed; a trailing lone
      backslash stays. Defined on characters, independently of tokens. */
  function Unescaped(s: string): string {
    if s == [] then []
    else if s[0] == '\\' && |s| >= 2 then [s[1]] + Unescaped(s[2..])
    else [s[0]] + Unescaped(s[1..])
  }

  lemma {:induction false} UnescapedOrdinaryPrefix(a: string, b: string)
    requires forall i :: 0 <= i < |a| ==> IsOrdinary(a[i])
    ensures Unescaped(a + b) == a + Unescaped(b)
  {
    if a == [] {
      assert a + b == b;
    } else {
      assert (a + b)[1..] == a[1..] + b;
      UnescapedOrdinaryPrefix(a[1..], b);
    }
  }

  /** Resolving the escapes token by token gives the same text as resolving
      them character by character. */
  lemma {:induction false} UnescapedTokenize(s: string)
    requires Escapable(s)
    ensures UnescapedText(Tokenize(s)) == Unescaped(s)
    decreases |s|
  {
    if s == [] {
    } else if s[0] == '\\' {
      if |s| > 1 {
        EscapableSuffix(s, 2);
        UnescapedTokenize(s[2..]);
        var t := Token(s[..2], EscapedKind(s[1]));
        UnescapedTextCons(t, Tokenize(s[2..]));
        assert ValidToken(t);
      }
    } else if IsSpecial(s[0]) {
      EscapableSuffix(s, 1);
      UnescapedTokenize(s[1..]);
      UnescapedTextCons(Token([s[0]], SpecialKind(s[0])), Tokenize(s[1..]));
    } else {
      var n := TextRunLength(s);
      EscapableSuffix(s, n);
      UnescapedTokenize(s[n..]);
      UnescapedTextCons(Token(s[..n], Text), Tokenize(s[n..]));
      assert s == s[..n] + s[n..];
      UnescapedOrdinaryPrefix(s[..n], s[n..]);
    }
  }
}
