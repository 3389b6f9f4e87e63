/** The forms a token of an ignore line takes, and that there are no others (shared/parseIgnore.ts). */
module TokenForms {
  import opened Options
  import opened TextMatch
  import opened IgnoreParse

  /** White space between tokens says nothing, and a line of it has none. */
  lemma {:induction false} BlanksDrop(blank: string, s: string)
    requires forall c <- blank :: Space(c)
    ensures Tokens(blank + s) == Tokens(s)
    ensures Tokens(blank) == []
  {
    if blank == "" {
      assert blank + s == s;
      NoTokens("");
    } else {
      BlanksDrop(blank[1..], s);
      SpaceDropped(blank + s);
      SpaceDropped(blank);
      assert (blank + s)[1..] == blank[1..] + s;
      hide Tokens;
    }
  }

  /** What stands between two equal quotes, double or single, is one token, empty or not. */
  lemma QuotedToken(q: char, w: string, rest: string)
    requires (q == '\"' || q == '\'') && q !in w
    ensures Tokens([q] + w + [q] + rest) == [w] + Tokens(rest)
  {
    var s := [q] + w + [q] + rest;
    assert s[1..] == w + [q] + rest;
    UpToStop(w, q, rest);
    assert s[1..1 + |w|] == w && s[0..] == s && s[2 + |w|..] == rest;
    FrontIsToken(s);
  }

  lemma {:induction false} UpToEnd(w: string, q: char)
    requires q !in w
    ensures UpTo(w, q) == |w|
  {
    if w != "" {
      assert w[0] in w;
      UpToEnd(w[1..], q);
    }
  }

  /** A quote that is never closed takes the rest of the line. */
  lemma OpenQuote(q: char, w: string)
    requires (q == '\"' || q == '\'') && q !in w
    ensures Tokens([q] + w) == [w]
  {
    var s := [q] + w;
    assert s[1..] == w;
    UpToEnd(w, q);
    assert s[1..1 + |w|] == w && s[0..] == s && s[1 + |w|..] == "";
    FrontIsToken(s);
    NoTokens("");
  }

  lemma {:induction false} WordEnds(w: string, rest: string)
    requires (forall c <- w :: !Space(c)) && (rest == "" || Space(rest[0]))
    ensures WordLength(w + rest) == |w|
    decreases |w|
  {
    if w == "" {
      assert w + rest == rest;
    } else {
      assert w[0] in w && (w + rest)[1..] == w[1..] + rest;
      WordEnds(w[1..], rest);
    }
  }

  /** Anything else runs to the next white space, quotes and parentheses inside it included. */
  lemma WordToken(w: string, rest: string)
    requires w != "" && (forall c <- w :: !Space(c)) && w[0] != '\"' && w[0] != '\'' && w[0] != '('
    requires rest == "" || Space(rest[0])
    ensures Tokens(w + rest) == [w] + Tokens(rest)
  {
    var s := w + rest;
    WordEnds(w, rest);
    assert w[0] in w && s[..|w|] == w && s[|w|..] == rest;
    FrontIsToken(s);
  }

  /** Parentheses opened less those closed, in the first n characters. */
  function Open(g: string, n: nat): int
    requires n <= |g|
  {
    if n == 0 then 0 else Open(g, n - 1) + if g[n - 1] == '(' then 1 else if g[n - 1] == ')' then -1 else 0
  }

  lemma {:induction false} GroupIs(g: string, n: nat, depth: int)
    requires n < |g| && depth == Open(g, n)
    ensures Balanced(g[n..], depth) <==> Open(g, |g|) == 0 && forall k | n < k < |g| :: Open(g, k) != 0
    decreases |g| - n
  {
    var rest := g[n..];
    assert Open(g, n + 1) == Depth(depth, rest[0]);
    if n + 1 < |g| {
      assert rest[1..] == g[n + 1..];
      GroupIs(g, n + 1, Depth(depth, rest[0]));
      assert Balanced(rest, depth) <==> Depth(depth, rest[0]) != 0 && Balanced(g[n + 1..], Depth(depth, rest[0]));
    }
  }

  /** A group from an opening parenthesis to the one that closes it is one token, parentheses included. */
  lemma GroupToken(g: string, rest: string)
    requires g != "" && g[0] == '(' && Open(g, |g|) == 0 && forall k | 0 < k < |g| :: Open(g, k) != 0
    ensures Tokens(g + rest) == [g] + Tokens(rest)
  {
    GroupIs(g, 0, 0);
    assert g[0..] == g;
    GroupIsOneToken(g, rest);
  }

  lemma {:induction false} NeverCloses(g: string, n: nat, depth: int)
    requires n <= |g| && depth == Open(g, n) && forall k | n < k <= |g| :: Open(g, k) != 0
    ensures GroupLength(g[n..], depth) == |g| - n
    decreases |g| - n
  {
    if n < |g| {
      var rest := g[n..];
      assert Open(g, n + 1) == Depth(depth, rest[0]) && rest[1..] == g[n + 1..];
      NeverCloses(g, n + 1, Depth(depth, rest[0]));
    }
  }

  /** A parenthesis that is never closed takes the rest of the line. */
  lemma OpenGroup(g: string)
    requires g != "" && g[0] == '(' && forall k | 0 < k <= |g| :: Open(g, k) != 0
    ensures Tokens(g) == [g]
  {
    NeverCloses(g, 0, 0);
    assert g[0..] == g && g[..|g|] == g && g[|g|..] == "";
    assert !Space('(');
    FrontIsToken(g);
    NoTokens("");
  }
}
