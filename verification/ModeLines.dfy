/** What the packed MODE lines are, in their own text and bytes (shared/channelModes.ts). */
module ModeLines {
  import opened Options
  import opened ChannelModes

  // ----- which letters take a parameter -----

  predicate Has(letters: string, letter: string) {
    exists i, j | 0 <= i <= j <= |letters| :: letters[i..j] == letter
  }

  /** A membership mode, a list mode and an always-parameter mode take one either way, an on-set mode only
      when it is set, and nothing else takes one. */
  lemma TakesParamWhen(spec: ModeSpec, letter: string)
    ensures TakesParam(spec, letter, Plus) <==>
              || (exists p <- spec.prefix :: p.mode == letter)
              || Has(spec.list, letter) || Has(spec.always, letter) || Has(spec.onSet, letter)
    ensures TakesParam(spec, letter, Minus) <==>
              (exists p <- spec.prefix :: p.mode == letter) || Has(spec.list, letter) || Has(spec.always, letter)
  {
    IncludesIsHas(spec.list, letter);
    IncludesIsHas(spec.always, letter);
    IncludesIsHas(spec.onSet, letter);
    hide Includes, Has;
  }

  lemma IncludesIsHas(s: string, letter: string)
    ensures Includes(s, letter) <==> Has(s, letter)
  {
    if i :| 0 <= i <= |s| && letter <= s[i..] {
      assert s[i..i + |letter|] == letter;
    }
    if Has(s, letter) {
      var i, j :| 0 <= i <= j <= |s| && s[i..j] == letter;
      assert s[i..][..j - i] == letter && letter <= s[i..];
    }
  }

  // ----- bytes -----

  /** UTF-8, section 3 of RFC 3629. */
  function Encode(c: char): seq<nat> {
    var u := c as int;
    if u <= 0x7f then [u]
    else if u <= 0x7ff then [0xc0 + u / 0x40, 0x80 + u % 0x40]
    else if u <= 0xffff then [0xe0 + u / 0x1000, 0x80 + u / 0x40 % 0x40, 0x80 + u % 0x40]
    else [0xf0 + u / 0x4_0000, 0x80 + u / 0x1000 % 0x40, 0x80 + u / 0x40 % 0x40, 0x80 + u % 0x40]
  }

  function Utf8(s: string): seq<nat> {
    if s == "" then [] else Encode(s[0]) + Utf8(s[1..])
  }

  lemma {:induction false} BytesAreUtf8(s: string)
    ensures Bytes(s) == |Utf8(s)|
  {
    if s != "" {
      BytesAreUtf8(s[1..]);
    }
  }

  // ----- a line -----

  /** The first n letters, each with its sign where it is the first or the sign changes. */
  function Spelled(g: seq<Change>, n: nat): string
    requires n <= |g|
  {
    if n == 0 then ""
    else
      var sign := if n == 1 || g[n - 2].sign != g[n - 1].sign then (match g[n - 1].sign case Plus => "+" case Minus => "-") else "";
      Spelled(g, n - 1) + sign + g[n - 1].letter
  }

  predicate Sends(c: Change) { c.param.Some? && c.param.value != "" }

  /** The parameters of the first n changes, each after a space. */
  function Tail(g: seq<Change>, n: nat): string
    requires n <= |g|
  {
    if n == 0 then "" else Tail(g, n - 1) + if Sends(g[n - 1]) then " " + g[n - 1].param.value else ""
  }

  function Sent(g: seq<Change>): nat {
    if g == [] then 0 else Sent(g[..|g| - 1]) + if Sends(g[|g| - 1]) then 1 else 0
  }

  lemma {:induction false} SpelledIsLetters(g: seq<Change>, n: nat)
    requires n <= |g|
    ensures Letters(None, g[..n]) == Spelled(g, n)
  {
    if n > 0 {
      SpelledIsLetters(g, n - 1);
      LettersSnoc(None, g[..n - 1], g[n - 1]);
      assert g[..n - 1] + [g[n - 1]] == g[..n];
      SignIs(g, n);
      hide Letters, Piece, LastSign;
    }
  }

  lemma SignIs(g: seq<Change>, n: nat)
    requires 0 < n <= |g|
    ensures Spelled(g, n) == Spelled(g, n - 1) + Piece(LastSign(None, g[..n - 1]), g[n - 1])
  {
    hide Letters;
    assert n > 1 ==> g[..n - 1][n - 2] == g[n - 2];
    var sign := if n == 1 || g[n - 2].sign != g[n - 1].sign then SignText(g[n - 1].sign) else "";
    assert Spelled(g, n) == Spelled(g, n - 1) + sign + g[n - 1].letter;
    assert Piece(LastSign(None, g[..n - 1]), g[n - 1]) == sign + g[n - 1].letter;
    assert Spelled(g, n - 1) + sign + g[n - 1].letter == Spelled(g, n - 1) + (sign + g[n - 1].letter);
  }

  lemma ParamsSnoc(g: seq<Change>, c: Change)
    ensures Params(g + [c]) == Params(g) + if Sends(c) then [c.param.value] else []
  {
    ParamsConcat(g, [c]);
    assert [c][1..] == [] && Params([c]) == if Sends(c) then [c.param.value] else [];
  }

  function Spaced(params: seq<string>): string {
    if params == [] then "" else Spaced(params[..|params| - 1]) + (" " + params[|params| - 1])
  }

  lemma {:induction false} JoinSnoc(params: seq<string>, p: string)
    requires params != []
    ensures Join(params + [p]) == Join(params) + " " + p
  {
    if |params| == 1 {
      assert params + [p] == [params[0], p] && [params[0], p][1..] == [p];
    } else {
      JoinSnoc(params[1..], p);
      assert (params + [p])[1..] == params[1..] + [p];
    }
  }

  lemma {:induction false} JoinIsSpaced(params: seq<string>)
    requires params != []
    ensures " " + Join(params) == Spaced(params)
  {
    var before, p := params[..|params| - 1], params[|params| - 1];
    assert before + [p] == params;
    if before == [] {
      assert params == [p] && Spaced(before) == "";
    } else {
      JoinIsSpaced(before);
      JoinSnoc(before, p);
    }
  }

  lemma {:induction false} TailIsSpaced(g: seq<Change>, n: nat)
    requires n <= |g|
    ensures Spaced(Params(g[..n])) == Tail(g, n)
    ensures |Params(g[..n])| == Sent(g[..n])
  {
    if n > 0 {
      TailIsSpaced(g, n - 1);
      ParamsSnoc(g[..n - 1], g[n - 1]);
      var before, c := Params(g[..n - 1]), g[n - 1];
      assert g[..n - 1] + [c] == g[..n] && g[..n][..n - 1] == g[..n - 1];
      hide Params;
      if Sends(c) {
        SpacedSnoc(before, c.param.value);
      } else {
        assert before + [] == before && Spaced(before) + "" == Spaced(before);
      }
    }
  }

  lemma SpacedSnoc(params: seq<string>, p: string)
    ensures Spaced(params + [p]) == Spaced(params) + (" " + p)
  {
    assert (params + [p])[..|params|] == params;
  }

  /** The text of one line. */
  lemma LineReads(target: string, g: seq<Change>)
    ensures Line(target, g) == "MODE " + target + " " + Spelled(g, |g|) + Tail(g, |g|)
    ensures |Params(g)| == Sent(g)
  {
    assert g[..|g|] == g;
    SpelledIsLetters(g, |g|);
    TailIsSpaced(g, |g|);
    if Params(g) != [] {
      JoinIsSpaced(Params(g));
    }
    hide Letters, Params, Spelled, Tail, Join;
  }

  // ----- the packing -----

  /** A line within both budgets, or of one change. */
  predicate Sendable(target: string, maxModes: Option<nat>, g: seq<Change>) {
    || |g| <= 1
    || ((maxModes.Some? ==> Sent(g) <= maxModes.value)
        && |Utf8("MODE " + target + " " + Spelled(g, |g|) + Tail(g, |g|))| <= 400)
  }

  lemma SendableIsAllowed(target: string, maxModes: Option<nat>, g: seq<Change>)
    ensures Sendable(target, maxModes, g) <==> Allowed(target, maxModes, g)
  {
    LineReads(target, g);
    BytesAreUtf8(Line(target, g));
    hide Line, Utf8, Spelled, Tail, Sent, Params;
  }

  /** The packing in the terms of the wire: the changes in order, every line sendable, none of them able to
      take one more change, and no other way to do it with fewer lines. */
  lemma FewestLines(target: string, maxModes: Option<nat>, changes: seq<Change>, rival: seq<seq<Change>>)
    requires maxModes.Some? ==> maxModes.value >= 1
    requires Flatten(rival) == changes && forall g <- rival :: Sendable(target, maxModes, g)
    ensures var packed := Pack(target, maxModes, changes);
      && Flatten(packed) == changes
      && (forall k | 0 <= k < |packed| :: packed[k] != [] && Sendable(target, maxModes, packed[k]))
      && (forall k | 0 <= k < |packed| - 1 :: !Sendable(target, maxModes, packed[k] + [packed[k + 1][0]]))
      && |packed| <= |rival|
  {
    var packed := Pack(target, maxModes, changes);
    hide Sendable, Allowed;
    forall g ensures Sendable(target, maxModes, g) <==> Allowed(target, maxModes, g) {
      SendableIsAllowed(target, maxModes, g);
    }
    PackKeepsChanges(target, maxModes, changes);
    PackIsMinimal(target, maxModes, changes, rival);
    forall k | 0 <= k < |packed| ensures packed[k] != [] && Allowed(target, maxModes, packed[k]) {
      PackFromAllowed(target, maxModes, [], changes, k);
    }
    forall k | 0 <= k < |packed| - 1 ensures !Allowed(target, maxModes, packed[k] + [packed[k + 1][0]]) {
      PackFromFull(target, maxModes, [], changes, k);
    }
  }

  lemma {:induction false} PackFromFull(target: string, maxModes: Option<nat>, cur: seq<Change>, rest: seq<Change>, k: nat)
    requires k + 1 < |PackFrom(target, maxModes, cur, rest)|
    ensures var p := PackFrom(target, maxModes, cur, rest);
            p[k] != [] && p[k + 1] != [] && !Allowed(target, maxModes, p[k] + [p[k + 1][0]])
    decreases |rest|
  {
    hide Fits;
    if rest != [] {
      if cur == [] || Fits(target, maxModes, cur + [rest[0]]) {
        PackFromFull(target, maxModes, cur + [rest[0]], rest[1..], k);
      } else {
        PackStarts(target, maxModes, [rest[0]], rest[1..]);
        if k > 0 {
          PackFromFull(target, maxModes, [rest[0]], rest[1..], k - 1);
        }
      }
    }
  }

  lemma {:induction false} PackStarts(target: string, maxModes: Option<nat>, cur: seq<Change>, rest: seq<Change>)
    requires cur != []
    ensures var p := PackFrom(target, maxModes, cur, rest); p != [] && cur <= p[0]
    decreases |rest|
  {
    hide Fits;
    if rest != [] && Fits(target, maxModes, cur + [rest[0]]) {
      PackStarts(target, maxModes, cur + [rest[0]], rest[1..]);
    }
  }
}
