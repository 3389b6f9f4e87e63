/** Which of the possible readings of a relay line is taken, and what comes out of it (shared/parseRelay.ts). */
module RelayOutcome {
  import opened Options
  import opened TextMatch
  import opened Relay
  import opened RelayProofs

  // ----- which cut -----

  /** At the first slot where they differ, `a` takes the longer message, or the shorter source or nick. */
  ghost predicate Preferred(a: Captures, b: Captures) {
    exists i :: 0 <= i < |a| && i < |b| && a[..i] == b[..i] && a[i].0 == b[i].0
             && if a[i].0 == Message then |a[i].1| > |b[i].1| else |a[i].1| < |b[i].1|
  }

  /** Of all the ways to cut a text into a template's pieces the match is the preferred one: left to right,
      the shortest source and nick and the longest message that leave the rest a way. */
  lemma {:induction false} MatchIsPreferred(ps: seq<Piece>, s: string, other: Captures)
    requires Fits(ps, other, s)
    ensures Match(ps, s).Some?
    ensures Match(ps, s).value == other || Preferred(Match(ps, s).value, other)
    decreases |ps|
  {
    if ps != [] {
      match ps[0]
      case Lit(c) => MatchIsPreferred(ps[1..], s[1..], other);
      case Hole(slot) =>
        var k, rest := |other[0].1|, other[1..];
        assert s[..k] == other[0].1;
        MatchIsPreferred(ps[1..], s[k..], rest);
        var mine := Match(ps[1..], s[k..]).value;
        assert Taken(ps, s, k) == Some([(slot, s[..k])] + mine);
        var n: nat;
        if slot == Message {
          GreedyFinds(ps, s, |s|, k);
          n := GreedyTakes(ps, s, |s|);
        } else {
          LazyFinds(ps, s, 1, k);
          n := LazyTakes(ps, s, 1);
        }
        assert Match(ps, s) == Taken(ps, s, n) && if slot == Message then n >= k else n <= k;
        TakenStarts(ps, s, n);
        var caps := Match(ps, s).value;
        hide Match, Lazy, Greedy, Taken, Fits;
        if n == k {
          Longer((slot, s[..k]), mine, rest);
          assert other == [other[0]] + rest;
        } else {
          assert caps[..0] == other[..0];
        }
    }
  }

  lemma TakenStarts(ps: seq<Piece>, s: string, n: nat)
    requires ps != [] && ps[0].Hole? && n <= |s|
    ensures Taken(ps, s, n).Some? ==> Taken(ps, s, n).value != [] && Taken(ps, s, n).value[0] == (ps[0].slot, s[..n])
  {
  }

  lemma Longer(c: (Slot, string), a: Captures, b: Captures)
    ensures a == b || Preferred(a, b) ==> [c] + a == [c] + b || Preferred([c] + a, [c] + b)
  {
    if Preferred(a, b) {
      var i :| 0 <= i < |a| && i < |b| && a[..i] == b[..i] && a[i].0 == b[i].0
               && if a[i].0 == Message then |a[i].1| > |b[i].1| else |a[i].1| < |b[i].1|;
      assert ([c] + a)[..i + 1] == [c] + a[..i] && ([c] + b)[..i + 1] == [c] + b[..i];
      assert ([c] + a)[i + 1] == a[i] && ([c] + b)[i + 1] == b[i];
    }
  }

  /** What a slot takes: a nick no white space, the others no line end. */
  lemma SlotsTake(c: char)
    ensures Takes(Nick, c) <==> !(c as int in {9, 10, 11, 12, 13, 32, 160, 5760, 8232, 8233, 8239, 8287, 12288, 65279} || 8192 <= c as int <= 8202)
    ensures Takes(Source, c) <==> c as int !in {10, 13, 8232, 8233}
    ensures Takes(Message, c) <==> c as int !in {10, 13, 8232, 8233}
  {
  }

  // ----- what comes out -----

  predicate StatusSign(c: char) { c in "~&@%+" }

  /** The last capture of a slot. */
  ghost predicate LastIs(caps: Captures, slot: Slot, value: Option<string>) {
    match value
    case None => forall i | 0 <= i < |caps| :: caps[i].0 != slot
    case Some(v) => exists i :: 0 <= i < |caps| && caps[i] == (slot, v) && forall j | i < j < |caps| :: caps[j].0 != slot
  }

  lemma {:induction false} LastCapture(caps: Captures, slot: Slot)
    ensures LastIs(caps, slot, Last(caps, slot))
  {
    if caps != [] {
      var before, c := caps[..|caps| - 1], caps[|caps| - 1];
      if c.0 == slot {
        assert caps[|caps| - 1] == (slot, c.1);
      } else {
        LastCapture(before, slot);
        LastSkips(caps, slot, Last(before, slot));
      }
    }
  }

  lemma LastSkips(caps: Captures, slot: Slot, value: Option<string>)
    requires caps != [] && caps[|caps| - 1].0 != slot && LastIs(caps[..|caps| - 1], slot, value)
    ensures LastIs(caps, slot, value)
  {
    var before := caps[..|caps| - 1];
    assert forall i | 0 <= i < |before| :: before[i] == caps[i];
    if value.Some? {
      var i :| 0 <= i < |before| && before[i] == (slot, value.value) && forall j | i < j < |before| :: before[j].0 != slot;
      assert caps[i] == (slot, value.value);
    }
  }

  /** A nick is a name behind a run of status signs. */
  lemma {:induction false} SignsDrop(nick: string) returns (k: nat)
    ensures k <= |nick| && DropPrefix(nick) == nick[k..] && forall i | 0 <= i < k :: StatusSign(nick[i])
    ensures DropPrefix(nick) != "" ==> !StatusSign(DropPrefix(nick)[0])
  {
    k := 0;
    if nick != "" && MemberPrefix(nick[0]) {
      var rest := SignsDrop(nick[1..]);
      k := rest + 1;
      assert nick[1..][rest..] == nick[k..];
      forall i | 0 <= i < k ensures StatusSign(nick[i]) {
        assert i > 0 ==> nick[i] == nick[1..][i - 1];
      }
    }
  }

  /** A template reads a line when it has both slots it needs, matches the stripped line, and captures more of
      a nick than status signs. Source and nick are the captures, the nick without its signs; the message is
      the capture unless it is the last slot, when it keeps its formatting. */
  lemma TemplateReads(template: string, body: string) returns (source: Option<string>, nick: Option<string>, text: Option<string>, signs: nat)
    ensures TryTemplate(template, body).Some? ==> Hole(Nick) in Pieces(template) && Hole(Message) in Pieces(template)
    ensures Hole(Nick) in Pieces(template) && Hole(Message) in Pieces(template) && Match(Pieces(template), Strip(body)).Some? ==>
              var caps := Match(Pieces(template), Strip(body)).value;
              && LastIs(caps, Source, source) && LastIs(caps, Nick, nick) && LastIs(caps, Message, text)
              && var n := if nick.Some? then nick.value else "";
                 && signs <= |n| && (forall i | 0 <= i < signs :: StatusSign(n[i])) && (signs < |n| ==> !StatusSign(n[signs]))
                 && (TryTemplate(template, body).Some? <==> signs < |n|)
                 && (signs < |n| ==>
                       var p := TryTemplate(template, body).value;
                       && p.source == source && p.nick == n[signs..]
                       && (LastSlot(Pieces(template)) != Some(Message) ==> p.text == if text.Some? then text.value else ""))
    ensures TryTemplate(template, body).Some? ==> Match(Pieces(template), Strip(body)).Some?
  {
    source, nick, text, signs := None, None, None, 0;
    var ps := Pieces(template);
    if Hole(Nick) in ps && Hole(Message) in ps && Match(ps, Strip(body)).Some? {
      var caps := Match(ps, Strip(body)).value;
      source, nick, text := Last(caps, Source), Last(caps, Nick), Last(caps, Message);
      LastCapture(caps, Source);
      LastCapture(caps, Nick);
      LastCapture(caps, Message);
      signs := SignsDrop(OrEmpty(nick));
      assert forall c :: StatusSign(c) <==> MemberPrefix(c);
      TryReads(template, body);
      hide Match, Pieces, Last, LastIs, Strip, RawIndex, TryTemplate, MemberPrefix, DropPrefix, LastSlot;
      assert signs < |OrEmpty(nick)| <==> DropPrefix(OrEmpty(nick)) != "";
    }
  }

  lemma TryReads(template: string, body: string)
    requires Hole(Nick) in Pieces(template) && Hole(Message) in Pieces(template) && Match(Pieces(template), Strip(body)).Some?
    ensures var caps := Match(Pieces(template), Strip(body)).value;
      var nick := DropPrefix(OrEmpty(Last(caps, Nick)));
      && (TryTemplate(template, body).Some? <==> nick != "")
      && (nick != "" ==>
            var p := TryTemplate(template, body).value;
            && p.source == Last(caps, Source) && p.nick == nick
            && (LastSlot(Pieces(template)) != Some(Message) ==> p.text == OrEmpty(Last(caps, Message))))
  {
    hide Match, Pieces, Last, Strip, RawIndex, DropPrefix, LastSlot;
  }

  // ----- which templates -----

  predicate Blank(s: string) { forall c <- s :: Space(c) }

  /** White space at both ends, and none left there. */
  lemma TrimReads(s: string) returns (front: string, back: string)
    ensures s == front + Trim(s) + back && Blank(front) && Blank(back)
    ensures Trim(s) != "" ==> !Space(Trim(s)[0]) && !Space(Trim(s)[|Trim(s)| - 1])
  {
    front := StartDrops(s);
    back := EndDrops(TrimStart(s));
    StartStays(s);
  }

  lemma {:induction false} StartDrops(s: string) returns (front: string)
    ensures s == front + TrimStart(s) && Blank(front)
  {
    front := "";
    if s != "" && Space(s[0]) {
      var rest := StartDrops(s[1..]);
      front := [s[0]] + rest;
      assert s == [s[0]] + s[1..];
    }
  }

  lemma {:induction false} EndDrops(s: string) returns (back: string)
    ensures s == TrimEnd(s) + back && Blank(back)
    ensures TrimEnd(s) != "" ==> !Space(TrimEnd(s)[|TrimEnd(s)| - 1]) && TrimEnd(s)[0] == s[0]
  {
    back := "";
    if s != "" && Space(s[|s| - 1]) {
      var rest := EndDrops(s[..|s| - 1]);
      back := rest + [s[|s| - 1]];
      assert s == s[..|s| - 1] + [s[|s| - 1]];
    }
  }

  lemma {:induction false} StartStays(s: string)
    ensures TrimStart(s) != "" ==> !Space(TrimStart(s)[0])
  {
    if s != "" && Space(s[0]) {
      StartStays(s[1..]);
    }
  }

  /** A custom template replaces the built-in ones unless it is blank; of those the one with a source is tried
      first. An empty line is none. */
  lemma TemplatesTried(body: string, pattern: Option<string>)
    ensures ParseMessage("", pattern) == None
    ensures body != "" ==>
      var custom := if pattern.Some? then Trim(pattern.value) else "";
      ParseMessage(body, pattern)
      == if custom != "" then TryTemplate(custom, body)
         else if TryTemplate("[{source}] <{nick}> {message}", body).Some? then TryTemplate("[{source}] <{nick}> {message}", body)
         else TryTemplate("<{nick}> {message}", body)
  {
    assert Trim("") == "";
    var custom := if pattern.Some? then Trim(pattern.value) else "";
    assert Trim(OrEmpty(pattern)) == custom;
    hide TryTemplate, Trim;
    assert FirstParse([], body) == None;
    FirstOf(custom, [], body);
    FirstOf(BARE, [], body);
    FirstOf(TAGGED, [BARE], body);
    assert [custom] + [] == [custom] && [BARE] + [] == [BARE] && [TAGGED] + [BARE] == [TAGGED, BARE];
    hide FirstParse;
  }

  lemma FirstOf(t: string, rest: seq<string>, body: string)
    ensures FirstParse([t] + rest, body) == if TryTemplate(t, body).Some? then TryTemplate(t, body) else FirstParse(rest, body)
  {
    hide TryTemplate;
    assert ([t] + rest)[1..] == rest;
  }

  // ----- chains -----

  /** The source of a chain is that of its innermost envelope that names one, and no chain is deeper than
      four. */
  lemma ChainEnds(body: string, pattern: Option<string>, marks: string -> Option<string>) returns (hops: seq<Parse>)
    requires ParseChain(body, pattern, marks).Some?
    ensures 1 <= |hops| <= 4 && ParseMessage(body, pattern) == Some(hops[0]) && IsChain(hops, marks)
    ensures var p, last := ParseChain(body, pattern, marks).value, hops[|hops| - 1];
      && p.nick == last.nick && p.text == last.text
      && (|hops| < 4 ==> marks(last.nick).None? || ParseMessage(last.text, marks(last.nick)).None?)
      && (p.source.None? ==> forall i | 0 <= i < |hops| :: hops[i].source.None?)
      && (p.source.Some? ==>
            exists i :: 0 <= i < |hops| && hops[i].source == p.source && forall j | i < j < |hops| :: hops[j].source.None?)
  {
    hops := ChainIsHops(body, pattern, marks);
    SourceIsInnermost(hops, None);
    hide ParseChain, ParseMessage, SourceOf, IsChain;
  }

  lemma {:induction false} SourceIsInnermost(hops: seq<Parse>, outer: Option<string>)
    ensures var s := SourceOf(hops, outer);
      || ((forall i | 0 <= i < |hops| :: hops[i].source.None?) && s == outer)
      || (s.Some? && exists i :: 0 <= i < |hops| && hops[i].source == s && forall j | i < j < |hops| :: hops[j].source.None?)
    decreases |hops|
  {
    if hops != [] {
      var rest, next := hops[1..], if hops[0].source.Some? then hops[0].source else outer;
      SourceIsInnermost(rest, next);
      if i :| 0 <= i < |rest| && rest[i].source == SourceOf(rest, next) && rest[i].source.Some?
              && forall j | i < j < |rest| :: rest[j].source.None? {
        assert hops[i + 1].source == SourceOf(hops, outer);
        forall j | i + 1 < j < |hops| ensures hops[j].source.None? {
          assert hops[j] == rest[j - 1];
        }
      } else {
        forall j | 0 < j < |hops| ensures hops[j].source.None? {
          assert hops[j] == rest[j - 1];
        }
      }
    }
  }
}
