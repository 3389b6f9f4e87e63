/** What an envelope match means, and that the text it gives back is the message, formatting and all. */
module RelayProofs {
  import opened Options
  import opened TextMatch
  import opened Relay

  // ----- matching finds a fit exactly when there is one -----

  /** The text is the pieces in order: literals as they stand, slots by their captures. */
  ghost predicate Fits(ps: seq<Piece>, caps: Captures, s: string)
    decreases |ps|
  {
    if ps == [] then caps == [] && s == ""
    else match ps[0]
      case Lit(c) => s != "" && s[0] == c && Fits(ps[1..], caps, s[1..])
      case Hole(slot) =>
        && caps != [] && caps[0].0 == slot && StartsWith(s, caps[0].1) && TakesAll(slot, caps[0].1)
        && (slot.Message? || caps[0].1 != "")
        && Fits(ps[1..], caps[1..], s[|caps[0].1|..])
  }

  lemma {:induction false} MatchFits(ps: seq<Piece>, s: string)
    requires Match(ps, s).Some?
    ensures Fits(ps, Match(ps, s).value, s)
    decreases |ps|
  {
    if ps != [] {
      match ps[0]
      case Lit(c) => MatchFits(ps[1..], s[1..]);
      case Hole(slot) =>
        var n: nat;
        if slot.Message? {
          n := GreedyTakes(ps, s, |s|);
        } else {
          n := LazyTakes(ps, s, 1);
        }
        MatchFits(ps[1..], s[n..]);
    }
  }

  lemma {:induction false} LazyTakes(ps: seq<Piece>, s: string, n: nat) returns (k: nat)
    requires ps != [] && ps[0].Hole? && Lazy(ps, s, n).Some?
    ensures n <= k <= |s| && Taken(ps, s, k).Some? && Lazy(ps, s, n) == Taken(ps, s, k)
    ensures forall j | n <= j < k :: Taken(ps, s, j).None?
    decreases |s| + 1 - n
  {
    if Taken(ps, s, n).Some? {
      k := n;
    } else {
      k := LazyTakes(ps, s, n + 1);
    }
  }

  lemma {:induction false} GreedyTakes(ps: seq<Piece>, s: string, n: nat) returns (k: nat)
    requires ps != [] && ps[0].Hole? && n <= |s| && Greedy(ps, s, n).Some?
    ensures k <= n && Taken(ps, s, k).Some? && Greedy(ps, s, n) == Taken(ps, s, k)
    ensures forall j | k < j <= n :: Taken(ps, s, j).None?
  {
    if Taken(ps, s, n).Some? {
      k := n;
    } else {
      k := GreedyTakes(ps, s, n - 1);
    }
  }

  lemma {:induction false} LazyFinds(ps: seq<Piece>, s: string, n: nat, k: nat)
    requires ps != [] && ps[0].Hole? && n <= k <= |s| && Taken(ps, s, k).Some?
    ensures Lazy(ps, s, n).Some?
    decreases k - n
  {
    if n < k {
      LazyFinds(ps, s, n + 1, k);
    }
  }

  lemma {:induction false} GreedyFinds(ps: seq<Piece>, s: string, n: nat, k: nat)
    requires ps != [] && ps[0].Hole? && k <= n <= |s| && Taken(ps, s, k).Some?
    ensures Greedy(ps, s, n).Some?
  {
    if k < n {
      GreedyFinds(ps, s, n - 1, k);
    }
  }

  lemma {:induction false} FitIsFound(ps: seq<Piece>, caps: Captures, s: string)
    requires Fits(ps, caps, s)
    ensures Match(ps, s).Some?
    decreases |ps|
  {
    if ps != [] {
      match ps[0]
      case Lit(c) => FitIsFound(ps[1..], caps, s[1..]);
      case Hole(slot) =>
        var n := |caps[0].1|;
        FitIsFound(ps[1..], caps[1..], s[n..]);
        assert Taken(ps, s, n).Some?;
        if slot.Message? {
          GreedyFinds(ps, s, |s|, n);
        } else {
          LazyFinds(ps, s, 1, n);
        }
    }
  }

  /** A template matches a text exactly when the text can be cut into its pieces, and what is captured is
      such a cut. */
  lemma MatchIffFits(ps: seq<Piece>, s: string)
    ensures Match(ps, s).Some? <==> exists caps :: Fits(ps, caps, s)
    ensures Match(ps, s).Some? ==> Fits(ps, Match(ps, s).value, s)
  {
    hide Match, Fits;
    if Match(ps, s).Some? {
      MatchFits(ps, s);
      var caps := Match(ps, s).value;
      assert Fits(ps, caps, s);
    } else if caps: Captures :| Fits(ps, caps, s) {
      FitIsFound(ps, caps, s);
    }
  }

  // ----- the text is the message -----

  predicate Suffix(t: string, s: string) {
    |t| <= |s| && s[|s| - |t|..] == t
  }

  predicate EndsInMessage(ps: seq<Piece>) {
    ps != [] && ps[|ps| - 1] == Hole(Message)
  }

  lemma {:induction false} LastCaptureIsTail(ps: seq<Piece>, caps: Captures, s: string)
    requires EndsInMessage(ps) && Fits(ps, caps, s)
    ensures caps != [] && caps[|caps| - 1].0 == Message && Suffix(caps[|caps| - 1].1, s)
    decreases |ps|
  {
    if |ps| == 1 {
      assert ps[0] == Hole(Message) && ps[1..] == [];
    } else {
      var n := if ps[0].Lit? then 1 else |caps[0].1|;
      var rest := if ps[0].Lit? then caps else caps[1..];
      LastCaptureIsTail(ps[1..], rest, s[n..]);
      assert rest[|rest| - 1] == caps[|caps| - 1];
    }
  }

  /** What the template says the message is. */
  ghost function Captured(template: string, body: string): string
    requires TryTemplate(template, body).Some?
  {
    OrEmpty(Last(Match(Compile(template).value, Strip(body)).value, Message))
  }

  lemma ParsedText(template: string, body: string)
    requires TryTemplate(template, body).Some?
    ensures Compile(template).Some? && Match(Compile(template).value, Strip(body)).Some?
    ensures TryTemplate(template, body).value.text == Display(Compile(template).value, body, Captured(template, body))
  {
    hide Match, Compile, Strip, DropPrefix, Display, Last;
  }

  /** With {message} at the end, the text handed back is a tail of the raw body that strips to exactly the
      captured message. */
  lemma TextIsRawTail(template: string, body: string)
    requires TryTemplate(template, body).Some? && EndsInMessage(Compile(template).value)
    ensures var p := TryTemplate(template, body).value;
            Suffix(p.text, body) && Strip(p.text) == Captured(template, body) && Suffix(Strip(p.text), Strip(body))
  {
    ParsedText(template, body);
    CapturedIsTail(template, body);
    assert LastSlot(Compile(template).value) == Some(Message);
    var stripped := Strip(body);
    var text := Captured(template, body);
    hide Match, Compile, TryTemplate, Strip, LastSlot, RawIndex, Captured, EndsInMessage;
    CutAtVisibleOffset(body, |stripped| - |text|);
  }

  lemma CapturedIsTail(template: string, body: string)
    requires TryTemplate(template, body).Some? && EndsInMessage(Compile(template).value)
    ensures Suffix(Captured(template, body), Strip(body))
  {
    ParsedText(template, body);
    var ps := Compile(template).value;
    var caps := Match(ps, Strip(body)).value;
    hide Match, Compile, TryTemplate, Strip, Suffix, EndsInMessage, Last, Fits;
    MatchFits(ps, Strip(body));
    LastCaptureIsTail(ps, caps, Strip(body));
    LastOnTop(caps);
  }

  lemma LastOnTop(caps: Captures)
    requires caps != [] && caps[|caps| - 1].0 == Message
    ensures Last(caps, Message) == Some(caps[|caps| - 1].1)
  {
  }

  lemma SuffixOfTail(t: string, s: string, n: nat)
    requires n <= |s| && Suffix(t, s[n..])
    ensures Suffix(t, s)
  {
    assert s[n..][|s| - n - |t|..] == s[|s| - |t|..];
  }

  lemma {:induction false} DropPrefixDone(nick: string)
    ensures DropPrefix(nick) != "" ==> !MemberPrefix(DropPrefix(nick)[0])
    ensures Suffix(DropPrefix(nick), nick)
  {
    hide MemberPrefix;
    if nick != "" && MemberPrefix(nick[0]) {
      var rest := DropPrefix(nick[1..]);
      DropPrefixDone(nick[1..]);
      SuffixOfTail(rest, nick, 1);
    }
  }

  // ----- exactly which templates give the message back -----

  /** One {message}, and it is the last slot. */
  predicate OneMessageLast(ps: seq<Piece>) {
    ps != [] && if ps[0] == Hole(Message) then AllLiteral(ps[1..]) else OneMessageLast(ps[1..])
  }

  predicate AllLiteral(ps: seq<Piece>) {
    forall p <- ps :: p.Lit?
  }

  predicate CanMatch(ps: seq<Piece>) {
    forall p <- ps :: p.Lit? ==> !Control(p.c)
  }

  /** On every body it matches, the text strips to the captured message. */
  ghost predicate GivesMessageBack(template: string) {
    forall body | TryTemplate(template, body).Some? :: Strip(TryTemplate(template, body).value.text) == Captured(template, body)
  }

  /** The body with one-character names and this message. */
  function Sample(ps: seq<Piece>, m: string): string {
    if ps == [] then ""
    else match ps[0]
      case Lit(c) => [c] + Sample(ps[1..], m)
      case Hole(slot) => (if slot.Message? then m else "n") + Sample(ps[1..], m)
  }

  function SampleCaptures(ps: seq<Piece>, m: string): Captures {
    if ps == [] then []
    else match ps[0]
      case Lit(c) => SampleCaptures(ps[1..], m)
      case Hole(slot) => [(slot, if slot.Message? then m else "n")] + SampleCaptures(ps[1..], m)
  }

  lemma {:induction false} LiteralsMatchThemselves(ps: seq<Piece>, s: string)
    requires AllLiteral(ps)
    ensures Match(ps, s) == if s == Sample(ps, "") then Some([]) else None
    ensures |Sample(ps, "")| == |ps|
    ensures forall m :: Sample(ps, m) == Sample(ps, "") && SampleCaptures(ps, m) == []
    decreases |ps|
  {
    if ps != [] {
      assert ps[0].Lit?;
      assert AllLiteral(ps[1..]);
      LiteralsMatchThemselves(ps[1..], if s == "" then "" else s[1..]);
      if s != "" {
        assert s == [s[0]] + s[1..];
      }
      forall m ensures Sample(ps, m) == Sample(ps, "") && SampleCaptures(ps, m) == [] {
        assert Sample(ps[1..], m) == Sample(ps[1..], "");
      }
    }
  }

  /** The matcher takes the sample apart as it was put together. */
  lemma {:induction false} SampleMatches(ps: seq<Piece>, m: string)
    requires OneMessageLast(ps) && TakesAll(Message, m)
    ensures Match(ps, Sample(ps, m)) == Some(SampleCaptures(ps, m))
    decreases |ps|
  {
    var s := Sample(ps, m);
    match ps[0]
    case Lit(c) =>
      SampleMatches(ps[1..], m);
      assert s[1..] == Sample(ps[1..], m);
    case Hole(slot) =>
      if slot.Message? {
        LiteralsMatchThemselves(ps[1..], "");
        assert s == m + Sample(ps[1..], "");
        forall n: nat | n <= |s| ensures Taken(ps, s, n) == if n == |m| then Some([(Message, m)]) else None {
          TakenOfMessage(ps, m, n);
        }
        GreedyFinds(ps, s, |s|, |m|);
        var k := GreedyTakes(ps, s, |s|);
      } else {
        SampleMatches(ps[1..], m);
        assert s == "n" + Sample(ps[1..], m);
        assert s[..1] == "n" && s[1..] == Sample(ps[1..], m);
        assert TakesAll(slot, "n");
        assert Taken(ps, s, 1) == Some([(slot, "n")] + SampleCaptures(ps[1..], m));
      }
  }

  lemma TakenOfMessage(ps: seq<Piece>, m: string, n: nat)
    requires ps != [] && ps[0] == Hole(Message) && AllLiteral(ps[1..]) && TakesAll(Message, m)
    requires n <= |m + Sample(ps[1..], "")|
    ensures Taken(ps, m + Sample(ps[1..], ""), n) == if n == |m| then Some([(Message, m)]) else None
  {
    var tail := Sample(ps[1..], "");
    var s := m + tail;
    LiteralsMatchThemselves(ps[1..], s[n..]);
    if n == |m| {
      assert s[..n] == m && s[n..] == tail && Match(ps[1..], tail) == Some([]);
      assert [(Message, m)] + [] == [(Message, m)];
    } else {
      assert |s[n..]| != |tail|;
    }
  }

  lemma {:induction false} SampleIsVisible(ps: seq<Piece>, m: string)
    requires CanMatch(ps) && Visible(m)
    ensures Visible(Sample(ps, m))
    decreases |ps|
  {
    if ps != [] {
      assert ps[0] in ps && forall p <- ps[1..] :: p in ps;
      SampleIsVisible(ps[1..], m);
    }
  }

  lemma {:induction false} SampleShape(ps: seq<Piece>, m: string)
    requires OneMessageLast(ps) && !EndsInMessage(ps)
    ensures ps[|ps| - 1].Lit? && |Sample(ps, m)| > |m| && Sample(ps, m)[|Sample(ps, m)| - 1] == ps[|ps| - 1].c
    ensures Last(SampleCaptures(ps, m), Message) == Some(m)
    ensures Last(SampleCaptures(ps, m), Nick) == if Hole(Nick) in ps then Some("n") else None
    ensures LastSlot(ps) == Some(Message)
    decreases |ps|
  {
    if ps[0] == Hole(Message) {
      LiteralsMatchThemselves(ps[1..], "");
      var caps := SampleCaptures(ps, m);
      assert caps == [(Message, m)] && caps[..0] == [];
      assert |ps| > 1 && forall p <- ps :: p == ps[0] || p in ps[1..];
      LiteralTail(ps[1..]);
      LastSlotSkips(ps, 1);
    } else {
      SampleShape(ps[1..], m);
      var rest, caps := SampleCaptures(ps[1..], m), SampleCaptures(ps, m);
      if ps[0].Hole? {
        LastOfCons((ps[0].slot, "n"), rest, Message);
        LastOfCons((ps[0].slot, "n"), rest, Nick);
      }
      LastSlotCons(ps);
    }
  }

  lemma {:induction false} LiteralTail(ps: seq<Piece>)
    requires AllLiteral(ps) && ps != []
    ensures Sample(ps, "") != "" && Sample(ps, "")[|Sample(ps, "")| - 1] == ps[|ps| - 1].c
    decreases |ps|
  {
    assert ps[0].Lit?;
    if |ps| > 1 {
      LiteralTail(ps[1..]);
    } else {
      assert ps[1..] == [];
    }
  }

  lemma {:induction false} LastSlotSkips(ps: seq<Piece>, n: nat)
    requires 0 < n <= |ps| && ps[n - 1].Hole? && AllLiteral(ps[n..])
    ensures LastSlot(ps) == Some(ps[n - 1].slot)
    decreases |ps|
  {
    if n < |ps| {
      assert ps[n..][|ps| - 1 - n] == ps[|ps| - 1] && ps[|ps| - 1] in ps[n..];
      var shorter := ps[..|ps| - 1];
      assert forall p <- shorter[n..] :: p in ps[n..];
      LastSlotSkips(shorter, n);
    }
  }

  lemma {:induction false} LastSlotCons(ps: seq<Piece>)
    requires ps != [] && LastSlot(ps[1..]).Some?
    ensures LastSlot(ps) == LastSlot(ps[1..])
    decreases |ps|
  {
    assert |ps| > 1;
    assert ps[1..][|ps| - 2] == ps[|ps| - 1];
    if ps[|ps| - 1].Lit? {
      assert ps[..|ps| - 1][1..] == ps[1..][..|ps| - 2];
      LastSlotCons(ps[..|ps| - 1]);
    }
  }

  lemma {:induction false} LastOfCons(c: (Slot, string), caps: Captures, slot: Slot)
    ensures Last([c] + caps, slot) == if Last(caps, slot).Some? then Last(caps, slot)
                                      else if c.0 == slot then Some(c.1) else None
    decreases |caps|
  {
    if caps != [] {
      var all := [c] + caps;
      assert all[..|all| - 1] == [c] + caps[..|caps| - 1];
      LastOfCons(c, caps[..|caps| - 1], slot);
    }
  }

  /** The tail is cut by length, so a literal behind {message} breaks it: such a template gives every
      message back exactly when {message} ends it, or no body can match it at all. */
  lemma GivesBackIffEndsInMessage(template: string)
    requires Compile(template).Some? && OneMessageLast(Compile(template).value)
    ensures var ps := Compile(template).value;
            GivesMessageBack(template) <==> EndsInMessage(ps) || !CanMatch(ps)
  {
    var ps := Compile(template).value;
    if EndsInMessage(ps) {
      forall body | TryTemplate(template, body).Some?
        ensures Strip(TryTemplate(template, body).value.text) == Captured(template, body)
      {
        TextIsRawTail(template, body);
      }
    } else if CanMatch(ps) {
      TrailingLiteralShifts(template);
    } else {
      forall body ensures TryTemplate(template, body).None? {
        if TryTemplate(template, body).Some? {
          MatchedCanMatch(ps, body);
        }
      }
    }
  }

  lemma MatchedCanMatch(ps: seq<Piece>, body: string)
    requires Match(ps, Strip(body)).Some?
    ensures CanMatch(ps)
  {
    MatchFits(ps, Strip(body));
    StripIsVisible(body);
    FitsVisible(ps, Match(ps, Strip(body)).value, Strip(body));
  }

  lemma {:induction false} FitsVisible(ps: seq<Piece>, caps: Captures, s: string)
    requires Fits(ps, caps, s) && Visible(s)
    ensures CanMatch(ps)
    decreases |ps|
  {
    if ps != [] {
      var n := if ps[0].Lit? then 1 else |caps[0].1|;
      assert forall c <- s[n..] :: c in s;
      FitsVisible(ps[1..], if ps[0].Lit? then caps else caps[1..], s[n..]);
      if ps[0].Lit? {
        assert s[0] in s;
      }
      assert forall p <- ps :: p == ps[0] || p in ps[1..];
    }
  }

  /** The body that shows it: its one-character message is cut off in favour of the literal behind it. */
  lemma TrailingLiteralShifts(template: string)
    requires Compile(template).Some? && OneMessageLast(Compile(template).value)
    requires !EndsInMessage(Compile(template).value) && CanMatch(Compile(template).value)
    ensures !GivesMessageBack(template)
  {
    var ps := Compile(template).value;
    var last := ps[|ps| - 1];
    SampleShape(ps, "a");
    var m := if last.c == 'a' then "b" else "a";
    SampleShape(ps, m);
    SampleMatches(ps, m);
    SampleIsVisible(ps, m);
    var body := Sample(ps, m);
    hide Match, Sample, SampleCaptures, Last, LastSlot, OneMessageLast, CanMatch, Strip, RawIndex, Visible, TakesAll, Compile;
    VisibleBody(body);
    SampleParse(template, m);
    StripOne(last.c);
  }

  lemma VisibleBody(body: string)
    requires Visible(body) && body != ""
    ensures Strip(body) == body && RawIndex(body, |body| - 1) == |body| - 1
  {
    var init := body[..|body| - 1];
    assert init + body[|body| - 1..] == body && body + "" == body;
    assert forall c <- init :: c in body;
    VisibleStays(body, "");
    assert Strip("") == "";
    assert Visible(init);
    hide Strip, RawIndex, Visible;
    CutBehindVisible(init, body[|body| - 1..]);
  }

  lemma PlainName()
    ensures DropPrefix("n") == "n"
  {
  }

  lemma SampleParse(template: string, m: string)
    requires Compile(template).Some?
    requires var ps := Compile(template).value;
             var body := Sample(ps, m);
             && Match(ps, body) == Some(SampleCaptures(ps, m)) && Strip(body) == body
             && Last(SampleCaptures(ps, m), Message) == Some(m) && Last(SampleCaptures(ps, m), Nick) == Some("n")
             && LastSlot(ps) == Some(Message) && |m| == 1 <= |body| && RawIndex(body, |body| - 1) == |body| - 1
    ensures var body := Sample(Compile(template).value, m);
            && TryTemplate(template, body).Some? && Captured(template, body) == m
            && TryTemplate(template, body).value.text == [body[|body| - 1]]
  {
    hide Match, Strip, Sample, SampleCaptures, Compile, LastSlot, RawIndex, Last, DropPrefix;
    var ps := Compile(template).value;
    var body := Sample(ps, m);
    PlainName();
    assert body[|body| - 1..] == [body[|body| - 1]];
    assert Display(ps, body, m) == [body[|body| - 1]];
    hide Display;
    ParseFrom(template, ps, body, SampleCaptures(ps, m), "n", [body[|body| - 1]]);
  }

  lemma StripOne(c: char)
    ensures Strip([c]) == if Control(c) then "" else [c]
  {
    assert [c][1..] == "";
  }

  // ----- wrapping and unwrapping -----

  lemma LitAt(t: string)
    requires t != "" && t[0] != '{'
    ensures Pieces(t) == [Lit(t[0])] + Pieces(t[1..])
  {
    assert forall prefix: string | prefix != "" && StartsWith(t, prefix) :: t[..|prefix|][0] == prefix[0];
  }

  lemma NotAtStart(t: string, prefix: string, k: nat)
    requires k < |t| && k < |prefix| && t[k] != prefix[k]
    ensures !StartsWith(t, prefix)
  {
    if |prefix| <= |t| {
      assert t[..|prefix|][k] != prefix[k];
    }
  }

  lemma NickAt(t: string)
    requires StartsWith(t, "{nick}")
    ensures Pieces(t) == [Hole(Nick)] + Pieces(t[6..])
  {
    assert t[1] == t[..6][1] == 'n';
    NotAtStart(t, "{source}", 1);
  }

  lemma SourceAt(t: string)
    requires StartsWith(t, "{source}")
    ensures Pieces(t) == [Hole(Source)] + Pieces(t[8..])
  {
  }

  lemma MessageEnds()
    ensures Pieces("{message}") == [Hole(Message)]
  {
    var t := "{message}";
    NotAtStart(t, "{source}", 1);
    NotAtStart(t, "{nick}", 1);
    assert t[..9] == t && t[9..] == "";
  }

  const INNER := [Hole(Nick), Lit('>'), Lit(' '), Hole(Message)]
  const BARE_PIECES := [Lit('<')] + INNER
  const SPACED := [Lit(' ')] + BARE_PIECES
  const CLOSING := [Lit(']')] + SPACED
  const SOURCED := [Hole(Source)] + CLOSING
  const TAGGED_PIECES := [Lit('[')] + SOURCED

  lemma BarePieces()
    ensures Pieces(BARE) == BARE_PIECES
  {
    hide Pieces, Head;
    var t := BARE;
    LitAt(t);
    assert t[1..] == "{nick}> {message}" && t[1..][..6] == "{nick}";
    NickAt(t[1..]);
    assert t[1..][6..] == "> {message}";
    LitAt("> {message}");
    assert "> {message}"[1..] == " {message}" && " {message}"[1..] == "{message}";
    LitAt(" {message}");
    MessageEnds();
  }

  lemma TaggedPieces(rest: string)
    ensures Pieces("[{source}] " + rest) == [Lit('[')] + ([Hole(Source)] + ([Lit(']')] + ([Lit(' ')] + Pieces(rest))))
  {
    hide Pieces, Head;
    var t := "[{source}] " + rest;
    LitAt(t);
    assert t[1..] == "{source}] " + rest && t[1..][..8] == "{source}";
    SourceAt(t[1..]);
    assert t[1..][8..] == "] " + rest;
    LitAt("] " + rest);
    assert ("] " + rest)[1..] == " " + rest && (" " + rest)[1..] == rest;
    LitAt(" " + rest);
  }

  predicate PlainNick(nick: string) {
    Visible(nick) && TakesAll(Nick, nick) && DropPrefix(nick) != ""
  }

  /** A nick in front of a bracket is found whole, since it holds no space. */
  lemma NickMatches(nick: string, m: string)
    requires nick != "" && TakesAll(Nick, nick) && TakesAll(Message, m)
    ensures Match(INNER, nick + "> " + m) == Some([(Nick, nick), (Message, m)])
  {
    var s := nick + "> " + m;
    NickTaken(nick, m);
    forall n: nat | n < |nick| ensures Taken(INNER, s, n).None? {
      BracketInNick(nick, m, n);
    }
    hide Taken, TakesAll;
    LazyFinds(INNER, s, 1, |nick|);
    var k := LazyTakes(INNER, s, 1);
  }

  lemma NickTaken(nick: string, m: string)
    requires nick != "" && TakesAll(Nick, nick) && TakesAll(Message, m)
    ensures Taken(INNER, nick + "> " + m, |nick|) == Some([(Nick, nick), (Message, m)])
  {
    var s := nick + "> " + m;
    assert s[..|nick|] == nick && s[|nick|..] == "> " + m;
    assert INNER[1..] == [Lit('>'), Lit(' '), Hole(Message)];
    ClosingMatches(m);
    hide Match;
    assert [(Nick, nick)] + [(Message, m)] == [(Nick, nick), (Message, m)];
  }

  lemma MessageMatches(m: string)
    requires TakesAll(Message, m)
    ensures Match([Hole(Message)], m) == Some([(Message, m)])
  {
    var ps := [Hole(Message)];
    assert m[..|m|] == m && m[|m|..] == "" && ps[1..] == [];
    assert Match([], "") == Some([]) && [(Message, m)] + [] == [(Message, m)];
    assert Taken(ps, m, |m|) == Some([(Message, m)]);
  }

  lemma ClosingMatches(m: string)
    requires TakesAll(Message, m)
    ensures Match([Lit('>'), Lit(' '), Hole(Message)], "> " + m) == Some([(Message, m)])
  {
    MessageMatches(m);
    var ps := [Lit('>'), Lit(' '), Hole(Message)];
    assert ps[1..] == [Lit(' '), Hole(Message)] && ps[1..][1..] == [Hole(Message)];
    assert ("> " + m)[1..] == " " + m && (" " + m)[1..] == m;
  }

  lemma BracketInNick(nick: string, m: string, n: nat)
    requires n < |nick| && TakesAll(Nick, nick)
    ensures Taken(INNER, nick + "> " + m, n).None?
  {
    var s := nick + "> " + m;
    var ps := [Lit('>'), Lit(' '), Hole(Message)];
    assert INNER[1..] == ps;
    assert s[n..][1..][0] == s[n + 1];
    assert n + 1 < |nick| ==> s[n + 1] == nick[n + 1] && nick[n + 1] in nick;
    assert n + 1 == |nick| ==> s[n + 1] == '>';
    assert s[n + 1] != ' ';
    assert ps[1..][0] == Lit(' ');
  }

  lemma VisibleConcat(a: string, b: string)
    requires Visible(a) && Visible(b)
    ensures Visible(a + b)
  {
  }

  lemma DisplayTail(ps: seq<Piece>, head: string, msg: string)
    requires LastSlot(ps) == Some(Message) && Visible(head)
    ensures Strip(head + msg) == head + Strip(msg)
    ensures Display(ps, head + msg, Strip(msg)) == msg
  {
    VisibleStays(head, msg);
    CutBehindVisible(head, msg);
    assert (head + msg)[|head|..] == msg;
    hide Strip, RawIndex;
    assert |head + Strip(msg)| - |Strip(msg)| == |head|;
  }

  lemma LastOfTwo(nick: string, m: string)
    ensures var caps := [(Nick, nick), (Message, m)];
            Last(caps, Nick) == Some(nick) && Last(caps, Message) == Some(m) && Last(caps, Source) == None
  {
    var caps := [(Nick, nick), (Message, m)];
    assert caps[..1] == [(Nick, nick)] && caps[..1][..0] == [];
    assert Last(caps[..1], Source) == Last(caps[..1][..0], Source) == None;
  }

  lemma LastOfThree(source: string, nick: string, m: string)
    ensures var caps := [(Source, source)] + [(Nick, nick), (Message, m)];
            Last(caps, Nick) == Some(nick) && Last(caps, Message) == Some(m) && Last(caps, Source) == Some(source)
  {
    LastOfTwo(nick, m);
    LastOfCons((Source, source), [(Nick, nick), (Message, m)], Nick);
    LastOfCons((Source, source), [(Nick, nick), (Message, m)], Message);
    LastOfCons((Source, source), [(Nick, nick), (Message, m)], Source);
  }

  lemma SlotsOfDefaults()
    ensures INNER[0] == BARE_PIECES[1] == SPACED[2] == CLOSING[3] == SOURCED[4] == TAGGED_PIECES[5]
    ensures INNER[3] == BARE_PIECES[4] == SPACED[5] == CLOSING[6] == SOURCED[7] == TAGGED_PIECES[8]
  {
  }

  lemma NoPattern()
    ensures Templates(None) == [TAGGED, BARE]
  {
    assert Trim("") == "";
  }

  lemma DefaultTemplates()
    ensures Compile(BARE) == Some(BARE_PIECES) && LastSlot(BARE_PIECES) == Some(Message)
    ensures Compile(TAGGED) == Some(TAGGED_PIECES) && LastSlot(TAGGED_PIECES) == Some(Message)
    ensures Templates(None) == [TAGGED, BARE]
  {
    hide Pieces, Templates;
    NoPattern();
    BarePieces();
    TaggedIsSourceThenBare();
    TaggedPieces(BARE);
    SlotsOfDefaults();
    assert Hole(Nick) in BARE_PIECES && Hole(Message) in BARE_PIECES;
    assert Hole(Nick) in TAGGED_PIECES && Hole(Message) in TAGGED_PIECES;
  }

  lemma TaggedIsSourceThenBare()
    ensures TAGGED == "[{source}] " + BARE
  {
  }

  function Bare(nick: string, msg: string): string { "<" + nick + "> " + msg }

  lemma BareMatches(nick: string, m: string)
    requires nick != "" && TakesAll(Nick, nick) && TakesAll(Message, m)
    ensures Match(BARE_PIECES, Bare(nick, m)) == Some([(Nick, nick), (Message, m)])
    ensures Match(TAGGED_PIECES, Bare(nick, m)) == None
  {
    NickMatches(nick, m);
    assert Bare(nick, m)[1..] == nick + "> " + m && BARE_PIECES[1..] == INNER;
  }

  /** What a template gives, from its match. */
  lemma ParseFrom(template: string, ps: seq<Piece>, body: string, caps: Captures, nick: string, msg: string)
    requires Compile(template) == Some(ps) && Match(ps, Strip(body)) == Some(caps)
    requires Last(caps, Nick) == Some(nick) && DropPrefix(nick) != ""
    requires Last(caps, Message).Some? && Display(ps, body, Last(caps, Message).value) == msg
    ensures TryTemplate(template, body) == Some(Parse(Last(caps, Source), DropPrefix(nick), msg))
  {
    hide Compile, Match, Strip, Last, DropPrefix, Display;
  }

  /** A line wrapped as `<nick> message` comes back as its speaker and its message, with the message's
      formatting as it was sent and the speaker's status sign dropped. */
  lemma BareRoundTrip(nick: string, msg: string)
    requires PlainNick(nick) && TakesAll(Message, Strip(msg))
    ensures ParseMessage(Bare(nick, msg), None) == Some(Parse(None, DropPrefix(nick), msg))
  {
    var head := "<" + nick + "> ";
    DefaultTemplates();
    BareHead(nick, msg);
    BareHead(nick, Strip(msg));
    DisplayTail(BARE_PIECES, head, msg);
    BareMatches(nick, Strip(msg));
    LastOfTwo(nick, Strip(msg));
    hide Pieces, Match, Strip, Last, Display, Bare, Compile, DropPrefix, Templates;
    ParseFrom(BARE, BARE_PIECES, Bare(nick, msg), [(Nick, nick), (Message, Strip(msg))], nick, msg);
    assert TryTemplate(TAGGED, Bare(nick, msg)) == None;
    TwoTemplates(Bare(nick, msg));
  }

  lemma BareHead(nick: string, m: string)
    ensures Bare(nick, m) == "<" + nick + "> " + m
    ensures Visible(nick) ==> Visible("<" + nick + "> ")
  {
    if Visible(nick) {
      VisibleConcat("<", nick);
      VisibleConcat("<" + nick, "> ");
    }
  }

  lemma TwoTemplates(body: string)
    ensures FirstParse([TAGGED, BARE], body)
         == if TryTemplate(TAGGED, body).Some? then TryTemplate(TAGGED, body) else TryTemplate(BARE, body)
  {
    hide TryTemplate;
    assert [TAGGED, BARE][1..] == [BARE] && [BARE][1..] == [];
    assert FirstParse([], body) == None;
    assert FirstParse([BARE], body) == TryTemplate(BARE, body);
  }

  function Tagged(source: string, nick: string, msg: string): string { "[" + source + "] " + Bare(nick, msg) }

  lemma TaggedMatches(source: string, nick: string, m: string)
    requires nick != "" && TakesAll(Nick, nick) && TakesAll(Message, m)
    requires source != "" && TakesAll(Source, source) && ']' !in source
    ensures Match(TAGGED_PIECES, Tagged(source, nick, m)) == Some([(Source, source)] + [(Nick, nick), (Message, m)])
  {
    var s := source + "] " + Bare(nick, m);
    assert Tagged(source, nick, m)[1..] == s && TAGGED_PIECES[1..] == SOURCED;
    SourceTaken(source, nick, m);
    forall n: nat | n < |source| ensures Taken(SOURCED, s, n).None? {
      assert SOURCED[1..] == CLOSING && CLOSING[0] == Lit(']') && s[n..][0] == source[n];
    }
    hide Taken, TakesAll, Bare;
    LazyFinds(SOURCED, s, 1, |source|);
    var k := LazyTakes(SOURCED, s, 1);
  }

  lemma SourceTaken(source: string, nick: string, m: string)
    requires nick != "" && TakesAll(Nick, nick) && TakesAll(Message, m)
    requires source != "" && TakesAll(Source, source)
    ensures Taken(SOURCED, source + "] " + Bare(nick, m), |source|)
         == Some([(Source, source)] + [(Nick, nick), (Message, m)])
  {
    var bare := Bare(nick, m);
    BareMatches(nick, m);
    BracketMatches(bare);
    hide Bare, Match;
    var s := source + "] " + bare;
    SplitInThree(source, "] ", bare);
    assert SOURCED[1..] == CLOSING;
  }

  lemma SplitInThree(a: string, b: string, c: string)
    ensures (a + b + c)[..|a|] == a && (a + b + c)[|a|..] == b + c
  {
  }

  lemma BracketMatches(bare: string)
    ensures Match(CLOSING, "] " + bare) == Match(BARE_PIECES, bare)
  {
    assert CLOSING[1..] == SPACED && SPACED[1..] == BARE_PIECES;
    assert ("] " + bare)[1..] == " " + bare && (" " + bare)[1..] == bare;
    assert Match(CLOSING, "] " + bare) == Match(SPACED, " " + bare);
  }

  lemma TaggedHeadVisible(source: string, nick: string)
    requires Visible(source) && Visible(nick)
    ensures Visible("[" + source + "] <" + nick + "> ")
  {
    assert Visible("[") && Visible("] <") && Visible("> ");
    VisibleConcat("[", source);
    VisibleConcat("[" + source, "] <");
    VisibleConcat("[" + source + "] <", nick);
    VisibleConcat("[" + source + "] <" + nick, "> ");
  }

  lemma TaggedHead(source: string, nick: string, m: string)
    ensures Tagged(source, nick, m) == "[" + source + "] <" + nick + "> " + m
  {
    assert "] " + "<" == "] <";
    assert "[" + source + "] " + ("<" + nick + "> " + m) == "[" + source + ("] " + "<") + nick + "> " + m;
  }

  /** Likewise `[source] <nick> message`, for a source without a closing bracket. */
  lemma TaggedRoundTrip(source: string, nick: string, msg: string)
    requires PlainNick(nick) && TakesAll(Message, Strip(msg))
    requires source != "" && Visible(source) && TakesAll(Source, source) && ']' !in source
    ensures ParseMessage(Tagged(source, nick, msg), None) == Some(Parse(Some(source), DropPrefix(nick), msg))
  {
    var head := "[" + source + "] <" + nick + "> ";
    DefaultTemplates();
    TaggedHeadVisible(source, nick);
    DisplayTail(TAGGED_PIECES, head, msg);
    TaggedHead(source, nick, msg);
    TaggedHead(source, nick, Strip(msg));
    TaggedMatches(source, nick, Strip(msg));
    LastOfThree(source, nick, Strip(msg));
    hide Pieces, Match, Strip, Last, Display, Tagged, Compile, DropPrefix, Templates;
    var caps := [(Source, source)] + [(Nick, nick), (Message, Strip(msg))];
    ParseFrom(TAGGED, TAGGED_PIECES, Tagged(source, nick, msg), caps, nick, msg);
    TwoTemplates(Tagged(source, nick, msg));
  }

  // ----- chains -----

  /** Every template a pattern stands for ends in {message}. */
  ghost predicate MessageLast(pattern: Option<string>) {
    forall t <- Templates(pattern) | Compile(t).Some? :: EndsInMessage(Compile(t).value)
  }

  /** A chain: each speaker but the last is a marked bot whose words parse as the next envelope. */
  ghost predicate IsChain(hops: seq<Parse>, marks: string -> Option<string>) {
    forall i | 0 <= i < |hops| - 1 ::
      marks(hops[i].nick).Some? && ParseMessage(hops[i].text, marks(hops[i].nick)) == Some(hops[i + 1])
  }

  /** The innermost source there is. */
  function SourceOf(hops: seq<Parse>, outer: Option<string>): Option<string> {
    if hops == [] then outer
    else SourceOf(hops[1..], if hops[0].source.Some? then hops[0].source else outer)
  }

  lemma {:induction false} UnwrapIsChain(p: Parse, first: Parse, marks: string -> Option<string>, depth: nat) returns (hops: seq<Parse>)
    requires depth <= MAX_RELAY_DEPTH && p.nick == first.nick && p.text == first.text
    ensures 1 <= |hops| <= MAX_RELAY_DEPTH - depth + 1 && hops[0] == first && IsChain(hops, marks)
    ensures var last := hops[|hops| - 1];
            && Unwrap(p, marks, depth) == Parse(SourceOf(hops[1..], p.source), last.nick, last.text)
            && (|hops| <= MAX_RELAY_DEPTH - depth ==> marks(last.nick).None? || ParseMessage(last.text, marks(last.nick)).None?)
    decreases MAX_RELAY_DEPTH - depth
  {
    UnwrapStep(p, marks, depth);
    hide Unwrap, ParseMessage;
    hops := [first];
    assert hops[1..] == [];
    if depth < MAX_RELAY_DEPTH && marks(p.nick).Some? {
      var inner := ParseMessage(p.text, marks(p.nick));
      if inner.Some? {
        var rest := UnwrapIsChain(Deeper(p, inner.value), inner.value, marks, depth + 1);
        hops := [first] + rest;
        assert hops[1..] == rest;
        assert forall i | 0 < i < |hops| - 1 :: hops[i] == rest[i - 1] && hops[i + 1] == rest[i];
      }
    }
  }

  /** What a chain parse is: at most four envelopes, each inside the last, unwrapped until a speaker is
      unmarked or its words are its own; the innermost speaker, words and source win. */
  lemma ChainIsHops(body: string, pattern: Option<string>, marks: string -> Option<string>) returns (hops: seq<Parse>)
    requires ParseChain(body, pattern, marks).Some?
    ensures 1 <= |hops| <= MAX_RELAY_DEPTH && ParseMessage(body, pattern) == Some(hops[0]) && IsChain(hops, marks)
    ensures var last := hops[|hops| - 1];
            && ParseChain(body, pattern, marks) == Some(Parse(SourceOf(hops, None), last.nick, last.text))
            && (|hops| < MAX_RELAY_DEPTH ==> marks(last.nick).None? || ParseMessage(last.text, marks(last.nick)).None?)
  {
    var first := ParseMessage(body, pattern).value;
    hops := UnwrapIsChain(first, first, marks, 1);
    hide ParseMessage, Unwrap;
  }

  /** One hop: the text is a tail of the raw body, what is visible of it a tail of what was visible, and the
      speaker has a name without status signs. */
  lemma {:induction false} FirstParseTail(templates: seq<string>, body: string)
    requires FirstParse(templates, body).Some?
    requires forall t <- templates | Compile(t).Some? :: EndsInMessage(Compile(t).value)
    ensures var p := FirstParse(templates, body).value;
            Suffix(p.text, body) && Suffix(Strip(p.text), Strip(body)) && p.nick != "" && !MemberPrefix(p.nick[0])
    decreases |templates|
  {
    var t := templates[0];
    if TryTemplate(t, body).Some? {
      ParsedText(t, body);
      TextIsRawTail(t, body);
      DropPrefixDone(OrEmpty(Last(Match(Compile(t).value, Strip(body)).value, Nick)));
      hide Compile, Match, Strip, Display, DropPrefix, Captured, Suffix, EndsInMessage, MemberPrefix;
    } else {
      FirstParseTail(templates[1..], body);
    }
  }

  lemma SuffixTransitive(a: string, b: string, c: string)
    requires Suffix(a, b) && Suffix(b, c)
    ensures Suffix(a, c)
  {
    SuffixOfTail(a, c, |c| - |b|);
  }

  lemma {:induction false} HopsAreTails(hops: seq<Parse>, body: string, pattern: Option<string>, marks: string -> Option<string>, i: nat)
    requires i < |hops| && ParseMessage(body, pattern) == Some(hops[0]) && IsChain(hops, marks)
    requires MessageLast(pattern) && forall nick :: marks(nick).Some? ==> MessageLast(marks(nick))
    ensures Suffix(hops[i].text, body) && Suffix(Strip(hops[i].text), Strip(body))
    ensures hops[i].nick != "" && !MemberPrefix(hops[i].nick[0])
  {
    if i == 0 {
      FirstParseTail(Templates(pattern), body);
    } else {
      HopsAreTails(hops, body, pattern, marks, i - 1);
      var outer := hops[i - 1];
      assert MessageLast(marks(outer.nick)) && ParseMessage(outer.text, marks(outer.nick)) == Some(hops[i - 1 + 1]);
      FirstParseTail(Templates(marks(outer.nick)), outer.text);
      hide FirstParse, Templates, Compile, Suffix, Strip, MemberPrefix;
      SuffixTransitive(hops[i].text, outer.text, body);
      SuffixTransitive(Strip(hops[i].text), Strip(outer.text), Strip(body));
    }
  }

  /** Through every hop, the text shown is a tail of the raw line, formatting kept. */
  lemma ChainTextIsRawTail(body: string, pattern: Option<string>, marks: string -> Option<string>)
    requires ParseChain(body, pattern, marks).Some?
    requires MessageLast(pattern) && forall nick :: marks(nick).Some? ==> MessageLast(marks(nick))
    ensures var p := ParseChain(body, pattern, marks).value;
            Suffix(p.text, body) && Suffix(Strip(p.text), Strip(body)) && p.nick != "" && !MemberPrefix(p.nick[0])
  {
    var hops := ChainIsHops(body, pattern, marks);
    HopsAreTails(hops, body, pattern, marks, |hops| - 1);
    hide *;
  }

  /** The built-in formats are among the patterns this holds for. */
  lemma DefaultsEndInMessage()
    ensures MessageLast(None)
  {
    DefaultTemplates();
    hide Compile, Templates;
    assert INNER[3] == BARE_PIECES[4] == SPACED[5] == CLOSING[6] == SOURCED[7] == TAGGED_PIECES[8];
    forall t <- [TAGGED, BARE] ensures Compile(t).Some? && EndsInMessage(Compile(t).value) {
    }
  }
}
