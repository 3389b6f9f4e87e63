/** Ignore rules (shared/ignoreMatch.ts, shared/ignoreLevels.ts): levels and the (type, dm) cells they cover,
    and the longest-mask-wins verdict. */
module Ignores {
  import opened Options

  datatype Type = Message | Action | Notice | Join | Part | Quit | NickChange | Kick | Mode | Topic | Chghost | Unlisted(name: string)

  datatype Level =
    | All | Public | Msgs | Notices | Actions | Joins | Parts | Quits | Nicks | Kicks | Modes | Topics | Ctcps
    | NoHighlight | NoUnread | NoNotify

  predicate Modifier(l: Level) { l.NoHighlight? || l.NoUnread? || l.NoNotify? }

  /** ALL's types: everything with a sender to ignore. */
  predicate InAll(t: Type) { !t.Unlisted? }

  predicate Highlightable(t: Type) { t.Message? || t.Action? }

  /** LEVEL_DEFS: a message is public or private, host changes ride with quits, CTCPs cover nothing. */
  predicate Covers(l: Level, t: Type, dm: bool) {
    match l
    case Public => t.Message? && !dm
    case Msgs => t.Message? && dm
    case Notices => t.Notice?
    case Actions => t.Action?
    case Joins => t.Join?
    case Parts => t.Part?
    case Quits => t.Quit? || t.Chghost?
    case Nicks => t.NickChange?
    case Kicks => t.Kick?
    case Modes => t.Mode?
    case Topics => t.Topic?
    case _ => false
  }

  datatype PatternKind = Substr | Full | Regex

  datatype Rule = Rule(mask: Option<string>, channels: seq<string>, pattern: Option<string>, kind: PatternKind,
                       levels: seq<Level>, isExcept: bool, expiresAt: Option<int>)

  datatype Sender = Sender(nick: Option<string>, userhost: Option<string>)

  datatype Input = Input(sender: Sender, target: string, text: string, kind: Type, dm: bool)

  /** What the rules are matched with: a mask against a sender, a channel glob against a target, a pattern
      against cleaned text, and the cleaning. */
  datatype World = World(mask: (string, Sender) -> bool, channel: (string, string) -> bool,
                         text: (string, PatternKind, string) -> bool, clean: string -> string)

  // ----- one rule -----

  predicate Hides(r: Rule) { exists l <- r.levels :: !Modifier(l) }

  predicate HideLevel(r: Rule, t: Type, dm: bool) {
    if All in r.levels then InAll(t) else exists l <- r.levels :: Covers(l, t, dm)
  }

  predicate Anyone(r: Rule) { r.mask.None? || r.mask.value == "" || r.mask.value == "*" }

  predicate HasPattern(r: Rule) { r.pattern.Some? && r.pattern.value != "" }

  predicate MatchesNick(w: World, r: Rule, s: Sender) { Anyone(r) || w.mask(r.mask.value, s) }

  predicate MatchesChannel(w: World, r: Rule, target: string) {
    r.channels == [] || (target != "" && exists c <- r.channels :: w.channel(c, target))
  }

  predicate MatchesText(w: World, r: Rule, text: string) { HasPattern(r) ==> w.text(r.pattern.value, r.kind, text) }

  function MaskLen(r: Rule): nat { if r.mask.Some? then |r.mask.value| else 0 }

  predicate Live(r: Rule, now: int) { r.expiresAt.None? || now < r.expiresAt.value }

  datatype Aspect = Hide | Nohilight | Nonotify

  /** Which aspect of a line a rule speaks to. */
  predicate Applies(r: Rule, a: Aspect, t: Type, dm: bool) {
    match a
    case Hide => Hides(r) && HideLevel(r, t, dm)
    case Nohilight => NoHighlight in r.levels && Highlightable(t) && (Hides(r) ==> HideLevel(r, t, dm))
    case Nonotify => NoNotify in r.levels && (Hides(r) ==> HideLevel(r, t, dm))
  }

  /** An unexpired rule that speaks to this aspect of this line. */
  predicate Relevant(w: World, r: Rule, a: Aspect, i: Input, text: string, now: int) {
    && Live(r, now) && Applies(r, a, i.kind, i.dm)
    && MatchesNick(w, r, i.sender) && MatchesChannel(w, r, i.target) && MatchesText(w, r, text)
  }

  // ----- the verdict -----

  datatype Verdict = Verdict(hide: bool, nohilight: bool, nonotify: bool)

  /** Cleaned only when there is text and some rule looks at it. */
  function TextFor(w: World, rules: seq<Rule>, i: Input): string {
    if i.text != "" && exists r <- rules :: HasPattern(r) then w.clean(i.text) else ""
  }

  /** What the verdict means: some relevant rule has a longer mask than every relevant exception. */
  ghost predicate Wins(w: World, rules: seq<Rule>, a: Aspect, i: Input, text: string, now: int) {
    exists r <- rules ::
      && Relevant(w, r, a, i, text, now) && !r.isExcept
      && forall e <- rules :: Relevant(w, e, a, i, text, now) && e.isExcept ==> MaskLen(e) < MaskLen(r)
  }

  /** `best` is the longest mask among the relevant rules on one side, -1 with none. */
  ghost predicate IsBest(w: World, rules: seq<Rule>, a: Aspect, side: bool, i: Input, text: string, now: int, best: int) {
    && (forall r <- rules :: Relevant(w, r, a, i, text, now) && r.isExcept == side ==> MaskLen(r) <= best)
    && (best == -1 || exists r <- rules :: Relevant(w, r, a, i, text, now) && r.isExcept == side && MaskLen(r) == best)
    && best >= -1
  }

  lemma BestDecides(w: World, rules: seq<Rule>, a: Aspect, i: Input, text: string, now: int, best: int, except: int)
    requires IsBest(w, rules, a, false, i, text, now, best) && IsBest(w, rules, a, true, i, text, now, except)
    ensures best >= 0 && except < best <==> Wins(w, rules, a, i, text, now)
  {
    hide Relevant;
    if best >= 0 && except < best {
      var r :| r in rules && Relevant(w, r, a, i, text, now) && r.isExcept == false && MaskLen(r) == best;
    }
    if Wins(w, rules, a, i, text, now) {
      var r :| r in rules && Relevant(w, r, a, i, text, now) && !r.isExcept
        && forall e <- rules :: Relevant(w, e, a, i, text, now) && e.isExcept ==> MaskLen(e) < MaskLen(r);
      if except >= 0 {
        var e :| e in rules && Relevant(w, e, a, i, text, now) && e.isExcept == true && MaskLen(e) == except;
      }
    }
  }

  /** One more rule. */
  function Raise(best: int, r: Rule, counts: bool): int {
    if counts && MaskLen(r) > best then MaskLen(r) else best
  }

  lemma RaiseKeepsBest(w: World, rules: seq<Rule>, r: Rule, a: Aspect, side: bool, i: Input, text: string, now: int, best: int)
    requires IsBest(w, rules, a, side, i, text, now, best)
    ensures IsBest(w, rules + [r], a, side, i, text, now, Raise(best, r, Relevant(w, r, a, i, text, now) && r.isExcept == side))
  {
    hide Relevant;
    var more := rules + [r];
    var next := Raise(best, r, Relevant(w, r, a, i, text, now) && r.isExcept == side);
    if best != -1 {
      var b :| b in rules && Relevant(w, b, a, i, text, now) && b.isExcept == side && MaskLen(b) == best;
      assert b in more;
    }
    assert r in more;
  }

  method EvaluateIgnores(w: World, compiled: seq<Rule>, i: Input, now: int) returns (v: Verdict)
    ensures var text := TextFor(w, compiled, i);
            && v.hide == Wins(w, compiled, Hide, i, text, now)
            && v.nohilight == Wins(w, compiled, Nohilight, i, text, now)
            && v.nonotify == Wins(w, compiled, Nonotify, i, text, now)
  {
    if compiled == [] {
      return Verdict(false, false, false);
    }
    var text := TextFor(w, compiled, i);
    var bestHide, bestHideExcept := -1, -1;
    var bestNo, bestNoExcept := -1, -1;
    var bestNotify, bestNotifyExcept := -1, -1;
    hide Relevant, IsBest, Wins, TextFor, Applies;
    assert compiled[..0] == [];
    NoneBest(w, i, text, now);
    for n := 0 to |compiled|
      invariant IsBest(w, compiled[..n], Hide, false, i, text, now, bestHide)
      invariant IsBest(w, compiled[..n], Hide, true, i, text, now, bestHideExcept)
      invariant IsBest(w, compiled[..n], Nohilight, false, i, text, now, bestNo)
      invariant IsBest(w, compiled[..n], Nohilight, true, i, text, now, bestNoExcept)
      invariant IsBest(w, compiled[..n], Nonotify, false, i, text, now, bestNotify)
      invariant IsBest(w, compiled[..n], Nonotify, true, i, text, now, bestNotifyExcept)
    {
      var r := compiled[n];
      assert compiled[..n + 1] == compiled[..n] + [r];
      bestHide, bestHideExcept := Step(w, compiled[..n], r, Hide, i, text, now, bestHide, bestHideExcept);
      bestNo, bestNoExcept := Step(w, compiled[..n], r, Nohilight, i, text, now, bestNo, bestNoExcept);
      bestNotify, bestNotifyExcept := Step(w, compiled[..n], r, Nonotify, i, text, now, bestNotify, bestNotifyExcept);
    }
    assert compiled[..|compiled|] == compiled;
    BestDecides(w, compiled, Hide, i, text, now, bestHide, bestHideExcept);
    BestDecides(w, compiled, Nohilight, i, text, now, bestNo, bestNoExcept);
    BestDecides(w, compiled, Nonotify, i, text, now, bestNotify, bestNotifyExcept);
    v := Verdict(bestHide >= 0 && bestHideExcept < bestHide, bestNo >= 0 && bestNoExcept < bestNo,
                 bestNotify >= 0 && bestNotifyExcept < bestNotify);
  }

  /** One aspect of one rule: an expired, silent or unmatched rule is passed over, the rest raise a side. */
  method Step(w: World, ghost before: seq<Rule>, r: Rule, a: Aspect, i: Input, text: string, now: int, best: int, except: int)
    returns (best': int, except': int)
    requires IsBest(w, before, a, false, i, text, now, best) && IsBest(w, before, a, true, i, text, now, except)
    ensures IsBest(w, before + [r], a, false, i, text, now, best') && IsBest(w, before + [r], a, true, i, text, now, except')
  {
    RaiseKeepsBest(w, before, r, a, false, i, text, now, best);
    RaiseKeepsBest(w, before, r, a, true, i, text, now, except);
    hide IsBest;
    best', except' := best, except;
    if r.expiresAt.Some? && r.expiresAt.value <= now {
      return;
    }
    if !Applies(r, a, i.kind, i.dm) || !MatchesNick(w, r, i.sender) || !MatchesChannel(w, r, i.target) || !MatchesText(w, r, text) {
      return;
    }
    if r.isExcept {
      if MaskLen(r) > except {
        except' := MaskLen(r);
      }
    } else if MaskLen(r) > best {
      best' := MaskLen(r);
    }
  }

  lemma NoneBest(w: World, i: Input, text: string, now: int)
    ensures forall a, side :: IsBest(w, [], a, side, i, text, now, -1)
  {
  }

  // ----- what the verdict depends on -----

  ghost function VerdictOf(w: World, rules: seq<Rule>, i: Input, now: int): Verdict {
    var text := TextFor(w, rules, i);
    Verdict(Wins(w, rules, Hide, i, text, now), Wins(w, rules, Nohilight, i, text, now), Wins(w, rules, Nonotify, i, text, now))
  }

  /** Only the unexpired rules matter, not their order nor how often each is there: an expired rule that
      alone looks at the text changes nothing, though it makes the text be cleaned. */
  lemma OnlyLiveRulesMatter(w: World, a: seq<Rule>, b: seq<Rule>, i: Input, now: int)
    requires forall r: Rule | Live(r, now) :: r in a <==> r in b
    ensures VerdictOf(w, a, i, now) == VerdictOf(w, b, i, now)
  {
    forall aspect: Aspect ensures Wins(w, a, aspect, i, TextFor(w, a, i), now) == Wins(w, b, aspect, i, TextFor(w, b, i), now) {
      SameRelevant(w, a, b, aspect, i, now);
      SameRelevant(w, b, a, aspect, i, now);
      WinsFrom(w, a, b, aspect, i, now);
      WinsFrom(w, b, a, aspect, i, now);
    }
  }

  lemma SameRelevant(w: World, a: seq<Rule>, b: seq<Rule>, aspect: Aspect, i: Input, now: int)
    requires forall r: Rule | Live(r, now) :: r in a <==> r in b
    ensures forall r <- a | Relevant(w, r, aspect, i, TextFor(w, a, i), now) :: r in b && Relevant(w, r, aspect, i, TextFor(w, b, i), now)
  {
    forall r <- a | Relevant(w, r, aspect, i, TextFor(w, a, i), now)
      ensures r in b && Relevant(w, r, aspect, i, TextFor(w, b, i), now)
    {
      assert Live(r, now);
      if HasPattern(r) {
        assert TextFor(w, a, i) == TextFor(w, b, i);
      }
    }
  }

  lemma WinsFrom(w: World, a: seq<Rule>, b: seq<Rule>, aspect: Aspect, i: Input, now: int)
    requires forall r <- a | Relevant(w, r, aspect, i, TextFor(w, a, i), now) :: r in b && Relevant(w, r, aspect, i, TextFor(w, b, i), now)
    requires forall r <- b | Relevant(w, r, aspect, i, TextFor(w, b, i), now) :: r in a && Relevant(w, r, aspect, i, TextFor(w, a, i), now)
    ensures Wins(w, a, aspect, i, TextFor(w, a, i), now) ==> Wins(w, b, aspect, i, TextFor(w, b, i), now)
  {
    hide Relevant, TextFor;
  }

  // ----- nicklists and badges -----

  ghost predicate HidesMember(w: World, r: Rule, s: Sender, channel: string, now: int) {
    !r.isExcept && !HasPattern(r) && All in r.levels && Live(r, now) && MatchesChannel(w, r, channel) && MatchesNick(w, r, s)
  }

  method IsMemberHidden(w: World, compiled: seq<Rule>, s: Sender, channel: string, now: int) returns (hidden: bool)
    ensures hidden <==> exists r <- compiled :: HidesMember(w, r, s, channel, now)
  {
    for n := 0 to |compiled|
      invariant forall r <- compiled[..n] :: !HidesMember(w, r, s, channel, now)
    {
      var r := compiled[n];
      assert compiled[..n + 1] == compiled[..n] + [r];
      if r.isExcept || HasPattern(r) || All !in r.levels {
        continue;
      }
      if r.expiresAt.Some? && r.expiresAt.value <= now {
        continue;
      }
      if !MatchesChannel(w, r, channel) {
        continue;
      }
      if MatchesNick(w, r, s) {
        assert r in compiled && HidesMember(w, r, s, channel, now);
        return true;
      }
    }
    assert compiled[..|compiled|] == compiled;
    return false;
  }

  ghost predicate MutesBuffer(w: World, r: Rule, channel: string, now: int) {
    !r.isExcept && !HasPattern(r) && NoUnread in r.levels && Anyone(r) && Live(r, now) && MatchesChannel(w, r, channel)
  }

  method ChannelMutesUnread(w: World, compiled: seq<Rule>, channel: string, now: int) returns (muted: bool)
    ensures muted <==> exists r <- compiled :: MutesBuffer(w, r, channel, now)
  {
    for n := 0 to |compiled|
      invariant forall r <- compiled[..n] :: !MutesBuffer(w, r, channel, now)
    {
      var r := compiled[n];
      assert compiled[..n + 1] == compiled[..n] + [r];
      if r.isExcept || HasPattern(r) || NoUnread !in r.levels || !Anyone(r) {
        continue;
      }
      if r.expiresAt.Some? && r.expiresAt.value <= now {
        continue;
      }
      if MatchesChannel(w, r, channel) {
        assert r in compiled && MutesBuffer(w, r, channel, now);
        return true;
      }
    }
    assert compiled[..|compiled|] == compiled;
    return false;
  }

  /** A member hidden from the nicklist has nothing to say there: every line they send to the channel, of
      any type and text, is hidden too, unless an exception speaks for it. */
  lemma HiddenMemberIsSilent(w: World, rules: seq<Rule>, r: Rule, i: Input, now: int)
    requires r in rules && HidesMember(w, r, i.sender, i.target, now) && InAll(i.kind)
    ensures VerdictOf(w, rules, i, now).hide
            || exists e <- rules :: e.isExcept && Relevant(w, e, Hide, i, TextFor(w, rules, i), now) && MaskLen(e) >= MaskLen(r)
  {
    assert Relevant(w, r, Hide, i, TextFor(w, rules, i), now);
    hide TextFor, Relevant;
  }

  /** The nicklist does not ask the exceptions: someone whose lines an exception lets through can still be
      missing from it. */
  lemma ExceptionShowsLinesNotMember(i: Input, now: int)
    requires i.sender == Sender(Some("bob"), None) && InAll(i.kind)
    ensures exists w: World, rules: seq<Rule> ::
              (exists r <- rules :: HidesMember(w, r, i.sender, i.target, now)) && !VerdictOf(w, rules, i, now).hide
  {
    var w := World((mask, s) => true, (c, t) => true, (p, k, t) => true, t => t);
    var everyone := Rule(None, [], None, Substr, [All], false, None);
    var bob := Rule(Some("bob"), [], None, Substr, [All], true, None);
    var rules := [everyone, bob];
    assert bob.levels[0] == All && everyone.levels[0] == All;
    assert rules[0] == everyone && HidesMember(w, everyone, i.sender, i.target, now);
    assert rules[1] == bob && Relevant(w, bob, Hide, i, TextFor(w, rules, i), now);
    assert !VerdictOf(w, rules, i, now).hide;
  }

  // ----- muting -----

  /** Muting a buffer for everyone: one NONOTIFY rule without mask, pattern or exception silences every line
      it covers, whatever its type, and hides none. */
  lemma MuteSilencesEveryType(w: World, r: Rule, i: Input, now: int)
    requires r.levels == [NoNotify] && r.mask.None? && r.pattern.None? && !r.isExcept && Live(r, now) && MatchesChannel(w, r, i.target)
    ensures VerdictOf(w, [r], i, now) == Verdict(false, false, true)
  {
    var text := TextFor(w, [r], i);
    assert r.levels[0] == NoNotify && [r][0] == r;
    assert Relevant(w, r, Nonotify, i, text, now);
    assert Wins(w, [r], Nonotify, i, text, now);
    assert forall l <- r.levels :: l == NoNotify;
    assert !Hides(r) && NoHighlight !in r.levels;
  }
}
