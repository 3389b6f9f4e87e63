/** What the verdict on a line comes to, from what the rules name and match (shared/ignoreMatch.ts,
    shared/ignoreLevels.ts). */
module IgnoreVerdicts {
  import opened Options
  import opened Ignores
  import opened IgnoreParse

  // ----- what a rule names -----

  /** The one level that speaks of this kind of line. */
  function LevelOf(t: Type, dm: bool): Option<Level> {
    match t
    case Message => Some(if dm then Msgs else Public)
    case Action => Some(Actions)
    case Notice => Some(Notices)
    case Join => Some(Joins)
    case Part => Some(Parts)
    case Quit => Some(Quits)
    case Chghost => Some(Quits)
    case NickChange => Some(Nicks)
    case Kick => Some(Kicks)
    case Mode => Some(Modes)
    case Topic => Some(Topics)
    case Unlisted(_) => None
  }

  /** The levels name this kind of line: by its own level, or by ALL. */
  predicate Names(levels: seq<Level>, t: Type, dm: bool) {
    var own := LevelOf(t, dm);
    own.Some? && (All in levels || own.value in levels)
  }

  predicate OnlyModifiers(levels: seq<Level>) {
    forall l <- levels :: l in {NoHighlight, NoUnread, NoNotify}
  }

  lemma NamedIsHidden(r: Rule, t: Type, dm: bool)
    ensures Hides(r) <==> !OnlyModifiers(r.levels)
    ensures Hides(r) ==> (HideLevel(r, t, dm) <==> Names(r.levels, t, dm))
    ensures Names(r.levels, t, dm) ==> Hides(r)
  {
    assert forall l: Level :: Modifier(l) <==> l in {NoHighlight, NoUnread, NoNotify};
    assert forall l: Level :: Covers(l, t, dm) <==> LevelOf(t, dm) == Some(l);
  }

  // ----- what a rule matches -----

  /** An unexpired rule whose mask, channels and pattern, as far as it has them, match the line. */
  ghost predicate Meets(w: World, r: Rule, i: Input, text: string, now: int) {
    && (r.expiresAt.Some? ==> now < r.expiresAt.value)
    && (r.mask.Some? && r.mask.value != "" && r.mask.value != "*" ==> w.mask(r.mask.value, i.sender))
    && (r.channels != [] ==> i.target != "" && exists c <- r.channels :: w.channel(c, i.target))
    && (r.pattern.Some? && r.pattern.value != "" ==> w.text(r.pattern.value, r.kind, text))
  }

  /** The text the patterns see: nothing unless some rule has one. */
  ghost function Seen(w: World, rules: seq<Rule>, i: Input): string {
    if exists r <- rules :: r.pattern.Some? && r.pattern.value != "" then (if i.text == "" then "" else w.clean(i.text)) else ""
  }

  function Length(r: Rule): nat {
    match r.mask case Some(m) => |m| case None => 0
  }

  /** One of the rules has the effect, with a mask longer than that of every exception with the effect. */
  ghost predicate Prevails(rules: seq<Rule>, effect: Rule -> bool) {
    exists r <- rules :: !r.isExcept && effect(r) && forall e <- rules :: e.isExcept && effect(e) ==> Length(e) < Length(r)
  }

  predicate Conversation(t: Type) { t == Type.Message || t == Type.Action }

  /** A line is hidden by the rules that name its kind. A highlight is suppressed, on messages and actions
      only, by NOHIGHLIGHT rules; a notification, on lines of every type, by NONOTIFY rules; where such a rule
      names kinds of lines too, only on those. On each count the longest mask decides, exceptions first. */
  lemma VerdictMeans(w: World, rules: seq<Rule>, i: Input, now: int)
    ensures var v, text := VerdictOf(w, rules, i, now), Seen(w, rules, i);
      && v.hide == Prevails(rules, (r: Rule) => Meets(w, r, i, text, now) && Names(r.levels, i.kind, i.dm))
      && v.nohilight == Prevails(rules, (r: Rule) => Meets(w, r, i, text, now) && NoHighlight in r.levels && Conversation(i.kind)
                                                     && (OnlyModifiers(r.levels) || Names(r.levels, i.kind, i.dm)))
      && v.nonotify == Prevails(rules, (r: Rule) => Meets(w, r, i, text, now) && NoNotify in r.levels
                                                    && (OnlyModifiers(r.levels) || Names(r.levels, i.kind, i.dm)))
  {
    var text := Seen(w, rules, i);
    assert text == TextFor(w, rules, i);
    forall r: Rule
      ensures Relevant(w, r, Hide, i, text, now) <==> Meets(w, r, i, text, now) && Names(r.levels, i.kind, i.dm)
      ensures Relevant(w, r, Nohilight, i, text, now) <==>
                Meets(w, r, i, text, now) && NoHighlight in r.levels && Conversation(i.kind)
                && (OnlyModifiers(r.levels) || Names(r.levels, i.kind, i.dm))
      ensures Relevant(w, r, Nonotify, i, text, now) <==>
                Meets(w, r, i, text, now) && NoNotify in r.levels && (OnlyModifiers(r.levels) || Names(r.levels, i.kind, i.dm))
      ensures MaskLen(r) == Length(r)
    {
      EffectOfRule(w, r, i, text, now);
    }
    hide Relevant, Meets, Names, OnlyModifiers, Seen, TextFor, MaskLen, Length;
  }

  lemma EffectOfRule(w: World, r: Rule, i: Input, text: string, now: int)
    ensures Relevant(w, r, Hide, i, text, now) <==> Meets(w, r, i, text, now) && Names(r.levels, i.kind, i.dm)
    ensures Relevant(w, r, Nohilight, i, text, now) <==>
              Meets(w, r, i, text, now) && NoHighlight in r.levels && Conversation(i.kind)
              && (OnlyModifiers(r.levels) || Names(r.levels, i.kind, i.dm))
    ensures Relevant(w, r, Nonotify, i, text, now) <==>
              Meets(w, r, i, text, now) && NoNotify in r.levels && (OnlyModifiers(r.levels) || Names(r.levels, i.kind, i.dm))
  {
    NamedIsHidden(r, i.kind, i.dm);
    hide Hides, HideLevel, Names, OnlyModifiers;
  }

  // ----- single rules -----

  /** A rule that is live and matches by name alone. */
  predicate Everyone(r: Rule, now: int) {
    r.mask.None? && r.channels == [] && r.pattern.None? && !r.isExcept && (r.expiresAt.Some? ==> now < r.expiresAt.value)
  }

  /** What one such rule does, whatever levels it names. */
  lemma OneRule(w: World, r: Rule, i: Input, now: int)
    requires Everyone(r, now)
    ensures var bounded := OnlyModifiers(r.levels) || Names(r.levels, i.kind, i.dm);
      VerdictOf(w, [r], i, now)
      == Verdict(Names(r.levels, i.kind, i.dm),
                 NoHighlight in r.levels && bounded && (i.kind == Type.Message || i.kind == Type.Action),
                 NoNotify in r.levels && bounded)
  {
    VerdictMeans(w, [r], i, now);
    assert [r][0] == r;
    hide VerdictOf, Names, OnlyModifiers, Seen;
  }

  /** NOHIGHLIGHT alone silences the highlights of messages and actions, and nothing else; NOUNREAD alone does
      nothing to a line. */
  lemma ModifiersAlone(w: World, r: Rule, i: Input, now: int)
    requires Everyone(r, now)
    ensures r.levels == [NoHighlight] ==>
              VerdictOf(w, [r], i, now) == Verdict(false, i.kind == Type.Message || i.kind == Type.Action, false)
    ensures r.levels == [NoUnread] ==> VerdictOf(w, [r], i, now) == Verdict(false, false, false)
    ensures r.levels == [NoNotify] ==> VerdictOf(w, [r], i, now) == Verdict(false, false, true)
  {
    OneRule(w, r, i, now);
    var own := LevelOf(i.kind, i.dm);
    assert own.Some? ==> own.value !in {NoHighlight, NoUnread, NoNotify, All};
    hide VerdictOf;
  }

  /** With kinds of lines beside it, NOHIGHLIGHT acts on those alone. */
  lemma BoundedModifier(w: World, r: Rule, l: Level, i: Input, now: int)
    requires Everyone(r, now) && r.levels == [l, NoHighlight] && l !in {NoHighlight, NoUnread, NoNotify, All}
    ensures VerdictOf(w, [r], i, now)
         == Verdict(LevelOf(i.kind, i.dm) == Some(l),
                    LevelOf(i.kind, i.dm) == Some(l) && (i.kind == Type.Message || i.kind == Type.Action), false)
  {
    OneRule(w, r, i, now);
    NamesOne(r.levels, l, i.kind, i.dm);
    hide VerdictOf, Names, LevelOf, OnlyModifiers;
    assert r.levels[1] == NoHighlight && forall x <- r.levels :: x != NoNotify;
  }

  lemma NamesOne(levels: seq<Level>, l: Level, t: Type, dm: bool)
    requires levels == [l, NoHighlight] && l !in {NoHighlight, NoUnread, NoNotify, All}
    ensures !OnlyModifiers(levels) && (Names(levels, t, dm) <==> LevelOf(t, dm) == Some(l))
  {
    assert forall x :: x in levels <==> x == l || x == NoHighlight;
    assert l in levels;
  }

  /** No effect without a rule that names it. */
  lemma EffectsAreNamed(w: World, rules: seq<Rule>, i: Input, now: int)
    ensures var v := VerdictOf(w, rules, i, now);
      && (v.hide ==> exists r <- rules :: !r.isExcept && Names(r.levels, i.kind, i.dm))
      && (v.nohilight ==> Conversation(i.kind) && exists r <- rules :: !r.isExcept && NoHighlight in r.levels)
      && (v.nonotify ==> exists r <- rules :: !r.isExcept && NoNotify in r.levels)
  {
    VerdictMeans(w, rules, i, now);
    hide VerdictOf, Names, OnlyModifiers, Seen, Meets, Conversation;
  }

  // ----- the levels of a parsed rule -----

  const KINDS := {Public, Msgs, Notices, Actions, Joins, Parts, Quits, Nicks, Kicks, Modes, Topics, Ctcps}

  /** The levels an argument list names are those it adds, and those it takes off those it subtracts. */
  lemma ArgsName(args: seq<LevelArg>, l: Level)
    ensures l in Plusses(args) <==> Plus(l) in args
    ensures l in Minuses(args) <==> Minus(l) in args
  {
  }

  /** The levels a rule ends with: those named, ALL when none is; taking some off ALL leaves the others one by
      one. */
  lemma ParsedLevels(plus: set<Level>, minus: set<Level>, l: Level)
    ensures l in Canonical(Remaining(plus, minus)) <==>
              if minus == {} then (if plus == {} then l == All else l in plus)
              else l !in minus && (if plus == {} then l in KINDS else if All in plus then (l in plus && l != All) || l in KINDS else l in plus)
  {
    CanonicalIsTheSet(Remaining(plus, minus));
    hide Canonical;
  }

  /** So a parsed rule names the kinds of lines it was given, all when it was given no level at all, less those
      taken off. */
  lemma ParsedNames(plus: set<Level>, minus: set<Level>, t: Type, dm: bool)
    requires All !in minus
    ensures var own := LevelOf(t, dm);
            Names(Canonical(Remaining(plus, minus)), t, dm) <==>
              own.Some? && (plus == {} || All in plus || own.value in plus) && own.value !in minus
  {
    var own := LevelOf(t, dm);
    forall l ensures l in Canonical(Remaining(plus, minus)) <==>
                       if minus == {} then (if plus == {} then l == All else l in plus)
                       else l !in minus && (if plus == {} then l in KINDS else if All in plus then (l in plus && l != All) || l in KINDS else l in plus) {
      ParsedLevels(plus, minus, l);
    }
    assert own.Some? ==> own.value in KINDS;
    hide Canonical, Remaining;
  }

  /** The order levels are stored in. */
  lemma StoredOrder(s: set<Level>)
    requires forall l: Level :: l in s
    ensures Canonical(s)
         == [All, Public, Msgs, Notices, Actions, Joins, Parts, Quits, Nicks, Kicks, Modes, Topics, Ctcps, NoHighlight, NoUnread, NoNotify]
  {
    EverythingStays(CANONICAL_ORDER, s);
  }

  lemma {:induction false} EverythingStays(order: seq<Level>, s: set<Level>)
    requires forall l: Level :: l in s
    ensures Filter(order, s) == order
  {
    if order != [] {
      EverythingStays(order[1..], s);
    }
  }

  // ----- nicklist and badge -----

  /** What hides a member, and what mutes a buffer. */
  lemma MemberAndBuffer(w: World, r: Rule, s: Sender, channel: string, now: int)
    ensures HidesMember(w, r, s, channel, now) <==>
              All in r.levels && !r.isExcept && (r.pattern.None? || r.pattern.value == "")
              && Meets(w, r, Input(s, channel, "", Join, false), "", now)
    ensures MutesBuffer(w, r, channel, now) <==>
              NoUnread in r.levels && !r.isExcept && (r.pattern.None? || r.pattern.value == "")
              && (r.mask.None? || r.mask.value == "" || r.mask.value == "*")
              && Meets(w, r, Input(Sender(None, None), channel, "", Join, false), "", now)
  {
  }
}
