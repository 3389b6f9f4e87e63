/** The level part of the /ignore line, the canonical level list, and the tokenizer (shared/parseIgnore.ts,
    shared/ignoreLevels.ts). */
module IgnoreParse {
  import opened Options
  import opened TextMatch
  import opened Ignores

  // ----- canonical level lists -----

  const CANONICAL_ORDER := [All, Public, Msgs, Notices, Actions, Joins, Parts, Quits, Nicks, Kicks, Modes, Topics, Ctcps,
                            NoHighlight, NoUnread, NoNotify]

  function Filter(order: seq<Level>, s: set<Level>): seq<Level> {
    if order == [] then [] else (if order[0] in s then [order[0]] else []) + Filter(order[1..], s)
  }

  /** In canonical order, each once. */
  function Canonical(s: set<Level>): seq<Level> { Filter(CANONICAL_ORDER, s) }

  lemma {:induction false} FilterIsIn(order: seq<Level>, s: set<Level>)
    ensures forall l :: l in Filter(order, s) <==> l in order && l in s
    decreases |order|
  {
    if order != [] {
      FilterIsIn(order[1..], s);
      assert forall l :: l in order <==> l == order[0] || l in order[1..];
    }
  }

  /** The list holds exactly the set, so equal sets give equal lists and different sets different ones. */
  lemma CanonicalIsTheSet(s: set<Level>)
    ensures forall l :: l in Canonical(s) <==> l in s
  {
    FilterIsIn(CANONICAL_ORDER, s);
    EveryLevelOrdered();
    hide Filter;
  }

  lemma EveryLevelOrdered()
    ensures forall l: Level :: l in CANONICAL_ORDER
  {
    forall l: Level ensures l in CANONICAL_ORDER {
      assert CANONICAL_ORDER[Rank(l)] == l;
    }
  }

  function Rank(l: Level): nat
    ensures Rank(l) < |CANONICAL_ORDER| && CANONICAL_ORDER[Rank(l)] == l
  {
    match l
    case All => 0 case Public => 1 case Msgs => 2 case Notices => 3 case Actions => 4 case Joins => 5 case Parts => 6
    case Quits => 7 case Nicks => 8 case Kicks => 9 case Modes => 10 case Topics => 11 case Ctcps => 12
    case NoHighlight => 13 case NoUnread => 14 case NoNotify => 15
  }

  /** Canonical order, no level twice. */
  ghost predicate Ascending(ls: seq<Level>) {
    forall i, j | 0 <= i < j < |ls| :: Rank(ls[i]) < Rank(ls[j])
  }

  lemma {:induction false} FilterAscends(order: seq<Level>, s: set<Level>)
    requires Ascending(order)
    ensures Ascending(Filter(order, s))
    decreases |order|
  {
    if order != [] {
      FilterAscends(order[1..], s);
      FilterIsIn(order[1..], s);
      var rest := Filter(order[1..], s);
      forall j | 0 <= j < |rest| ensures Rank(order[0]) < Rank(rest[j]) {
        assert rest[j] in rest;
        var k :| 0 < k < |order| && order[k] == rest[j];
      }
    }
  }

  lemma CanonicalAscends(s: set<Level>)
    ensures Ascending(Canonical(s))
  {
    forall i, j | 0 <= i < j < |CANONICAL_ORDER| ensures Rank(CANONICAL_ORDER[i]) < Rank(CANONICAL_ORDER[j]) {
      RankOf(i);
      RankOf(j);
    }
    FilterAscends(CANONICAL_ORDER, s);
  }

  lemma RankOf(i: nat)
    requires i < |CANONICAL_ORDER|
    ensures Rank(CANONICAL_ORDER[i]) == i
  {
  }

  method CanonicalizeLevels(canonicalLevel: string -> Option<Level>, levels: seq<string>) returns (list: seq<Level>)
    ensures list == Canonical(set t | t in levels && canonicalLevel(t).Some? :: canonicalLevel(t).value)
  {
    var found: set<Level> := {};
    for i := 0 to |levels|
      invariant found == set t | t in levels[..i] && canonicalLevel(t).Some? :: canonicalLevel(t).value
    {
      assert levels[..i + 1] == levels[..i] + [levels[i]];
      var c := canonicalLevel(levels[i]);
      if c.Some? {
        found := found + {c.value};
      }
    }
    assert levels[..|levels|] == levels;
    list := Filter(CANONICAL_ORDER, found);
  }

  // ----- resolving the levels of a line -----

  /** A level named on the line, or taken off with a dash. */
  datatype LevelArg = Plus(level: Level) | Minus(level: Level)

  datatype Resolution = Levels(list: seq<Level>) | SubtractsAll | NoLevelsRemain

  const CONCRETE := {Public, Msgs, Notices, Actions, Joins, Parts, Quits, Nicks, Kicks, Modes, Topics, Ctcps}

  function Plusses(args: seq<LevelArg>): set<Level> { set a | a in args && a.Plus? :: a.level }
  function Minuses(args: seq<LevelArg>): set<Level> { set a | a in args && a.Minus? :: a.level }

  function Base(plus: set<Level>): set<Level> { if plus == {} then {All} else plus }

  /** Taking levels off ALL first spells it out. */
  function Remaining(plus: set<Level>, minus: set<Level>): set<Level> {
    var base := Base(plus);
    if minus == {} then base else (if All in base then base - {All} + CONCRETE else base) - minus
  }

  method ResolveLevels(args: seq<LevelArg>) returns (r: Resolution)
    ensures r.SubtractsAll? <==> Minus(All) in args
    ensures r.NoLevelsRemain? <==> Minus(All) !in args && Remaining(Plusses(args), Minuses(args)) == {}
    ensures r.Levels? ==> r.list == Canonical(Remaining(Plusses(args), Minuses(args)))
  {
    var plus, minus: set<Level> := {}, {};
    for i := 0 to |args|
      invariant plus == Plusses(args[..i]) && minus == Minuses(args[..i]) && Minus(All) !in args[..i]
    {
      assert args[..i + 1] == args[..i] + [args[i]];
      match args[i]
      case Plus(l) => plus := plus + {l};
      case Minus(l) =>
        if l == All {
          return SubtractsAll;
        }
        minus := minus + {l};
    }
    assert args[..|args|] == args;
    var left := if plus != {} then plus else {All};
    if minus != {} {
      if All in left {
        left := left - {All};
        left := left + CONCRETE;
      }
      left := left - minus;
    }
    if left == {} {
      return NoLevelsRemain;
    }
    return Levels(Filter(CANONICAL_ORDER, left));
  }

  /** The cells the named levels cover: ALL's types, or the levels' own. */
  ghost predicate BaseCovers(plus: set<Level>, t: Type, dm: bool) {
    if All in Base(plus) then InAll(t) else exists l <- plus :: Covers(l, t, dm)
  }

  /** The concrete levels cut ALL's cells into pieces: each cell lies in exactly one. */
  lemma CellHasOneLevel(t: Type, dm: bool)
    ensures InAll(t) <==> exists l :: Covers(l, t, dm)
    ensures forall a, b | Covers(a, t, dm) && Covers(b, t, dm) :: a == b
    ensures forall a | Covers(a, t, dm) :: a in CONCRETE
  {
    if InAll(t) {
      var l := match t
        case Message => if dm then Msgs else Public
        case Action => Actions
        case Notice => Notices
        case Join => Joins
        case Part => Parts
        case Quit => Quits
        case Chghost => Quits
        case NickChange => Nicks
        case Kick => Kicks
        case Mode => Modes
        case Topic => Topics
        case Unlisted(_) => All;
      assert Covers(l, t, dm);
    }
  }

  /** A rule parsed from a line hides exactly the cells of the levels it names, ALL when it names none, less
      the cells of the levels it takes off. */
  lemma HidesExactlyTheRest(r: Rule, plus: set<Level>, minus: set<Level>, t: Type, dm: bool)
    requires r.levels == Canonical(Remaining(plus, minus)) && All !in minus
    ensures Hides(r) && HideLevel(r, t, dm) <==> BaseCovers(plus, t, dm) && !exists s <- minus :: Covers(s, t, dm)
  {
    CanonicalIsTheSet(Remaining(plus, minus));
    CellHasOneLevel(t, dm);
    hide Canonical, Covers;
    var base := Base(plus);
    if minus != {} && All in base {
      assert All !in r.levels;
      if l :| Covers(l, t, dm) {
        assert l in CONCRETE && (l in minus || l in r.levels);
      }
    }
    if exists l <- r.levels :: Covers(l, t, dm) {
      var l :| l in r.levels && Covers(l, t, dm);
      assert l in CONCRETE && !Modifier(l);
    }
  }

  /** Modifiers are kept unless they are taken off themselves. */
  lemma ModifiersKept(plus: set<Level>, minus: set<Level>, l: Level)
    requires Modifier(l)
    ensures l in Canonical(Remaining(plus, minus)) <==> l in plus && l !in minus
  {
    CanonicalIsTheSet(Remaining(plus, minus));
    hide Canonical;
  }

  /** Taking off every level but CTCPS from ALL leaves a rule that is accepted and hides nothing. */
  lemma CtcpsAloneHidesNothing(r: Rule, t: Type, dm: bool)
    requires r.levels == Canonical(Remaining({}, CONCRETE - {Ctcps}))
    ensures Remaining({}, CONCRETE - {Ctcps}) == {Ctcps} && !HideLevel(r, t, dm)
  {
    OnlyCtcpsRemain();
    CanonicalIsTheSet({Ctcps});
    hide Canonical, Remaining;
    assert !Covers(Ctcps, t, dm);
  }

  lemma OnlyCtcpsRemain()
    ensures Remaining({}, CONCRETE - {Ctcps}) == {Ctcps}
  {
    var minus := CONCRETE - {Ctcps};
    assert Public in minus;
    assert ({All} - {All} + CONCRETE) - minus == {Ctcps};
  }

  // ----- the tokenizer -----

  function SkipSpace(s: string): nat
    ensures SkipSpace(s) <= |s|
    ensures SkipSpace(s) < |s| ==> !Space(s[SkipSpace(s)])
  {
    if s != "" && Space(s[0]) then 1 + SkipSpace(s[1..]) else 0
  }

  /** The length of the run in front of `stop`. */
  function UpTo(s: string, stop: char): nat
    ensures UpTo(s, stop) <= |s|
  {
    if s == "" || s[0] == stop then 0 else 1 + UpTo(s[1..], stop)
  }

  function WordLength(s: string): nat
    ensures WordLength(s) <= |s|
  {
    if s == "" || Space(s[0]) then 0 else 1 + WordLength(s[1..])
  }

  function Depth(depth: int, c: char): int {
    if c == '(' then depth + 1 else if c == ')' then depth - 1 else depth
  }

  /** A group runs to the parenthesis that closes its first, or to the end. */
  function GroupLength(s: string, depth: int): nat
    ensures GroupLength(s, depth) <= |s|
    ensures s != "" ==> GroupLength(s, depth) > 0
  {
    if s == "" then 0
    else if Depth(depth, s[0]) == 0 then 1
    else 1 + GroupLength(s[1..], Depth(depth, s[0]))
  }

  /** The token at the front of a text that starts with no space, and how much of it is used up. */
  function Front(s: string): (r: (string, nat))
    requires s != "" && !Space(s[0])
    ensures 0 < r.1 <= |s|
  {
    if s[0] == '\"' || s[0] == '\'' then
      var n := UpTo(s[1..], s[0]);
      (s[1..1 + n], if 1 + n < |s| then 2 + n else 1 + n)
    else if s[0] == '(' then (s[..GroupLength(s, 0)], GroupLength(s, 0))
    else (s[..WordLength(s)], WordLength(s))
  }

  function Tokens(s: string): seq<string>
    decreases |s|
  {
    var rest := s[SkipSpace(s)..];
    if rest == "" then [] else [Front(rest).0] + Tokens(rest[Front(rest).1..])
  }

  lemma NoTokens(s: string)
    requires s == ""
    ensures Tokens(s) == []
  {
  }

  method Tokenize(s: string) returns (tokens: seq<string>)
    ensures tokens == Tokens(s)
  {
    hide Tokens, Space;
    tokens := [];
    var i := 0;
    assert s[0..] == s;
    NoTokens(s[|s|..]);
    while i < |s|
      invariant i <= |s| && Tokens(s) == tokens + Tokens(s[i..])
    {
      i := PastSpace(s, i);
      if i >= |s| {
        break;
      }
      var buf;
      buf, i := ReadToken(s, i);
      tokens := tokens + [buf];
    }
  }

  method PastSpace(s: string, at: nat) returns (i: nat)
    requires at < |s|
    ensures at <= i <= |s| && Tokens(s[i..]) == Tokens(s[at..])
    ensures i < |s| ==> !Space(s[i])
  {
    i := at;
    while i < |s| && Space(s[i])
      invariant at <= i <= |s| && Tokens(s[i..]) == Tokens(s[at..])
    {
      SpaceDropped(s[i..]);
      assert s[i..][1..] == s[i + 1..];
      i := i + 1;
    }
  }

  lemma SpaceDropped(s: string)
    requires s != "" && Space(s[0])
    ensures Tokens(s) == Tokens(s[1..])
  {
    assert s[SkipSpace(s)..] == s[1..][SkipSpace(s[1..])..];
  }

  method ReadToken(s: string, at: nat) returns (buf: string, next: nat)
    requires at < |s| && !Space(s[at])
    ensures at < next <= |s| && Tokens(s[at..]) == [buf] + Tokens(s[next..])
  {
    hide Front, Tokens, Space;
    if s[at] == '\"' || s[at] == '\'' {
      buf, next := ReadQuoted(s, at);
    } else if s[at] == '(' {
      buf, next := ReadGroup(s, at);
    } else {
      buf, next := ReadWord(s, at);
    }
    FrontIsToken(s[at..]);
    assert s[at..][next - at..] == s[next..];
  }

  lemma FrontIsToken(s: string)
    requires s != "" && !Space(s[0])
    ensures Tokens(s) == [Front(s).0] + Tokens(s[Front(s).1..])
  {
    assert s[0..] == s;
  }

  method ReadQuoted(s: string, at: nat) returns (buf: string, next: nat)
    requires at < |s| && (s[at] == '\"' || s[at] == '\'')
    ensures next <= |s| && buf == Front(s[at..]).0 && next - at == Front(s[at..]).1
  {
    var quote := s[at];
    var i := at + 1;
    buf := "";
    ghost var inner := s[at..][1..];
    assert inner == s[at + 1..];
    while i < |s| && s[i] != quote
      invariant at + 1 <= i <= |s| && buf == s[at + 1..i]
      invariant UpTo(inner, quote) == i - at - 1 + UpTo(s[i..], quote)
    {
      assert s[i..][1..] == s[i + 1..];
      buf := buf + [s[i]];
      i := i + 1;
    }
    next := if i < |s| then i + 1 else i;
    assert s[at..][1..i - at] == s[at + 1..i];
  }

  method ReadGroup(s: string, at: nat) returns (buf: string, next: nat)
    requires at < |s| && s[at] == '('
    ensures next <= |s| && buf == Front(s[at..]).0 && next - at == Front(s[at..]).1
  {
    var depth := 0;
    var i := at;
    buf := "";
    hide GroupLength, Depth, Front;
    while i < |s|
      invariant at <= i <= |s| && buf == s[at..i]
      invariant GroupLength(s[at..], 0) == i - at + GroupLength(s[i..], depth)
    {
      assert s[i..][1..] == s[i + 1..];
      GroupStep(s[i..], depth);
      depth := Depth(depth, s[i]);
      buf := buf + [s[i]];
      i := i + 1;
      if depth == 0 {
        assert GroupLength(s[at..], 0) == i - at;
        break;
      }
    }
    next := i;
    FrontOfGroup(s[at..]);
    assert |s[i..]| == |s| - i;
    assert GroupLength(s[at..], 0) == i - at;
    assert s[at..][..i - at] == s[at..i];
  }

  lemma FrontOfGroup(s: string)
    requires s != "" && s[0] == '('
    ensures Front(s) == (s[..GroupLength(s, 0)], GroupLength(s, 0))
  {
    assert !Space('(');
  }

  lemma GroupStep(s: string, depth: int)
    requires s != ""
    ensures GroupLength(s, depth) == if Depth(depth, s[0]) == 0 then 1 else 1 + GroupLength(s[1..], Depth(depth, s[0]))
  {
  }

  method ReadWord(s: string, at: nat) returns (buf: string, next: nat)
    requires at < |s| && !Space(s[at]) && s[at] != '\"' && s[at] != '\'' && s[at] != '('
    ensures next <= |s| && buf == Front(s[at..]).0 && next - at == Front(s[at..]).1
  {
    var i := at;
    buf := "";
    while i < |s| && !Space(s[i])
      invariant at <= i <= |s| && buf == s[at..i]
      invariant WordLength(s[at..]) == i - at + WordLength(s[i..])
    {
      assert s[i..][1..] == s[i + 1..];
      buf := buf + [s[i]];
      i := i + 1;
    }
    next := i;
    assert s[at..][..i - at] == s[at..i];
  }

  /** Words in double quotes, one space apart. */
  function Quoted(words: seq<string>): string {
    if words == [] then "" else "\"" + words[0] + "\" " + Quoted(words[1..])
  }

  lemma {:induction false} UpToStop(a: string, stop: char, rest: string)
    requires stop !in a
    ensures UpTo(a + [stop] + rest, stop) == |a|
    decreases |a|
  {
    var s := a + [stop] + rest;
    if a != "" {
      assert a[0] in a && s[1..] == a[1..] + [stop] + rest;
      UpToStop(a[1..], stop, rest);
    }
  }

  /** Quoting any words, empty ones and ones with spaces among them, and tokenizing gives them back. */
  lemma {:induction false} QuotedTokens(words: seq<string>)
    requires forall w <- words :: '\"' !in w
    ensures Tokens(Quoted(words)) == words
    decreases |words|
  {
    if words == [] {
      NoTokens("");
    } else {
      QuotedCons(words);
      hide Tokens, Quoted;
      var rest := Quoted(words[1..]);
      QuotedTokens(words[1..]);
      SpaceInFront(rest);
      QuotedFirst(words[0], [' '] + rest);
    }
  }

  lemma QuotedCons(words: seq<string>)
    requires words != []
    ensures Quoted(words) == "\"" + words[0] + "\"" + ([' '] + Quoted(words[1..]))
  {
    assert "\" " == "\"" + [' '];
  }

  lemma QuotedFirst(w: string, tail: string)
    requires '\"' !in w
    ensures Tokens("\"" + w + "\"" + tail) == [w] + Tokens(tail)
  {
    var s := "\"" + w + "\"" + tail;
    assert s[1..] == w + ['\"'] + tail;
    UpToStop(w, '\"', tail);
    assert s[1..1 + |w|] == w && s[0..] == s && s[2 + |w|..] == tail;
    FrontIsToken(s);
  }

  lemma SpaceInFront(s: string)
    ensures Tokens([' '] + s) == Tokens(s)
  {
    SpaceDropped([' '] + s);
    assert ([' '] + s)[1..] == s;
  }

  /** A group closes exactly at its end. */
  ghost predicate Balanced(g: string, depth: int) {
    g != "" && if |g| == 1 then Depth(depth, g[0]) == 0 else Depth(depth, g[0]) != 0 && Balanced(g[1..], Depth(depth, g[0]))
  }

  lemma {:induction false} GroupEnds(g: string, rest: string, depth: int)
    requires Balanced(g, depth)
    ensures GroupLength(g + rest, depth) == |g|
    decreases |g|
  {
    assert (g + rest)[0] == g[0] && (g + rest)[1..] == g[1..] + rest;
    if |g| > 1 {
      GroupEnds(g[1..], rest, Depth(depth, g[0]));
    }
  }

  /** A balanced group is one token, spaces and nested groups inside it included. */
  lemma GroupIsOneToken(g: string, rest: string)
    requires Balanced(g, 0) && g[0] == '('
    ensures Tokens(g + rest) == [g] + Tokens(rest)
  {
    GroupEnds(g, rest, 0);
    var s := g + rest;
    assert s[0..] == s && s[..|g|] == g && s[|g|..] == rest;
    assert s[0] == '(' && !Space('(');
  }
}
