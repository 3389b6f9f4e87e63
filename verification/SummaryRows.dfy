/** What a summary row shows of its run, and which rows fold or count, field by field (shared/consolidate.ts,
    shared/eventFilter.ts). */
module SummaryRows {
  import opened Options
  import opened Modes
  import opened Consolidate
  import opened StreamFolding

  /** Joins, parts, quits, nick and host changes fold, and a mode message whose changes are all a member's
      status; nothing else does. */
  lemma FoldsWhen(m: Message)
    ensures FoldsIntoRun(m) <==>
            || m.event == Join || m.event == Part || m.event == Quit || m.event == NickChange || m.event == Chghost
            || (m.event == Mode && m.modes.Some? && m.modes.value != []
                && forall c <- m.modes.value :: c.kind == Some(PrefixMode) && c.param.Some? && c.param.value != "")
  {
  }

  /** The page budget: a renderable page counts what does not fold, a chat page neither that nor any mode
      message, an event page everything. */
  lemma CountsWhen(m: Message)
    ensures CountsTowardPage(m, RenderableUnit) <==> !FoldsIntoRun(m)
    ensures CountsTowardPage(m, ChatUnit) <==> !FoldsIntoRun(m) && m.event != Mode
    ensures CountsTowardPage(m, EventUnit)
  {
  }

  lemma {:induction false} EventsAt(run: seq<Row>, i: nat)
    requires AllFold(run) && i < |run|
    ensures Events(run)[i] == run[i].m.value
  {
    if i > 0 {
      EventsAt(run[1..], i - 1);
    }
  }

  /** A summary row carries its number of events, the time and id of the last, the id of the first, and a
      key made of the keys at its ends. */
  lemma SummaryReads(lc: Fold, opts: RunOptions, run: seq<Row>)
    requires AllFold(run) && run != []
    ensures var s, first, last := SummaryOf(lc, opts, run), run[0].m.value, run[|run| - 1].m.value;
            && s.Summary? && s.eventCount == |run| && s.groups == RunGroups(lc, opts, Events(run))
            && s.time == last.time && s.firstId == first.id && s.lastId == last.id
            && s.key == "cons:" + run[0].key + "-" + run[|run| - 1].key
    ensures forall i | 0 <= i < |run| :: Events(run)[i] == run[i].m.value
  {
    forall i | 0 <= i < |run| ensures Events(run)[i] == run[i].m.value {
      EventsAt(run, i);
    }
    hide RunGroups;
  }

  // ----- which names are shown -----

  ghost predicate Ascending(at: seq<nat>, n: nat) {
    (forall i | 0 <= i < |at| :: at[i] < n) && (forall i, j | 0 <= i < j < |at| :: at[i] < at[j])
  }

  /** `at` are the places in s of what the filter keeps. */
  ghost predicate Picks<T>(keep: T -> bool, s: seq<T>, at: seq<nat>) {
    && Ascending(at, |s|) && |at| == |Filter(keep, s)|
    && (forall i | 0 <= i < |at| :: Filter(keep, s)[i] == s[at[i]])
    && (forall i: nat | i < |s| :: i in at <==> keep(s[i]))
  }

  lemma {:induction false} FilterPicks<T>(keep: T -> bool, s: seq<T>) returns (at: seq<nat>)
    ensures Picks(keep, s, at)
  {
    at := [];
    if s != [] {
      hide Picks;
      var rest := FilterPicks(keep, s[1..]);
      var later := seq(|rest|, i requires 0 <= i < |rest| => rest[i] + 1);
      Shifted(rest, later);
      if keep(s[0]) {
        at := [0] + later;
        PicksKept(keep, s, rest, later);
      } else {
        at := later;
        PicksDropped(keep, s, rest, later);
      }
    }
  }

  lemma PicksKept<T>(keep: T -> bool, s: seq<T>, rest: seq<nat>, later: seq<nat>)
    requires s != [] && Picks(keep, s[1..], rest) && keep(s[0])
    requires |later| == |rest| && forall i | 0 <= i < |rest| :: later[i] == rest[i] + 1
    ensures Picks(keep, s, [0] + later)
  {
    FilterStep(keep, s);
    Shifted(rest, later);
    hide Filter;
    var at := [0] + later;
    forall i: nat | i < |s| ensures i in at <==> keep(s[i]) {
      assert i in at <==> i == 0 || i in later;
      assert i > 0 ==> s[i] == s[1..][i - 1];
    }
  }

  lemma PicksDropped<T>(keep: T -> bool, s: seq<T>, rest: seq<nat>, later: seq<nat>)
    requires s != [] && Picks(keep, s[1..], rest) && !keep(s[0])
    requires |later| == |rest| && forall i | 0 <= i < |rest| :: later[i] == rest[i] + 1
    ensures Picks(keep, s, later)
  {
    FilterStep(keep, s);
    Shifted(rest, later);
    hide Filter;
    assert [] + Filter(keep, s[1..]) == Filter(keep, s[1..]);
    forall i: nat | i < |s| ensures i in later <==> keep(s[i]) {
      assert i > 0 ==> s[i] == s[1..][i - 1];
    }
  }

  lemma FilterStep<T>(keep: T -> bool, s: seq<T>)
    requires s != []
    ensures Filter(keep, s) == (if keep(s[0]) then [s[0]] else []) + Filter(keep, s[1..])
  {
  }

  lemma Shifted(at: seq<nat>, later: seq<nat>)
    requires |later| == |at| && forall i | 0 <= i < |at| :: later[i] == at[i] + 1
    ensures forall i: nat | i > 0 :: i in later <==> i - 1 in at
    ensures 0 !in later
  {
    forall i: nat | i > 0 ensures i in later <==> i - 1 in at {
      if i - 1 in at {
        var k :| 0 <= k < |at| && at[k] == i - 1;
        assert later[k] == i;
      }
    }
  }

  /** Somebody who spoke of late, by the name they are shown under. */
  ghost predicate Spoke(lc: Fold, opts: RunOptions, e: Entry) {
    opts.recentSpeakers.Some?
    && exists s <- opts.recentSpeakers.value :: lc(s) == lc(match e case NickEntry(nick) => nick case RenameEntry(_, to) => to)
  }

  function Limit(maxNames: int): nat {
    if maxNames > 0 then maxNames else if maxNames == 0 then 5 else 1
  }

  /** A group of more names than the limit shows that many of them, recent speakers before the others and
      both in their old order, and counts the rest; a smaller one shows all, as they came. */
  lemma CapShows(lc: Fold, opts: RunOptions, kind: GroupKind, letter: Option<string>, entries: seq<Entry>)
    returns (spoke: seq<nat>, quiet: seq<nat>)
    ensures Ascending(spoke, |entries|) && Ascending(quiet, |entries|) && |spoke| + |quiet| == |entries|
    ensures forall i: nat | i < |entries| :: (i in spoke <==> Spoke(lc, opts, entries[i])) && (i in quiet <==> !Spoke(lc, opts, entries[i]))
    ensures var g, limit := Cap(lc, opts, kind, letter, entries), Limit(opts.maxNames);
      && g.kind == kind && g.letter == letter
      && (|entries| <= limit ==> g.visible == entries && g.hidden == 0)
      && (|entries| > limit ==>
            && |g.visible| == limit && g.hidden == |entries| - limit
            && forall n | 0 <= n < limit :: g.visible[n] == entries[(spoke + quiet)[n]])
  {
    spoke, quiet := RankPicks(lc, opts, entries);
    RankLength(lc, opts, entries);
    hide RankEntries, Spoke, Ascending;
  }

  lemma RankPicks(lc: Fold, opts: RunOptions, entries: seq<Entry>) returns (spoke: seq<nat>, quiet: seq<nat>)
    ensures Ascending(spoke, |entries|) && Ascending(quiet, |entries|) && |spoke| + |quiet| == |entries|
    ensures forall i: nat | i < |entries| :: (i in spoke <==> Spoke(lc, opts, entries[i])) && (i in quiet <==> !Spoke(lc, opts, entries[i]))
    ensures |RankEntries(lc, opts, entries)| == |entries|
    ensures forall n | 0 <= n < |entries| :: RankEntries(lc, opts, entries)[n] == entries[(spoke + quiet)[n]]
  {
    var keep, drop := e => Recent(lc, opts, e), e => !Recent(lc, opts, e);
    RankLength(lc, opts, entries);
    assert RankEntries(lc, opts, entries) == Filter(keep, entries) + Filter(drop, entries);
    forall e ensures keep(e) <==> Spoke(lc, opts, e) {
      SpokeIsRecent(lc, opts, e);
    }
    hide RankEntries, Recent, Spoke, Filter;
    spoke := FilterPicks(keep, entries);
    quiet := FilterPicks(drop, entries);
  }

  lemma SpokeIsRecent(lc: Fold, opts: RunOptions, e: Entry)
    ensures Recent(lc, opts, e) <==> Spoke(lc, opts, e)
  {
  }
}
