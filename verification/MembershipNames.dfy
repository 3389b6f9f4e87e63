/** The summary's names against the channel: whether a listed name is in the channel after the run, and
    whether the nick it began under was there before it (shared/consolidate.ts). */
module MembershipNames {
  import opened Options
  import opened Consolidate
  import opened Membership

  // ----- the names shown, after the run -----

  /** What these two kinds say of their names: not here any more. */
  predicate SaysGone(kind: GroupKind) { kind.Left? || kind.JoinedAndLeft? }

  /** What these two kinds say of their names: not here before. */
  predicate SaysNew(kind: GroupKind) { kind.Joined? || kind.JoinedAndLeft? }

  predicate WasThere(actions: seq<Action>) {
    JL(actions) == [] || JL(actions)[0] == L
  }

  lemma ClassesSay(actions: seq<Action>)
    ensures SaysGone(Classify(actions)) <==> !Present(actions)
    ensures SaysNew(Classify(actions)) <==> !WasThere(actions)
    ensures Classify(actions) in GROUP_ORDER
  {
  }

  /** Identities are kept under the fold of the name they show. */
  ghost predicate Keyed(lc: Fold, w: Walk)
    requires w.Valid()
  {
    forall k <- w.ids :: lc(w.states[w.ids[k]].display) == k
  }

  lemma StepKeyed(lc: Fold, w: Walk, e: Message)
    requires w.Valid() && Keyed(lc, w)
    ensures Keyed(lc, WalkEvent(lc, w, e))
  {
    hide ActionOf;
  }

  lemma StepAgrees(lc: Fold, w: Walk, here: set<string>, e: Message)
    requires Agrees(lc, w, here) && Possible(lc, here, e) && !e.event.Mode?
    ensures Agrees(lc, WalkEvent(lc, w, e), After(lc, here, e))
  {
    hide Agrees, Possible, After, WalkOther, WalkRename;
    if e.event.NickChange? {
      RenameAgrees(lc, w, here, e);
    } else {
      OtherStep(lc, w, here, e);
    }
  }

  lemma {:induction false} WalkKeyed(lc: Fold, w: Walk, here: set<string>, events: seq<Message>)
    requires Agrees(lc, w, here) && Keyed(lc, w) && ConsistentRun(lc, here, events)
    requires forall i | 0 <= i < |events| :: !events[i].event.Mode?
    ensures Agrees(lc, WalkAll(lc, w, events), AfterAll(lc, here, events)) && Keyed(lc, WalkAll(lc, w, events))
    decreases |events|
  {
    hide Possible, After, WalkEvent;
    if events != [] {
      StepAgrees(lc, w, here, events[0]);
      StepKeyed(lc, w, events[0]);
      hide Agrees, Keyed;
      WalkKeyed(lc, WalkEvent(lc, w, events[0]), After(lc, here, events[0]), events[1..]);
    }
  }

  lemma {:induction false} BucketNames(lc: Fold, w: Walk, here: set<string>, kind: GroupKind, from: nat)
    requires Agrees(lc, w, here) && Keyed(lc, w)
    ensures forall e <- Bucket(w.states, w.ids.Values, kind, from) :: lc(EntryName(e)) in here <==> !SaysGone(kind)
    decreases |w.states| - from
  {
    if from < |w.states| {
      BucketNames(lc, w, here, kind, from + 1);
      var id := w.states[from];
      if from in w.ids.Values && Classify(id.actions) == kind {
        var k :| k in w.ids && w.ids[k] == from;
        ClassesSay(id.actions);
        assert EntryName(EntryOf(id)) == id.display;
      }
    }
  }

  ghost predicate NamesTrue(lc: Fold, here: set<string>, groups: seq<Group>) {
    forall g <- groups, e <- g.visible | !IsModeKind(g.kind) :: lc(EntryName(e)) in here <==> !SaysGone(g.kind)
  }

  lemma {:induction false} OrderNames(lc: Fold, opts: RunOptions, w: Walk, here: set<string>, order: seq<GroupKind>)
    requires Agrees(lc, w, here) && Keyed(lc, w)
    ensures NamesTrue(lc, here, GroupsInOrder(lc, opts, w, order))
  {
    hide Agrees, Keyed, Bucket, Cap, EntryName, SaysGone;
    if order != [] {
      var kind, bucket := order[0], Bucket(w.states, w.ids.Values, order[0], 0);
      OrderNames(lc, opts, w, here, order[1..]);
      BucketNames(lc, w, here, kind, 0);
      CapKeepsCount(lc, opts, kind, None, bucket);
      CapKind(lc, opts, kind, None, bucket);
    }
  }

  lemma {:induction false} BucketsAreModes(lc: Fold, opts: RunOptions, buckets: seq<ModeBucket>)
    requires forall b <- buckets :: IsModeKind(b.kind)
    ensures forall g <- CapBuckets(lc, opts, buckets) :: IsModeKind(g.kind)
  {
    hide Cap;
    if buckets != [] {
      BucketsAreModes(lc, opts, buckets[1..]);
      CapKind(lc, opts, buckets[0].kind, Some(buckets[0].letter), buckets[0].entries);
    }
  }

  /** Every name a summary lists is in the channel after the run exactly when its group says so: whatever
      was renamed onto whatever. */
  lemma NamesMatchChannel(lc: Fold, opts: RunOptions, here: set<string>, events: seq<Message>)
    requires ConsistentRun(lc, here, events)
    ensures forall g <- RunGroups(lc, opts, events), e <- g.visible | !IsModeKind(g.kind) ::
              lc(EntryName(e)) in AfterAll(lc, here, events) <==> !SaysGone(g.kind)
  {
    hide GroupsInOrder, CapBuckets, ModeBuckets, NetEvents, WalkAll, Filter, EntryName, ConsistentRun, AfterAll;
    var presence := PresenceEvents(events);
    ModesMoveNobody(lc, here, events);
    WalkKeyed(lc, NoWalk, here, presence);
    OrderNames(lc, opts, WalkAll(lc, NoWalk, presence), AfterAll(lc, here, presence), GROUP_ORDER);
    var net := NetEvents(lc, [], ModeEvents(events));
    AddKeepsModeKinds([], net);
    BucketsAreModes(lc, opts, ModeBuckets([], net));
  }

  // ----- the nicks they began under, before the run -----

  /** The first nick was in the channel before the run exactly when the identity's kind says so. */
  ghost predicate PastTrue(lc: Fold, id: Identity, before: set<string>) {
    lc(id.original) in before <==> !SaysNew(Classify(id.actions))
  }

  /** Of every identity still tracked, which are those the groups list. */
  ghost predicate PastsTrue(lc: Fold, w: Walk, before: set<string>)
    requires w.Valid()
  {
    forall k <- w.ids :: PastTrue(lc, w.states[w.ids[k]], before)
  }

  /** Whoever is here and not tracked was here before the run. */
  ghost predicate Carried(w: Walk, before: set<string>, here: set<string>) {
    forall n <- here :: n in w.ids || n in before
  }

  /** A join under a nick the run does not track is by a nick that was not here before: not one that its
      holder has renamed away from. */
  predicate FreshJoin(lc: Fold, w: Walk, before: set<string>, e: Message) {
    e.event.Join? && lc(e.nick) !in w.ids ==> lc(e.nick) !in before
  }

  /** Whoever is tracked under `key` still is after the events: followed through their own renames, nobody
      else is renamed onto the nick they have or left under. */
  predicate StaysTracked(lc: Fold, key: string, events: seq<Message>)
    decreases |events|
  {
    if events == [] then true
    else
      var e, rest := events[0], events[1..];
      if !e.event.NickChange? then StaysTracked(lc, key, rest)
      else if lc(e.nick) == key then StaysTracked(lc, lc(e.newNick), rest)
      else lc(e.newNick) != key && StaysTracked(lc, key, rest)
  }

  /** Every join under a nick that was here before and given up is written over later in the run. */
  predicate StaleJoinsGo(lc: Fold, w: Walk, before: set<string>, events: seq<Message>)
    requires w.Valid()
    decreases |events|
  {
    events != [] ==>
      && (FreshJoin(lc, w, before, events[0]) || !StaysTracked(lc, lc(events[0].nick), events[1..]))
      && StaleJoinsGo(lc, WalkEvent(lc, w, events[0]), before, events[1..])
  }

  lemma MoreActions(actions: seq<Action>, a: Action)
    requires a == J ==> !Present(actions)
    ensures WasThere(actions + [a]) == WasThere(actions)
    ensures WasThere([a]) == (a != J)
  {
    JLConcat(actions, [a]);
    assert [a][1..] == [];
  }

  lemma PastIs(lc: Fold, id: Identity, before: set<string>)
    ensures PastTrue(lc, id, before) <==> (lc(id.original) in before <==> WasThere(id.actions))
  {
    ClassesSay(id.actions);
    hide Classify, WasThere, SaysNew;
  }

  /** One more action of an identity that is tracked says nothing new about its past; a first one does,
      and wrongly only for a join under a nick that was here. */
  lemma TrackedPast(lc: Fold, id: Identity, a: Action, display: string, before: set<string>)
    requires a == J ==> !Present(id.actions)
    ensures PastTrue(lc, Identity(display, id.original, id.actions + [a]), before) <==> PastTrue(lc, id, before)
  {
    MoreActions(id.actions, a);
    PastIs(lc, id, before);
    PastIs(lc, Identity(display, id.original, id.actions + [a]), before);
    hide PastTrue, WasThere;
  }

  lemma FirstPast(lc: Fold, id: Identity, a: Action, before: set<string>)
    requires id.actions == [a]
    ensures PastTrue(lc, id, before) <==> (lc(id.original) in before <==> a != J)
  {
    MoreActions([L], a);
    PastIs(lc, id, before);
    hide PastTrue, WasThere;
  }

  /** The identity under `key` will be right about its past, or will not be listed. */
  ghost predicate Settled(lc: Fold, w: Walk, before: set<string>, key: string, events: seq<Message>)
    requires w.Valid() && key in w.ids
  {
    PastTrue(lc, w.states[w.ids[key]], before) || !StaysTracked(lc, key, events)
  }

  ghost predicate AllSettled(lc: Fold, w: Walk, before: set<string>, events: seq<Message>)
    requires w.Valid()
  {
    forall k <- w.ids :: Settled(lc, w, before, k, events)
  }

  lemma OtherSettles(lc: Fold, w: Walk, before: set<string>, here: set<string>, events: seq<Message>)
    requires events != [] && Agrees(lc, w, here) && Carried(w, before, here)
    requires var e := events[0]; Possible(lc, here, e) && !e.event.Mode? && !e.event.NickChange?
    ensures AllSettled(lc, WalkOther(lc, w, events[0]), before, events[1..])
            <==> AllSettled(lc, w, before, events)
                 && (FreshJoin(lc, w, before, events[0]) || !StaysTracked(lc, lc(events[0].nick), events[1..]))
  {
    var e, key := events[0], lc(events[0].nick);
    var w', a := WalkOther(lc, w, e), ActionOf(e.event)[0];
    assert ActionOf(e.event) == [a];
    KeptHere(w, before, here, key);
    if key in w.ids {
      TrackedPast(lc, w.states[w.ids[key]], a, w.states[w.ids[key]].display, before);
    } else {
      FirstPast(lc, w'.states[|w.states|], a, before);
    }
    hide PastTrue, Present, Carried;
    assert forall k :: StaysTracked(lc, k, events) <==> StaysTracked(lc, k, events[1..]);
    forall k | k in w.ids ensures k in w'.ids && (Settled(lc, w', before, k, events[1..]) <==> Settled(lc, w, before, k, events)) {
    }
    hide StaysTracked;
    assert key !in w.ids ==> (Settled(lc, w', before, key, events[1..])
                              <==> FreshJoin(lc, w, before, e) || !StaysTracked(lc, key, events[1..]));
    hide Settled;
  }

  lemma RenameSettles(lc: Fold, w: Walk, before: set<string>, here: set<string>, events: seq<Message>)
    requires events != [] && Agrees(lc, w, here) && Carried(w, before, here)
    requires Possible(lc, here, events[0]) && events[0].event.NickChange?
    ensures AllSettled(lc, WalkRename(lc, w, events[0]), before, events[1..]) <==> AllSettled(lc, w, before, events)
  {
    var oldKey := lc(events[0].nick);
    KeptHere(w, before, here, oldKey);
    UnnamedSettle(lc, w, before, events);
    hide Agrees, Carried, Settled, WalkRename;
    if oldKey in w.ids {
      KnownSettles(lc, w, before, events);
    } else {
      NewSettles(lc, w, before, events);
    }
  }

  /** A rename does not touch those it does not name, and settles whoever it writes over. */
  lemma UnnamedSettle(lc: Fold, w: Walk, before: set<string>, events: seq<Message>)
    requires w.Valid() && events != [] && events[0].event.NickChange?
    ensures var e, w' := events[0], WalkRename(lc, w, events[0]);
            && w'.ids.Keys == w.ids.Keys - {lc(e.nick)} + {lc(e.newNick)}
            && (forall k | k in w.ids && k != lc(e.nick) && k != lc(e.newNick) ::
                  Settled(lc, w', before, k, events[1..]) <==> Settled(lc, w, before, k, events))
            && (lc(e.newNick) in w.ids && lc(e.newNick) != lc(e.nick) ==> Settled(lc, w, before, lc(e.newNick), events))
  {
    hide PastTrue;
  }

  lemma KnownSettles(lc: Fold, w: Walk, before: set<string>, events: seq<Message>)
    requires w.Valid() && events != [] && events[0].event.NickChange? && lc(events[0].nick) in w.ids
    ensures Settled(lc, WalkRename(lc, w, events[0]), before, lc(events[0].newNick), events[1..])
            <==> Settled(lc, w, before, lc(events[0].nick), events)
  {
    var e := events[0];
    TrackedPast(lc, w.states[w.ids[lc(e.nick)]], R, e.newNick, before);
    hide PastTrue;
  }

  lemma NewSettles(lc: Fold, w: Walk, before: set<string>, events: seq<Message>)
    requires w.Valid() && events != [] && events[0].event.NickChange? && lc(events[0].nick) !in w.ids
    requires lc(events[0].nick) in before
    ensures Settled(lc, WalkRename(lc, w, events[0]), before, lc(events[0].newNick), events[1..])
  {
    FirstPast(lc, Identity(events[0].newNick, events[0].nick, [R]), R, before);
    hide PastTrue;
  }

  lemma KeptHere(w: Walk, before: set<string>, here: set<string>, n: string)
    requires Carried(w, before, here)
    ensures n in here && n !in w.ids ==> n in before
  {
  }

  lemma StepCarried(lc: Fold, w: Walk, before: set<string>, here: set<string>, e: Message)
    requires w.Valid() && Carried(w, before, here) && Possible(lc, here, e)
    ensures !e.event.Mode? ==> Carried(WalkEvent(lc, w, e), before, After(lc, here, e))
  {
    hide ActionOf;
  }

  lemma {:induction false} WalkSettles(lc: Fold, w: Walk, before: set<string>, here: set<string>, events: seq<Message>)
    requires Agrees(lc, w, here) && Carried(w, before, here) && ConsistentRun(lc, here, events)
    requires forall i | 0 <= i < |events| :: !events[i].event.Mode?
    ensures PastsTrue(lc, WalkAll(lc, w, events), before)
            <==> AllSettled(lc, w, before, events) && StaleJoinsGo(lc, w, before, events)
    decreases |events|
  {
    hide Possible, After, WalkOther, WalkRename, Carried, PastTrue, FreshJoin, AllSettled;
    if events == [] {
      NowSettled(lc, w, before);
    } else {
      var e := events[0];
      StepAgrees(lc, w, here, e);
      StepCarried(lc, w, before, here, e);
      if e.event.NickChange? {
        RenameSettles(lc, w, before, here, events);
        assert FreshJoin(lc, w, before, e) by { RenamesAreFresh(lc, w, before, e); }
      } else {
        OtherSettles(lc, w, before, here, events);
      }
      hide Agrees, StaysTracked;
      WalkSettles(lc, WalkEvent(lc, w, e), before, After(lc, here, e), events[1..]);
    }
  }

  lemma NowSettled(lc: Fold, w: Walk, before: set<string>)
    requires w.Valid()
    ensures AllSettled(lc, w, before, []) <==> PastsTrue(lc, w, before)
  {
    hide PastTrue;
    forall k | k in w.ids ensures Settled(lc, w, before, k, []) <==> PastTrue(lc, w.states[w.ids[k]], before) {
    }
  }

  lemma RenamesAreFresh(lc: Fold, w: Walk, before: set<string>, e: Message)
    requires e.event.NickChange?
    ensures FreshJoin(lc, w, before, e)
  {
  }

  /** What the summary's groups say about the past of those they list is true if and only if everybody who
      joins under a nick that was here before the run, and that its holder gave up by a rename, is
      written over by a later rename. */
  lemma PastsTrueIff(lc: Fold, here: set<string>, events: seq<Message>)
    requires ConsistentRun(lc, here, events)
    ensures PastsTrue(lc, WalkAll(lc, NoWalk, PresenceEvents(events)), here)
            <==> StaleJoinsGo(lc, NoWalk, here, PresenceEvents(events))
  {
    hide WalkAll, Filter, ConsistentRun, StaleJoinsGo, PastsTrue;
    ModesMoveNobody(lc, here, events);
    WalkSettles(lc, NoWalk, here, here, PresenceEvents(events));
  }

  // ----- renamed entries -----

  /** Whoever the run does not say is new was here before it, stale joins or not. */
  ghost predicate OldWereHere(lc: Fold, w: Walk, before: set<string>)
    requires w.Valid()
  {
    forall k <- w.ids :: WasThere(w.states[w.ids[k]].actions) ==> lc(w.states[w.ids[k]].original) in before
  }

  lemma StepOld(lc: Fold, w: Walk, before: set<string>, here: set<string>, e: Message)
    requires Agrees(lc, w, here) && Carried(w, before, here) && OldWereHere(lc, w, before)
    requires Possible(lc, here, e) && !e.event.Mode?
    ensures OldWereHere(lc, WalkEvent(lc, w, e), before)
  {
    var key := lc(e.nick);
    var a := if e.event.NickChange? then R else ActionOf(e.event)[0];
    assert e.event.NickChange? || ActionOf(e.event) == [a];
    KeptHere(w, before, here, key);
    if key in w.ids {
      MoreActions(w.states[w.ids[key]].actions, a);
    } else {
      MoreActions([L], a);
    }
    hide WasThere, Present, Carried;
  }

  lemma {:induction false} WalkOld(lc: Fold, w: Walk, before: set<string>, here: set<string>, events: seq<Message>)
    requires Agrees(lc, w, here) && Carried(w, before, here) && OldWereHere(lc, w, before) && ConsistentRun(lc, here, events)
    requires forall i | 0 <= i < |events| :: !events[i].event.Mode?
    ensures OldWereHere(lc, WalkAll(lc, w, events), before)
    decreases |events|
  {
    hide Possible, After, WalkEvent, Carried, OldWereHere;
    if events != [] {
      StepAgrees(lc, w, here, events[0]);
      StepCarried(lc, w, before, here, events[0]);
      StepOld(lc, w, before, here, events[0]);
      hide Agrees;
      WalkOld(lc, WalkEvent(lc, w, events[0]), before, After(lc, here, events[0]), events[1..]);
    }
  }

  lemma {:induction false} RenamedBucket(lc: Fold, w: Walk, before: set<string>, from: nat)
    requires w.Valid() && OldWereHere(lc, w, before)
    ensures forall e <- Bucket(w.states, w.ids.Values, Renamed, from) :: e.RenameEntry? && lc(e.from) in before
    decreases |w.states| - from
  {
    hide OldWereHere, Classify, EntryOf;
    if from < |w.states| {
      RenamedBucket(lc, w, before, from + 1);
      if from in w.ids.Values && Classify(w.states[from].actions) == Renamed {
        RenamedEntry(lc, w, before, from);
      }
    }
  }

  lemma RenamedEntry(lc: Fold, w: Walk, before: set<string>, i: nat)
    requires w.Valid() && OldWereHere(lc, w, before)
    requires i < |w.states| && i in w.ids.Values && Classify(w.states[i].actions) == Renamed
    ensures EntryOf(w.states[i]).RenameEntry? && lc(EntryOf(w.states[i]).from) in before
  {
    RenamedIsOld(w.states[i]);
    hide Classify, EntryOf, WasThere;
    var k :| k in w.ids && w.ids[k] == i;
  }

  lemma RenamedIsOld(id: Identity)
    requires Classify(id.actions) == Renamed
    ensures WasThere(id.actions) && EntryOf(id) == RenameEntry(id.original, id.display)
  {
    ClassesSay(id.actions);
  }

  lemma {:induction false} RenamedInOrder(lc: Fold, opts: RunOptions, w: Walk, before: set<string>, order: seq<GroupKind>)
    requires w.Valid() && OldWereHere(lc, w, before)
    ensures forall g <- GroupsInOrder(lc, opts, w, order), e <- g.visible | g.kind.Renamed? :: e.RenameEntry? && lc(e.from) in before
  {
    hide OldWereHere, Bucket, Cap;
    if order != [] {
      var kind, bucket := order[0], Bucket(w.states, w.ids.Values, order[0], 0);
      RenamedInOrder(lc, opts, w, before, order[1..]);
      RenamedBucket(lc, w, before, 0);
      CapKeepsCount(lc, opts, kind, None, bucket);
      CapKind(lc, opts, kind, None, bucket);
    }
  }

  /** A shown "a is now b": an a was in the channel before the run, whatever it holds. */
  lemma RenamedWereHere(lc: Fold, opts: RunOptions, here: set<string>, events: seq<Message>)
    requires ConsistentRun(lc, here, events)
    ensures forall g <- RunGroups(lc, opts, events), e <- g.visible | g.kind.Renamed? :: e.RenameEntry? && lc(e.from) in here
  {
    hide GroupsInOrder, CapBuckets, ModeBuckets, NetEvents, WalkAll, Filter, ConsistentRun;
    var presence := PresenceEvents(events);
    ModesMoveNobody(lc, here, events);
    WalkOld(lc, NoWalk, here, here, presence);
    RenamedInOrder(lc, opts, WalkAll(lc, NoWalk, presence), here, GROUP_ORDER);
    var net := NetEvents(lc, [], ModeEvents(events));
    AddKeepsModeKinds([], net);
    BucketsAreModes(lc, opts, ModeBuckets([], net));
  }

  // ----- a stale join -----

  /** It fails when alice becomes bob and somebody joins as alice: the summary has alice joining a channel
      that an alice was in. */
  lemma GivenUpNickJoins(lc: Fold)
    requires lc("alice") == "alice" && lc("bob") == "bob"
    ensures var events := [Message(None, NickChange, "alice", "bob", 0, None), Message(None, Join, "alice", "", 1, None)];
            && ConsistentRun(lc, {"alice"}, events)
            && WalkAll(lc, NoWalk, PresenceEvents(events)).states == [Identity("bob", "alice", [R]), Identity("alice", "alice", [J])]
            && !PastsTrue(lc, WalkAll(lc, NoWalk, PresenceEvents(events)), {"alice"})
  {
    var rename, join := Message(None, NickChange, "alice", "bob", 0, None), Message(None, Join, "alice", "", 1, None);
    var events := [rename, join];
    assert events[1..] == [join] && [join][1..] == [];
    assert "alice" != "bob" by { assert "alice"[0] != "bob"[0]; }
    assert After(lc, {"alice"}, rename) == {"bob"};
    assert ConsistentRun(lc, {"bob"}, [join]);
    PresenceOnly(events);
    var w := WalkEvent(lc, NoWalk, rename);
    assert w.ids == map["bob" := 0] && w.states == [Identity("bob", "alice", [R])];
    var w' := WalkEvent(lc, w, join);
    assert w'.states == [Identity("bob", "alice", [R]), Identity("alice", "alice", [J])];
    assert WalkAll(lc, w', []) == w';
    assert WalkAll(lc, w, [join]) == w';
    FirstPast(lc, w'.states[1], J, {"alice"});
    assert "alice" in w'.ids && w'.ids["alice"] == 1;
    assert PastTrue(lc, w'.states[w'.ids["alice"]], {"alice"}) == false;
  }
}
