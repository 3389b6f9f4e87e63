/** The summary's counts against the channel they summarise: who is in the channel, and who holds a
    member mode (shared/consolidate.ts). */
module Membership {
  import opened Options
  import opened Consolidate

  // ----- the channel a run of events describes -----

  /** The event can happen in a channel whose members are `here` (folded nicks). */
  predicate Possible(lc: Fold, here: set<string>, e: Message) {
    match e.event
    case Join => lc(e.nick) !in here
    case NickChange => lc(e.nick) in here && (lc(e.newNick) == lc(e.nick) || lc(e.newNick) !in here)
    case Part => lc(e.nick) in here
    case Quit => lc(e.nick) in here
    case Chghost => lc(e.nick) in here
    case Mode => true
    case Other(_) => false
  }

  function After(lc: Fold, here: set<string>, e: Message): set<string> {
    match e.event
    case Join => here + {lc(e.nick)}
    case NickChange => here - {lc(e.nick)} + {lc(e.newNick)}
    case Part => here - {lc(e.nick)}
    case Quit => here - {lc(e.nick)}
    case _ => here
  }

  predicate ConsistentRun(lc: Fold, here: set<string>, events: seq<Message>)
    decreases |events|
  {
    events != [] ==> Possible(lc, here, events[0]) && ConsistentRun(lc, After(lc, here, events[0]), events[1..])
  }

  function AfterAll(lc: Fold, here: set<string>, events: seq<Message>): set<string>
    decreases |events|
  {
    if events == [] then here else AfterAll(lc, After(lc, here, events[0]), events[1..])
  }

  // ----- what the walk believes -----

  /** The change in channel size a classification stands for. */
  function Net(actions: seq<Action>): int {
    match Classify(actions)
    case Joined => 1
    case Left => -1
    case _ => 0
  }

  predicate Present(actions: seq<Action>) {
    JL(actions) == [] || JL(actions)[|JL(actions)| - 1] == J
  }

  lemma {:induction false} JLConcat(a: seq<Action>, b: seq<Action>)
    ensures JL(a + b) == JL(a) + JL(b)
  {
    if a == [] {
      assert a + b == b;
    } else {
      hide JL, IsJL;
      JLStep(a);
      JLStep(a + b);
      JLConcat(a[1..], b);
      assert (a + b)[1..] == a[1..] + b && (a + b)[0] == a[0];
      Regroup(if IsJL(a[0]) then [a[0]] else [], JL(a[1..]), JL(b));
    }
  }

  lemma Regroup(a: seq<Action>, b: seq<Action>, c: seq<Action>)
    ensures a + (b + c) == (a + b) + c
  {
  }

  lemma JLStep(s: seq<Action>)
    requires s != []
    ensures JL(s) == (if IsJL(s[0]) then [s[0]] else []) + JL(s[1..])
  {
  }

  /** One more action moves the classification exactly as it moves the member. */
  lemma ActionMoves(actions: seq<Action>, a: Action)
    requires a == J ==> !Present(actions)
    requires a == L ==> Present(actions)
    ensures Net(actions + [a]) == Net(actions) + (if a == J then 1 else if a == L then -1 else 0)
    ensures Present(actions + [a]) == if IsJL(a) then a == J else Present(actions)
  {
    JLConcat(actions, [a]);
    assert JL([a]) == if IsJL(a) then [a] else [] by {
      assert JL([a][1..]) == [];
    }
  }

  function Total(states: seq<Identity>, live: set<nat>, from: nat): int
    decreases |states| - from
  {
    if from >= |states| then 0
    else
      var here := if from in live then Net(states[from].actions) else 0;
      here + Total(states, live, from + 1)
  }

  lemma {:induction false} TotalReplace(states: seq<Identity>, live: set<nat>, i: nat, id: Identity, from: nat)
    requires i < |states| && i in live && from <= |states|
    ensures Total(states[i := id], live, from)
         == Total(states, live, from) + (if from <= i then Net(id.actions) - Net(states[i].actions) else 0)
    decreases |states| - from
  {
    if from < |states| {
      TotalReplace(states, live, i, id, from + 1);
    }
  }

  lemma {:induction false} TotalDrop(states: seq<Identity>, live: set<nat>, i: nat, from: nat)
    requires i < |states| && i in live && from <= |states|
    ensures Total(states, live - {i}, from)
         == Total(states, live, from) - (if from <= i then Net(states[i].actions) else 0)
    decreases |states| - from
  {
    if from < |states| {
      TotalDrop(states, live, i, from + 1);
    }
  }

  lemma {:induction false} TotalPush(states: seq<Identity>, live: set<nat>, id: Identity, from: nat)
    requires from <= |states| && forall i <- live :: i < |states|
    ensures Total(states + [id], live + {|states|}, from) == Total(states, live, from) + Net(id.actions)
    decreases |states| - from
  {
    if from < |states| {
      TotalPush(states, live, id, from + 1);
    } else {
      assert (states + [id])[from] == id;
      assert Total(states + [id], live + {|states|}, from + 1) == 0;
    }
  }

  /** A rename takes over a nick that an identity of this run already stands under, and the identity
      that goes missing had been there before the run. */
  predicate LosesLeaver(lc: Fold, w: Walk, e: Message)
    requires w.Valid()
  {
    && e.event.NickChange?
    && lc(e.newNick) != lc(e.nick)
    && lc(e.newNick) in w.ids
    && Classify(w.states[w.ids[lc(e.newNick)]].actions) == Left
  }

  function Lost(lc: Fold, w: Walk, events: seq<Message>): nat
    requires w.Valid()
    decreases |events|
  {
    if events == [] then 0
    else (if LosesLeaver(lc, w, events[0]) then 1 else 0) + Lost(lc, WalkEvent(lc, w, events[0]), events[1..])
  }

  ghost predicate Agrees(lc: Fold, w: Walk, here: set<string>) {
    && w.Valid()
    && forall k <- w.ids :: k in here <==> Present(w.states[w.ids[k]].actions)
  }

  lemma ValuesPush(ids: map<string, nat>, key: string, i: nat)
    requires key !in ids
    ensures ids[key := i].Values == ids.Values + {i}
  {
    var ids' := ids[key := i];
    assert key in ids' && ids'[key] == i;
    forall v | v in ids.Values ensures v in ids'.Values {
      var k :| k in ids && ids[k] == v;
      assert k in ids' && ids'[k] == v;
    }
  }

  lemma ValuesDrop(w: Walk, key: string)
    requires w.Valid() && key in w.ids
    ensures (w.ids - {key}).Values == w.ids.Values - {w.ids[key]}
  {
    var ids := w.ids - {key};
    forall v | v in w.ids.Values && v != w.ids[key] ensures v in ids.Values {
      var k :| k in w.ids && w.ids[k] == v;
      assert k in ids && ids[k] == v;
    }
    forall v | v in ids.Values ensures v in w.ids.Values && v != w.ids[key] {
      var k :| k in ids && ids[k] == v;
      assert k in w.ids && w.ids[k] == v && k != key;
    }
  }

  /** An event other than a rename: the identity's classification moves with the channel. */
  lemma OtherStep(lc: Fold, w: Walk, here: set<string>, e: Message)
    requires Agrees(lc, w, here) && Possible(lc, here, e) && !e.event.NickChange? && !e.event.Mode?
    ensures var w', here' := WalkOther(lc, w, e), After(lc, here, e);
            && Agrees(lc, w', here')
            && Total(w'.states, w'.ids.Values, 0) - Total(w.states, w.ids.Values, 0) == |here'| - |here|
  {
    hide Classify, JL;
    var key, w' := lc(e.nick), WalkOther(lc, w, e);
    var a := ActionOf(e.event)[0];
    assert ActionOf(e.event) == [a];
    if key in w.ids {
      var i := w.ids[key];
      ActionMoves(w.states[i].actions, a);
      assert i in w.ids.Values;
      TotalReplace(w.states, w.ids.Values, i, w'.states[i], 0);
    } else {
      FirstAction(a);
      ValuesPush(w.ids, key, |w.states|);
      TotalPush(w.states, w.ids.Values, w'.states[|w.states|], 0);
    }
  }

  lemma FirstAction(a: Action)
    ensures Net([a]) == if a == J then 1 else if a == L then -1 else 0
    ensures Present([a]) == (a != L)
  {
    assert JL([a][1..]) == [];
  }

  /** What a rename does to the identity map, once the two nicks are known to differ. */
  lemma RenameTotal(lc: Fold, w: Walk, here: set<string>, e: Message)
    requires Agrees(lc, w, here) && e.event.NickChange? && Possible(lc, here, e)
    ensures var w' := WalkRename(lc, w, e);
            Total(w'.states, w'.ids.Values, 0) == Total(w.states, w.ids.Values, 0) + (if LosesLeaver(lc, w, e) then 1 else 0)
  {
    var oldKey, newKey := lc(e.nick), lc(e.newNick);
    OverwriteTotal(lc, w, here, e);
    var v := Overwritten(lc, w, e);
    hide Classify, JL, Total, LosesLeaver, Agrees;
    OverwrittenFirst(lc, w, e);
    if oldKey in w.ids {
      RenameKnown(lc, v, e);
    } else {
      RenameNew(lc, v, e);
    }
  }

  /** A rename writes over its new nick, so that may as well go first. */
  lemma OverwrittenFirst(lc: Fold, w: Walk, e: Message)
    requires w.Valid()
    ensures WalkRename(lc, w, e) == WalkRename(lc, Overwritten(lc, w, e), e)
  {
    var a, b := WalkRename(lc, w, e), WalkRename(lc, Overwritten(lc, w, e), e);
    assert a.ids == b.ids;
  }

  /** The walk without the identity a rename writes over. */
  function Overwritten(lc: Fold, w: Walk, e: Message): (v: Walk)
    requires w.Valid()
    ensures v.Valid()
  {
    if lc(e.newNick) != lc(e.nick) then Walk(w.states, w.ids - {lc(e.newNick)}) else w
  }

  lemma OverwriteTotal(lc: Fold, w: Walk, here: set<string>, e: Message)
    requires Agrees(lc, w, here) && e.event.NickChange? && Possible(lc, here, e)
    ensures var v := Overwritten(lc, w, e);
            Total(v.states, v.ids.Values, 0) == Total(w.states, w.ids.Values, 0) + (if LosesLeaver(lc, w, e) then 1 else 0)
  {
    hide Classify, JL;
    var newKey := lc(e.newNick);
    if newKey != lc(e.nick) {
      if newKey in w.ids {
        var j := w.ids[newKey];
        ValuesDrop(w, newKey);
        TotalDrop(w.states, w.ids.Values, j, 0);
        AbsentIsNotJoined(w.states[j].actions);
      } else {
        assert w.ids - {newKey} == w.ids;
      }
    }
  }

  lemma RenameKnown(lc: Fold, v: Walk, e: Message)
    requires v.Valid() && lc(e.nick) in v.ids && (lc(e.newNick) == lc(e.nick) || lc(e.newNick) !in v.ids)
    ensures var w' := WalkRename(lc, v, e);
            Total(w'.states, w'.ids.Values, 0) == Total(v.states, v.ids.Values, 0)
  {
    hide Classify, JL;
    var i, w' := v.ids[lc(e.nick)], WalkRename(lc, v, e);
    ActionMoves(v.states[i].actions, R);
    ValuesDrop(v, lc(e.nick));
    ValuesPush(v.ids - {lc(e.nick)}, lc(e.newNick), i);
    assert i in v.ids.Values && w'.ids.Values == v.ids.Values;
    TotalReplace(v.states, v.ids.Values, i, w'.states[i], 0);
  }

  lemma RenameNew(lc: Fold, v: Walk, e: Message)
    requires v.Valid() && lc(e.nick) !in v.ids && lc(e.newNick) !in v.ids
    ensures var w' := WalkRename(lc, v, e);
            Total(w'.states, w'.ids.Values, 0) == Total(v.states, v.ids.Values, 0)
  {
    hide Classify, JL;
    FirstAction(R);
    ValuesPush(v.ids, lc(e.newNick), |v.states|);
    TotalPush(v.states, v.ids.Values, WalkRename(lc, v, e).states[|v.states|], 0);
  }

  lemma AbsentIsNotJoined(actions: seq<Action>)
    requires !Present(actions)
    ensures Net(actions) == if Classify(actions) == Left then -1 else 0
  {
  }

  lemma RenameAgrees(lc: Fold, w: Walk, here: set<string>, e: Message)
    requires Agrees(lc, w, here) && e.event.NickChange? && Possible(lc, here, e)
    ensures Agrees(lc, WalkRename(lc, w, e), After(lc, here, e))
    ensures |After(lc, here, e)| == |here|
  {
    hide Classify, JL, Net;
    var oldKey, newKey := lc(e.nick), lc(e.newNick);
    FirstAction(R);
    if oldKey in w.ids {
      ActionMoves(w.states[w.ids[oldKey]].actions, R);
    }
    if newKey == oldKey {
      assert After(lc, here, e) == here;
    } else {
      assert |here - {oldKey}| == |here| - 1;
    }
  }

  lemma {:induction false} WalkBalances(lc: Fold, w: Walk, here: set<string>, events: seq<Message>)
    requires Agrees(lc, w, here) && ConsistentRun(lc, here, events)
    requires forall i | 0 <= i < |events| :: !events[i].event.Mode?
    ensures var w' := WalkAll(lc, w, events);
            Total(w'.states, w'.ids.Values, 0) - Total(w.states, w.ids.Values, 0)
            == |AfterAll(lc, here, events)| - |here| + Lost(lc, w, events)
    decreases |events|
  {
    hide Total, WalkOther, WalkRename, Classify, JL, After;
    if events != [] {
      var e := events[0];
      assert !e.event.Mode? && Possible(lc, here, e);
      if e.event.NickChange? {
        RenameTotal(lc, w, here, e);
        RenameAgrees(lc, w, here, e);
      } else {
        OtherStep(lc, w, here, e);
      }
      WalkBalances(lc, WalkEvent(lc, w, e), After(lc, here, e), events[1..]);
    }
  }

  // ----- the counts the summary shows -----

  /** Visible and hidden entries of one kind. */
  function Count(groups: seq<Group>, kind: GroupKind): nat {
    if groups == [] then 0
    else
      var here := if groups[0].kind == kind then |groups[0].visible| + groups[0].hidden else 0;
      here + Count(groups[1..], kind)
  }

  lemma {:induction false} CountConcat(a: seq<Group>, b: seq<Group>, kind: GroupKind)
    ensures Count(a + b, kind) == Count(a, kind) + Count(b, kind)
  {
    if a == [] {
      assert a + b == b;
    } else {
      assert (a + b)[1..] == a[1..] + b;
      CountConcat(a[1..], b, kind);
    }
  }

  /** Capping hides names but never loses one. */
  lemma CapKeepsCount(lc: Fold, opts: RunOptions, kind: GroupKind, letter: Option<string>, entries: seq<Entry>)
    ensures var g := Cap(lc, opts, kind, letter, entries);
            && |g.visible| + g.hidden == |entries|
            && |g.visible| <= NameLimit(opts)
            && (forall e <- g.visible :: e in entries)
            && (g.hidden > 0 ==> |g.visible| == NameLimit(opts))
  {
    RankLength(lc, opts, entries);
    var g := Cap(lc, opts, kind, letter, entries);
    forall e | e in g.visible ensures e in entries {
      if g.hidden > 0 {
        assert e in RankEntries(lc, opts, entries);
        assert e in multiset(RankEntries(lc, opts, entries));
      }
    }
  }

  predicate Distinct(order: seq<GroupKind>) {
    forall i, j | 0 <= i < j < |order| :: order[i] != order[j]
  }

  lemma {:induction false} OrderCounts(lc: Fold, opts: RunOptions, w: Walk, order: seq<GroupKind>, kind: GroupKind)
    requires Distinct(order)
    ensures Count(GroupsInOrder(lc, opts, w, order), kind)
         == if kind in order then |Bucket(w.states, w.ids.Values, kind, 0)| else 0
  {
    hide Cap, Bucket;
    if order != [] {
      var bucket := Bucket(w.states, w.ids.Values, order[0], 0);
      CapKeepsCount(lc, opts, order[0], None, bucket);
      CapKind(lc, opts, order[0], None, bucket);
      OrderCounts(lc, opts, w, order[1..], kind);
      var g := Cap(lc, opts, order[0], None, bucket);
      CountConcat(if bucket == [] then [] else [g], GroupsInOrder(lc, opts, w, order[1..]), kind);
      assert Count([g], kind) == (if order[0] == kind then |bucket| else 0) by {
        assert Count([g][1..], kind) == 0;
      }
    }
  }

  lemma CapKind(lc: Fold, opts: RunOptions, kind: GroupKind, letter: Option<string>, entries: seq<Entry>)
    ensures Cap(lc, opts, kind, letter, entries).kind == kind && Cap(lc, opts, kind, letter, entries).letter == letter
  {
  }

  lemma {:induction false} BucketsTotal(states: seq<Identity>, live: set<nat>, from: nat)
    ensures |Bucket(states, live, Joined, from)| - |Bucket(states, live, Left, from)| == Total(states, live, from)
    decreases |states| - from
  {
    hide Classify;
    if from < |states| {
      BucketsTotal(states, live, from + 1);
    }
  }

  predicate IsModeKind(kind: GroupKind) {
    kind.ModeGranted? || kind.ModeRevoked? || kind.ModeBriefly? || kind.ModeRegranted?
  }

  lemma {:induction false} AddKeepsModeKinds(buckets: seq<ModeBucket>, net: seq<ModeState>)
    requires forall b <- buckets :: IsModeKind(b.kind)
    ensures forall b <- ModeBuckets(buckets, net) :: IsModeKind(b.kind)
    decreases |net|
  {
    if net != [] {
      AddKeepsModeKinds(AddToBucket(buckets, net[0]), net[1..]);
    }
  }

  lemma {:induction false} ModeBucketsCount(lc: Fold, opts: RunOptions, buckets: seq<ModeBucket>, kind: GroupKind)
    requires forall b <- buckets :: IsModeKind(b.kind)
    requires !IsModeKind(kind)
    ensures Count(CapBuckets(lc, opts, buckets), kind) == 0
  {
    hide Cap;
    if buckets != [] {
      ModeBucketsCount(lc, opts, buckets[1..], kind);
      CapKind(lc, opts, buckets[0].kind, Some(buckets[0].letter), buckets[0].entries);
    }
  }

  lemma RunCounts(lc: Fold, opts: RunOptions, events: seq<Message>, kind: GroupKind)
    requires kind in GROUP_ORDER
    ensures var w := WalkAll(lc, NoWalk, PresenceEvents(events));
            Count(RunGroups(lc, opts, events), kind) == |Bucket(w.states, w.ids.Values, kind, 0)|
  {
    hide GroupsInOrder, Bucket, WalkAll, NetEvents, ModeBuckets, CapBuckets, Filter;
    var w := WalkAll(lc, NoWalk, PresenceEvents(events));
    var net := NetEvents(lc, [], ModeEvents(events));
    OrderCounts(lc, opts, w, GROUP_ORDER, kind);
    AddKeepsModeKinds([], net);
    ModeBucketsCount(lc, opts, ModeBuckets([], net), kind);
    CountConcat(PresenceGroups(lc, opts, events), ModeGroups(lc, opts, ModeEvents(events)), kind);
  }

  lemma {:induction false} ModesMoveNobody(lc: Fold, here: set<string>, events: seq<Message>)
    requires ConsistentRun(lc, here, events)
    ensures ConsistentRun(lc, here, PresenceEvents(events))
    ensures AfterAll(lc, here, PresenceEvents(events)) == AfterAll(lc, here, events)
    ensures forall i | 0 <= i < |PresenceEvents(events)| :: !PresenceEvents(events)[i].event.Mode?
    decreases |events|
  {
    if events != [] {
      ModesMoveNobody(lc, After(lc, here, events[0]), events[1..]);
      var rest := PresenceEvents(events[1..]);
      if !events[0].event.Mode? {
        assert PresenceEvents(events) == [events[0]] + rest;
        assert ([events[0]] + rest)[1..] == rest;
      } else {
        assert PresenceEvents(events) == rest;
      }
    }
  }

  /** How often, over the whole run, a rename takes over a nick whose tracked identity was there before
      the run and had left in it. */
  function LostLeavers(lc: Fold, events: seq<Message>): nat {
    Lost(lc, NoWalk, PresenceEvents(events))
  }

  /** The membership theorem, exactly: the channel grew by the "joined" less the "left" entries, visible
      and hidden, corrected by the leavers whose identity a rename replaced. */
  lemma MembershipBalance(lc: Fold, opts: RunOptions, here: set<string>, events: seq<Message>)
    requires ConsistentRun(lc, here, events)
    ensures var groups := RunGroups(lc, opts, events);
            |AfterAll(lc, here, events)| - |here|
            == Count(groups, Joined) - Count(groups, Left) - LostLeavers(lc, events)
  {
    hide Total, Bucket, WalkAll, Filter, Lost, RunGroups;
    var presence := PresenceEvents(events);
    var w := WalkAll(lc, NoWalk, presence);
    ModesMoveNobody(lc, here, events);
    WalkBalances(lc, NoWalk, here, presence);
    NothingTracked();
    BucketsTotal(w.states, w.ids.Values, 0);
    RunCounts(lc, opts, events, Joined);
    RunCounts(lc, opts, events, Left);
  }

  lemma NothingTracked()
    ensures Total(NoWalk.states, NoWalk.ids.Values, 0) == 0
  {
  }

  /** The summary's joined and left counts explain the change in channel size if and only if no rename
      of the run takes over the nick of someone who was there before it and left in it. */
  lemma CountsMatchMembership(lc: Fold, opts: RunOptions, here: set<string>, events: seq<Message>)
    requires ConsistentRun(lc, here, events)
    ensures var groups := RunGroups(lc, opts, events);
            (|AfterAll(lc, here, events)| - |here| == Count(groups, Joined) - Count(groups, Left))
            <==> LostLeavers(lc, events) == 0
  {
    hide *;
    MembershipBalance(lc, opts, here, events);
  }

  /** In particular when renames land on nicks the run does not track yet. */
  predicate FreshRenames(lc: Fold, w: Walk, events: seq<Message>)
    requires w.Valid()
    decreases |events|
  {
    events != [] ==>
      && (events[0].event.NickChange? && lc(events[0].newNick) != lc(events[0].nick) ==> lc(events[0].newNick) !in w.ids)
      && FreshRenames(lc, WalkEvent(lc, w, events[0]), events[1..])
  }

  lemma {:induction false} FreshLosesNobody(lc: Fold, w: Walk, events: seq<Message>)
    requires w.Valid() && FreshRenames(lc, w, events)
    ensures Lost(lc, w, events) == 0
    decreases |events|
  {
    if events != [] {
      FreshLosesNobody(lc, WalkEvent(lc, w, events[0]), events[1..]);
    }
  }

  lemma FreshRenamesMatchMembership(lc: Fold, opts: RunOptions, here: set<string>, events: seq<Message>)
    requires ConsistentRun(lc, here, events) && FreshRenames(lc, NoWalk, PresenceEvents(events))
    ensures var groups := RunGroups(lc, opts, events);
            |AfterAll(lc, here, events)| - |here| == Count(groups, Joined) - Count(groups, Left)
  {
    FreshLosesNobody(lc, NoWalk, PresenceEvents(events));
    MembershipBalance(lc, opts, here, events);
  }

  lemma {:induction false} PresenceOnly(events: seq<Message>)
    requires forall i | 0 <= i < |events| :: !events[i].event.Mode?
    ensures PresenceEvents(events) == events
  {
    if events != [] {
      PresenceOnly(events[1..]);
    }
  }

  /** Bob quits, then alice becomes bob: the channel is one smaller, and the summary says only that
      alice is now bob. */
  lemma TakenNickLosesLeaver(lc: Fold, opts: RunOptions)
    requires lc("alice") == "alice" && lc("bob") == "bob"
    ensures var events := [Message(None, Quit, "bob", "", 0, None), Message(None, NickChange, "alice", "bob", 1, None)];
            var groups := RunGroups(lc, opts, events);
            && ConsistentRun(lc, {"alice", "bob"}, events)
            && LostLeavers(lc, events) == 1
            && |AfterAll(lc, {"alice", "bob"}, events)| == 1
            && Count(groups, Joined) == Count(groups, Left)
  {
    hide RunGroups;
    var quit, rename := Message(None, Quit, "bob", "", 0, None), Message(None, NickChange, "alice", "bob", 1, None);
    var events, here := [quit, rename], {"alice", "bob"};
    assert events[1..] == [rename] && [rename][1..] == [];
    assert "alice" != "bob" by { assert "alice"[0] != "bob"[0]; }
    assert After(lc, here, quit) == {"alice"};
    assert {"alice"} - {"alice"} + {"bob"} == {"bob"};
    assert ConsistentRun(lc, {"alice"}, [rename]);
    assert AfterAll(lc, here, events) == AfterAll(lc, {"alice"}, [rename]) == {"bob"};
    PresenceOnly(events);
    var w := WalkEvent(lc, NoWalk, quit);
    FirstAction(L);
    assert w.ids == map["bob" := 0] && w.states == [Identity("bob", "bob", [L])];
    assert Classify([L]) == Left;
    assert Lost(lc, w, [rename]) == 1;
    MembershipBalance(lc, opts, here, events);
  }
}
