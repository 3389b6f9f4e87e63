/** The mode half of a summary against the member list: grants less revocations are the change in who
    holds a member mode, and no change is ever dropped (shared/consolidate.ts). */
module MemberModes {
  import opened Options
  import opened Modes
  import opened Consolidate
  import opened Membership

  /** The member-status changes of a run, in order. */
  function AllChanges(events: seq<Message>): seq<ModeChange> {
    if events == [] then [] else ChangesOf(events[0]) + AllChanges(events[1..])
  }

  lemma {:induction false} NetConcat(lc: Fold, net: seq<ModeState>, a: seq<ModeChange>, b: seq<ModeChange>)
    ensures NetChanges(lc, net, a + b) == NetChanges(lc, NetChanges(lc, net, a), b)
    decreases |a|
  {
    if a == [] {
      assert a + b == b;
    } else {
      assert (a + b)[1..] == a[1..] + b && (a + b)[0] == a[0];
      NetConcat(lc, NetChange(lc, net, a[0]), a[1..], b);
    }
  }

  lemma {:induction false} NetOfEvents(lc: Fold, net: seq<ModeState>, events: seq<Message>)
    ensures NetEvents(lc, net, events) == NetChanges(lc, net, AllChanges(events))
    decreases |events|
  {
    if events != [] {
      NetOfEvents(lc, NetChanges(lc, net, ChangesOf(events[0])), events[1..]);
      NetConcat(lc, net, ChangesOf(events[0]), AllChanges(events[1..]));
    }
  }

  // ----- the member list the changes describe -----

  /** `held` is the set of (nick, letter) pairs, by key, that are set. A change is real when it sets an
      unset pair or clears a set one. */
  predicate Real(lc: Fold, held: set<string>, c: ModeChange) {
    Counted(c) ==> (SignOf(c.mode) == Plus <==> PairKey(lc, c) !in held)
  }

  function Applied(lc: Fold, held: set<string>, c: ModeChange): set<string> {
    if !Counted(c) then held
    else if SignOf(c.mode) == Plus then held + {PairKey(lc, c)}
    else held - {PairKey(lc, c)}
  }

  predicate RealRun(lc: Fold, held: set<string>, changes: seq<ModeChange>)
    decreases |changes|
  {
    changes != [] ==> Real(lc, held, changes[0]) && RealRun(lc, Applied(lc, held, changes[0]), changes[1..])
  }

  function AppliedAll(lc: Fold, held: set<string>, changes: seq<ModeChange>): set<string>
    decreases |changes|
  {
    if changes == [] then held else AppliedAll(lc, Applied(lc, held, changes[0]), changes[1..])
  }

  function Gain(st: ModeState): int {
    if st.first != st.last then 0 else if st.last == Plus then 1 else -1
  }

  function Gains(net: seq<ModeState>): int {
    if net == [] then 0 else Gain(net[0]) + Gains(net[1..])
  }

  lemma {:induction false} GainsReplace(net: seq<ModeState>, i: nat, st: ModeState)
    requires i < |net|
    ensures Gains(net[i := st]) == Gains(net) - Gain(net[i]) + Gain(st)
  {
    if i == 0 {
      assert net[0 := st][1..] == net[1..];
    } else {
      assert net[i := st][1..] == net[1..][i - 1 := st];
      GainsReplace(net[1..], i - 1, st);
    }
  }

  lemma {:induction false} GainsPush(net: seq<ModeState>, st: ModeState)
    ensures Gains(net + [st]) == Gains(net) + Gain(st)
  {
    if net == [] {
      assert [] + [st] == [st] && Gains([st][1..]) == 0;
    } else {
      assert (net + [st])[1..] == net[1..] + [st];
      GainsPush(net[1..], st);
    }
  }

  ghost predicate DistinctKeys(net: seq<ModeState>) {
    forall i, j | 0 <= i < j < |net| :: net[i].key != net[j].key
  }

  ghost predicate Tracks(net: seq<ModeState>, held: set<string>) {
    DistinctKeys(net) && forall i | 0 <= i < |net| :: net[i].key in held <==> net[i].last == Plus
  }

  lemma ChangeBalances(lc: Fold, net: seq<ModeState>, held: set<string>, c: ModeChange)
    requires Tracks(net, held) && Real(lc, held, c)
    ensures var net', held' := NetChange(lc, net, c), Applied(lc, held, c);
            Tracks(net', held') && Gains(net') - Gains(net) == |held'| - |held|
  {
    hide Gains;
    if Counted(c) {
      FindIsFirst(net, PairKey(lc, c));
      var net' := NetChange(lc, net, c);
      match Find(net, PairKey(lc, c))
      case Some(i) => GainsReplace(net, i, net'[i]);
      case None => GainsPush(net, net'[|net|]);
    }
  }

  lemma {:induction false} ChangesBalance(lc: Fold, net: seq<ModeState>, held: set<string>, changes: seq<ModeChange>)
    requires Tracks(net, held) && RealRun(lc, held, changes)
    ensures Gains(NetChanges(lc, net, changes)) - Gains(net) == |AppliedAll(lc, held, changes)| - |held|
    decreases |changes|
  {
    if changes != [] {
      hide Tracks, Gains;
      ChangeBalances(lc, net, held, changes[0]);
      ChangesBalance(lc, NetChange(lc, net, changes[0]), Applied(lc, held, changes[0]), changes[1..]);
    }
  }

  // ----- the counts the summary shows -----

  function Verdict(st: ModeState): GroupKind {
    ClassifyMode(st.first, st.last)
  }

  function Verdicts(net: seq<ModeState>, kind: GroupKind): nat {
    if net == [] then 0 else (if Verdict(net[0]) == kind then 1 else 0) + Verdicts(net[1..], kind)
  }

  function InBuckets(buckets: seq<ModeBucket>, kind: GroupKind): nat {
    if buckets == [] then 0
    else (if buckets[0].kind == kind then |buckets[0].entries| else 0) + InBuckets(buckets[1..], kind)
  }

  lemma {:induction false} InBucketsReplace(buckets: seq<ModeBucket>, i: nat, b: ModeBucket, kind: GroupKind)
    requires i < |buckets| && b.kind == buckets[i].kind && |b.entries| == |buckets[i].entries| + 1
    ensures InBuckets(buckets[i := b], kind) == InBuckets(buckets, kind) + (if b.kind == kind then 1 else 0)
  {
    if i == 0 {
      assert buckets[0 := b][1..] == buckets[1..];
    } else {
      assert buckets[i := b][1..] == buckets[1..][i - 1 := b];
      InBucketsReplace(buckets[1..], i - 1, b, kind);
    }
  }

  lemma {:induction false} InBucketsPush(buckets: seq<ModeBucket>, b: ModeBucket, kind: GroupKind)
    ensures InBuckets(buckets + [b], kind) == InBuckets(buckets, kind) + (if b.kind == kind then |b.entries| else 0)
  {
    if buckets == [] {
      assert [] + [b] == [b] && InBuckets([b][1..], kind) == 0;
    } else {
      assert (buckets + [b])[1..] == buckets[1..] + [b];
      InBucketsPush(buckets[1..], b, kind);
    }
  }

  lemma {:induction false} BucketsHoldVerdicts(buckets: seq<ModeBucket>, net: seq<ModeState>, kind: GroupKind)
    ensures InBuckets(ModeBuckets(buckets, net), kind) == InBuckets(buckets, kind) + Verdicts(net, kind)
    decreases |net|
  {
    hide InBuckets;
    if net != [] {
      var st := net[0];
      match FindBucket(buckets, Verdict(st), st.letter) {
        case Some(i) =>
          InBucketsReplace(buckets, i, buckets[i].(entries := buckets[i].entries + [NickEntry(st.nick)]), kind);
        case None =>
          InBucketsPush(buckets, ModeBucket(Verdict(st), st.letter, [NickEntry(st.nick)]), kind);
      }
      BucketsHoldVerdicts(AddToBucket(buckets, st), net[1..], kind);
    }
  }

  lemma {:induction false} CappedCount(lc: Fold, opts: RunOptions, buckets: seq<ModeBucket>, kind: GroupKind)
    ensures Count(CapBuckets(lc, opts, buckets), kind) == InBuckets(buckets, kind)
  {
    hide Cap;
    if buckets != [] {
      var b := buckets[0];
      CapKeepsCount(lc, opts, b.kind, Some(b.letter), b.entries);
      CapKind(lc, opts, b.kind, Some(b.letter), b.entries);
      CappedCount(lc, opts, buckets[1..], kind);
    }
  }

  lemma {:induction false} NoModeKind(lc: Fold, opts: RunOptions, w: Walk, order: seq<GroupKind>, kind: GroupKind)
    requires kind !in order
    ensures Count(GroupsInOrder(lc, opts, w, order), kind) == 0
  {
    hide Cap, Bucket;
    if order != [] {
      var bucket := Bucket(w.states, w.ids.Values, order[0], 0);
      var here := if bucket == [] then [] else [Cap(lc, opts, order[0], None, bucket)];
      CapKind(lc, opts, order[0], None, bucket);
      NoModeKind(lc, opts, w, order[1..], kind);
      CountConcat(here, GroupsInOrder(lc, opts, w, order[1..]), kind);
    }
  }

  lemma ModeCounts(lc: Fold, opts: RunOptions, events: seq<Message>, kind: GroupKind)
    requires IsModeKind(kind)
    ensures Count(RunGroups(lc, opts, events), kind) == Verdicts(NetChanges(lc, [], AllChanges(ModeEvents(events))), kind)
  {
    hide GroupsInOrder, ModeBuckets, CapBuckets, Filter, NetChanges, NetEvents, WalkAll;
    var net := NetEvents(lc, [], ModeEvents(events));
    NetOfEvents(lc, [], ModeEvents(events));
    NoModeKind(lc, opts, WalkAll(lc, NoWalk, PresenceEvents(events)), GROUP_ORDER, kind);
    CappedCount(lc, opts, ModeBuckets([], net), kind);
    BucketsHoldVerdicts([], net, kind);
    CountConcat(PresenceGroups(lc, opts, events), ModeGroups(lc, opts, ModeEvents(events)), kind);
    assert InBuckets([], kind) == 0;
    assert Count(ModeGroups(lc, opts, ModeEvents(events)), kind) == Verdicts(net, kind);
    assert Count(PresenceGroups(lc, opts, events), kind) == 0;
  }

  lemma {:induction false} GainsAreVerdicts(net: seq<ModeState>)
    ensures Gains(net) == Verdicts(net, ModeGranted) - Verdicts(net, ModeRevoked)
    ensures |net| == Verdicts(net, ModeGranted) + Verdicts(net, ModeRevoked) + Verdicts(net, ModeBriefly) + Verdicts(net, ModeRegranted)
  {
    if net != [] {
      GainsAreVerdicts(net[1..]);
    }
  }

  /** Grants less revocations, visible and hidden, are exactly the change in how many (nick, letter)
      pairs are set; the brief and the repeated ones cancel out. */
  lemma GrantsMatchHolders(lc: Fold, opts: RunOptions, held: set<string>, events: seq<Message>)
    requires RealRun(lc, held, AllChanges(ModeEvents(events)))
    ensures var groups := RunGroups(lc, opts, events);
            Count(groups, ModeGranted) - Count(groups, ModeRevoked)
            == |AppliedAll(lc, held, AllChanges(ModeEvents(events)))| - |held|
  {
    hide RunGroups, NetChanges, AllChanges, Gains, Verdicts;
    var changes := AllChanges(ModeEvents(events));
    ModeCounts(lc, opts, events, ModeGranted);
    ModeCounts(lc, opts, events, ModeRevoked);
    GainsAreVerdicts(NetChanges(lc, [], changes));
    assert Gains([]) == 0 by { GainsAreVerdicts([]); NoVerdicts(); }
    ChangesBalance(lc, [], held, changes);
  }

  lemma NoVerdicts()
    ensures forall kind :: Verdicts([], kind) == 0
  {
  }

  // ----- each pair once, judged by its first and last change -----

  function KeysOf(lc: Fold, changes: seq<ModeChange>): set<string> {
    if changes == [] then {}
    else (if Counted(changes[0]) then {PairKey(lc, changes[0])} else {}) + KeysOf(lc, changes[1..])
  }

  function FirstSign(lc: Fold, changes: seq<ModeChange>, key: string): Option<Sign> {
    if changes == [] then None
    else if Counted(changes[0]) && PairKey(lc, changes[0]) == key then Some(SignOf(changes[0].mode))
    else FirstSign(lc, changes[1..], key)
  }

  function LastSign(lc: Fold, changes: seq<ModeChange>, key: string): Option<Sign> {
    if changes == [] then None
    else
      var later := LastSign(lc, changes[1..], key);
      if later.Some? then later
      else if Counted(changes[0]) && PairKey(lc, changes[0]) == key then Some(SignOf(changes[0].mode))
      else None
  }

  function StateOf(net: seq<ModeState>, key: string): Option<ModeState> {
    FindIsFirst(net, key);
    match Find(net, key)
    case Some(i) => Some(net[i])
    case None => None
  }

  function Or<T>(a: Option<T>, b: Option<T>): Option<T> {
    if a.Some? then a else b
  }

  lemma OneChange(lc: Fold, net: seq<ModeState>, c: ModeChange, key: string)
    requires DistinctKeys(net)
    ensures DistinctKeys(NetChange(lc, net, c))
    ensures var before, after := StateOf(net, key), StateOf(NetChange(lc, net, c), key);
            if Counted(c) && PairKey(lc, c) == key
            then after.Some? && after.value.last == SignOf(c.mode)
              && after.value.first == (if before.Some? then before.value.first else SignOf(c.mode))
            else after == before
  {
    var net' := NetChange(lc, net, c);
    hide Find;
    FindIsFirst(net, key);
    FindIsFirst(net', key);
    if Counted(c) {
      FindIsFirst(net, PairKey(lc, c));
      if Find(net, PairKey(lc, c)).None? {
        assert net'[|net|].key == PairKey(lc, c) && net'[..|net|] == net;
      }
      if Find(net, key).Some? {
        assert net'[Find(net, key).value].key == key;
      }
    }
  }

  lemma {:induction false} NetTracksSigns(lc: Fold, net: seq<ModeState>, changes: seq<ModeChange>, key: string)
    requires DistinctKeys(net)
    ensures var before, after := StateOf(net, key), StateOf(NetChanges(lc, net, changes), key);
            && DistinctKeys(NetChanges(lc, net, changes))
            && (after.Some? <==> before.Some? || FirstSign(lc, changes, key).Some?)
            && (after.Some? ==>
                 && Some(after.value.first) == Or(if before.Some? then Some(before.value.first) else None, FirstSign(lc, changes, key))
                 && Some(after.value.last) == Or(LastSign(lc, changes, key), if before.Some? then Some(before.value.last) else None))
    decreases |changes|
  {
    hide StateOf, NetChange, DistinctKeys;
    if changes != [] {
      OneChange(lc, net, changes[0], key);
      NetTracksSigns(lc, NetChange(lc, net, changes[0]), changes[1..], key);
    }
  }

  /** Nothing is dropped: every (nick, letter) pair that changed is reported exactly once, by the sign
      of its first change and the sign of its last. */
  lemma EachPairOnce(lc: Fold, changes: seq<ModeChange>, key: string)
    ensures var net := NetChanges(lc, [], changes);
            && DistinctKeys(net)
            && (FirstSign(lc, changes, key).Some? <==> exists i :: 0 <= i < |net| && net[i].key == key)
            && (forall i | 0 <= i < |net| && net[i].key == key ::
                  Some(net[i].first) == FirstSign(lc, changes, key) && Some(net[i].last) == LastSign(lc, changes, key))
  {
    hide NetChanges, FirstSign, LastSign;
    var net := NetChanges(lc, [], changes);
    NetTracksSigns(lc, [], changes, key);
    FindIsFirst(net, key);
  }
}
