/** Consolidation of presence and member-status noise into summary rows (shared/consolidate.ts).
    `lc` is the lower-casing the source applies to nicks; nothing below depends on what it does. */
module Consolidate {
  import opened Options
  import opened Modes

  type Fold = string -> string

  datatype EventType = Join | Part | Quit | NickChange | Chghost | Mode | Other(name: string)

  datatype Message = Message(
    id: Option<int>, event: EventType, nick: string, newNick: string, time: int, modes: Option<seq<ModeChange>>)

  /** The five types that fold by themselves; they also define the `renderable` page unit. */
  predicate Consolidatable(t: EventType) {
    t.Join? || t.Part? || t.Quit? || t.NickChange? || t.Chghost?
  }

  predicate FoldsIntoRun(m: Message) {
    Consolidatable(m.event) || (m.event.Mode? && IsChurnMode(m.modes))
  }

  // ----- groups -----

  datatype GroupKind =
    | Joined | Left | Reconnected | JoinedAndLeft | Renamed | Rehosted
    | ModeGranted | ModeRevoked | ModeBriefly | ModeRegranted

  datatype Entry = NickEntry(nick: string) | RenameEntry(from: string, to: string)

  datatype Group = Group(kind: GroupKind, visible: seq<Entry>, hidden: nat, letter: Option<string>)

  datatype RunOptions = RunOptions(recentSpeakers: Option<set<string>>, maxNames: int)

  /** `Math.max(1, maxNames || 5)`. */
  function NameLimit(opts: RunOptions): nat {
    if opts.maxNames == 0 then 5 else if opts.maxNames < 1 then 1 else opts.maxNames
  }

  function EntryName(e: Entry): string {
    if e.NickEntry? then e.nick else e.to
  }

  predicate Recent(lc: Fold, opts: RunOptions, e: Entry) {
    opts.recentSpeakers.Some? && exists s <- opts.recentSpeakers.value :: lc(s) == lc(EntryName(e))
  }

  function Filter<T>(keep: T -> bool, s: seq<T>): seq<T> {
    if s == [] then [] else (if keep(s[0]) then [s[0]] else []) + Filter(keep, s[1..])
  }

  /** Stable: recent speakers first, everything else in its old order. */
  function RankEntries(lc: Fold, opts: RunOptions, entries: seq<Entry>): seq<Entry> {
    Filter(e => Recent(lc, opts, e), entries) + Filter(e => !Recent(lc, opts, e), entries)
  }

  function Cap(lc: Fold, opts: RunOptions, kind: GroupKind, letter: Option<string>, entries: seq<Entry>): Group
  {
    var limit := NameLimit(opts);
    if |entries| <= limit then Group(kind, entries, 0, letter)
    else
      RankLength(lc, opts, entries);
      var ranked := RankEntries(lc, opts, entries);
      Group(kind, ranked[..limit], |ranked| - limit, letter)
  }

  lemma {:induction false} FilterSplits<T>(keep: T -> bool, drop: T -> bool, s: seq<T>)
    requires forall x :: drop(x) == !keep(x)
    ensures multiset(Filter(keep, s)) + multiset(Filter(drop, s)) == multiset(s)
    ensures |Filter(keep, s)| + |Filter(drop, s)| == |s|
  {
    if s != [] {
      FilterSplits(keep, drop, s[1..]);
      assert s == [s[0]] + s[1..];
    }
  }

  lemma RankLength(lc: Fold, opts: RunOptions, entries: seq<Entry>)
    ensures |RankEntries(lc, opts, entries)| == |entries|
    ensures multiset(RankEntries(lc, opts, entries)) == multiset(entries)
  {
    FilterSplits(e => Recent(lc, opts, e), e => !Recent(lc, opts, e), entries);
  }

  // ----- the identity walk -----

  datatype Action = J | L | R | H

  /** The bookkeeping object of one identity. */
  datatype Identity = Identity(display: string, original: string, actions: seq<Action>)

  /** `states` holds the objects in the order they were created, which is their seenIndex; `ids` is the
      map from lower-cased current nick to object. */
  datatype Walk = Walk(states: seq<Identity>, ids: map<string, nat>) {
    ghost predicate Valid() {
      && (forall k <- ids :: ids[k] < |states|)
      && (forall k, k' | k in ids && k' in ids && ids[k] == ids[k'] :: k == k')
    }
  }

  const NoWalk := Walk([], map[])

  function ActionOf(t: EventType): seq<Action> {
    match t
    case Join => [J]
    case Part => [L]
    case Quit => [L]
    case Chghost => [H]
    case _ => []
  }

  function WalkRename(lc: Fold, w: Walk, e: Message): (w': Walk)
    requires w.Valid()
    ensures w'.Valid()
  {
    var oldKey, newKey := lc(e.nick), lc(e.newNick);
    if oldKey in w.ids then
      var i := w.ids[oldKey];
      var id := w.states[i];
      Walk(w.states[i := id.(actions := id.actions + [R], display := e.newNick)], (w.ids - {oldKey})[newKey := i])
    else
      Walk(w.states + [Identity(e.newNick, e.nick, [R])], w.ids[newKey := |w.states|])
  }

  function WalkOther(lc: Fold, w: Walk, e: Message): (w': Walk)
    requires w.Valid()
    ensures w'.Valid()
  {
    var key := lc(e.nick);
    if key in w.ids then
      var i := w.ids[key];
      var id := w.states[i];
      w.(states := w.states[i := id.(actions := id.actions + ActionOf(e.event))])
    else
      Walk(w.states + [Identity(e.nick, e.nick, ActionOf(e.event))], w.ids[key := |w.states|])
  }

  function WalkEvent(lc: Fold, w: Walk, e: Message): (w': Walk)
    requires w.Valid()
    ensures w'.Valid()
  {
    if e.event.NickChange? then WalkRename(lc, w, e) else WalkOther(lc, w, e)
  }

  function WalkAll(lc: Fold, w: Walk, events: seq<Message>): (w': Walk)
    requires w.Valid()
    ensures w'.Valid()
    decreases |events|
  {
    if events == [] then w else WalkAll(lc, WalkEvent(lc, w, events[0]), events[1..])
  }

  predicate IsJL(a: Action) { a == J || a == L }

  function JL(actions: seq<Action>): seq<Action> {
    if actions == [] then [] else (if IsJL(actions[0]) then [actions[0]] else []) + JL(actions[1..])
  }

  function Classify(actions: seq<Action>): GroupKind {
    var jl := JL(actions);
    if jl == [] then (if R in actions then Renamed else Rehosted)
    else
      var wasPresent, isPresent := jl[0] == L, jl[|jl| - 1] == J;
      if !wasPresent && isPresent then Joined
      else if wasPresent && !isPresent then Left
      else if !wasPresent && !isPresent then JoinedAndLeft
      else Reconnected
  }

  function EntryOf(id: Identity): Entry {
    if Classify(id.actions) == Renamed then RenameEntry(id.original, id.display) else NickEntry(id.display)
  }

  /** The entries of one kind, over the objects still in the map, in seenIndex order. */
  function Bucket(states: seq<Identity>, live: set<nat>, kind: GroupKind, from: nat): seq<Entry>
    decreases |states| - from
  {
    if from >= |states| then []
    else
      var here := if from in live && Classify(states[from].actions) == kind then [EntryOf(states[from])] else [];
      here + Bucket(states, live, kind, from + 1)
  }

  const GROUP_ORDER: seq<GroupKind> := [Joined, Left, Reconnected, JoinedAndLeft, Renamed, Rehosted]

  function GroupsInOrder(lc: Fold, opts: RunOptions, w: Walk, order: seq<GroupKind>): seq<Group> {
    if order == [] then []
    else
      var bucket := Bucket(w.states, w.ids.Values, order[0], 0);
      (if bucket == [] then [] else [Cap(lc, opts, order[0], None, bucket)]) + GroupsInOrder(lc, opts, w, order[1..])
  }

  // ----- the mode pass -----

  datatype Sign = Plus | Minus

  /** Bookkeeping of one (nick, letter) pair; the source keys it by one string with a NUL between. */
  datatype ModeState = ModeState(key: string, nick: string, letter: string, first: Sign, last: Sign)

  function PairKey(lc: Fold, c: ModeChange): string
    requires MemberStatus(c)
  {
    lc(c.param.value) + "\0" + ModeLetter(c.mode)
  }

  function SignOf(mode: string): Sign {
    if mode != "" && mode[0] == '-' then Minus else Plus
  }

  /** The changes the pass looks at. */
  predicate Counted(c: ModeChange) {
    MemberStatus(c) && ModeLetter(c.mode) != ""
  }

  function Find(net: seq<ModeState>, key: string): Option<nat> {
    if net == [] then None
    else if net[0].key == key then Some(0)
    else
      var rest := Find(net[1..], key);
      if rest.None? then None else Some(rest.value + 1)
  }

  /** The net map, in the insertion order that is its seenIndex order. */
  function NetChange(lc: Fold, net: seq<ModeState>, c: ModeChange): (net': seq<ModeState>) {
    if !Counted(c) then net
    else
      var key, sign := PairKey(lc, c), SignOf(c.mode);
      FindIsFirst(net, key);
      match Find(net, key)
      case Some(i) => net[i := ModeState(key, c.param.value, ModeLetter(c.mode), net[i].first, sign)]
      case None => net + [ModeState(key, c.param.value, ModeLetter(c.mode), sign, sign)]
  }

  lemma {:induction false} FindIsFirst(net: seq<ModeState>, key: string)
    ensures match Find(net, key)
            case Some(i) => i < |net| && net[i].key == key && (forall j | 0 <= j < i :: net[j].key != key)
            case None => forall j | 0 <= j < |net| :: net[j].key != key
  {
    if net != [] && net[0].key != key {
      FindIsFirst(net[1..], key);
    }
  }

  function NetChanges(lc: Fold, net: seq<ModeState>, changes: seq<ModeChange>): seq<ModeState>
    decreases |changes|
  {
    if changes == [] then net else NetChanges(lc, NetChange(lc, net, changes[0]), changes[1..])
  }

  function ChangesOf(e: Message): seq<ModeChange> {
    if e.modes.Some? then e.modes.value else []
  }

  function NetEvents(lc: Fold, net: seq<ModeState>, events: seq<Message>): seq<ModeState>
    decreases |events|
  {
    if events == [] then net else NetEvents(lc, NetChanges(lc, net, ChangesOf(events[0])), events[1..])
  }

  function ClassifyMode(first: Sign, last: Sign): GroupKind {
    if first == Plus then (if last == Plus then ModeGranted else ModeBriefly)
    else if last == Plus then ModeRegranted else ModeRevoked
  }

  datatype ModeBucket = ModeBucket(kind: GroupKind, letter: string, entries: seq<Entry>)

  function FindBucket(buckets: seq<ModeBucket>, kind: GroupKind, letter: string): (at: Option<nat>)
    ensures at.Some? ==> at.value < |buckets| && buckets[at.value].kind == kind && buckets[at.value].letter == letter
  {
    if buckets == [] then None
    else if buckets[0].kind == kind && buckets[0].letter == letter then Some(0)
    else
      var rest := FindBucket(buckets[1..], kind, letter);
      if rest.None? then None else Some(rest.value + 1)
  }

  function AddToBucket(buckets: seq<ModeBucket>, st: ModeState): seq<ModeBucket> {
    var kind, entry := ClassifyMode(st.first, st.last), NickEntry(st.nick);
    match FindBucket(buckets, kind, st.letter)
    case Some(i) => buckets[i := buckets[i].(entries := buckets[i].entries + [entry])]
    case None => buckets + [ModeBucket(kind, st.letter, [entry])]
  }

  function ModeBuckets(buckets: seq<ModeBucket>, net: seq<ModeState>): seq<ModeBucket>
    decreases |net|
  {
    if net == [] then buckets else ModeBuckets(AddToBucket(buckets, net[0]), net[1..])
  }

  function CapBuckets(lc: Fold, opts: RunOptions, buckets: seq<ModeBucket>): seq<Group> {
    if buckets == [] then []
    else [Cap(lc, opts, buckets[0].kind, Some(buckets[0].letter), buckets[0].entries)] + CapBuckets(lc, opts, buckets[1..])
  }

  // ----- a run -----

  function ModeEvents(events: seq<Message>): seq<Message> {
    Filter((e: Message) => e.event.Mode?, events)
  }

  function PresenceEvents(events: seq<Message>): seq<Message> {
    Filter((e: Message) => !e.event.Mode?, events)
  }

  function PresenceGroups(lc: Fold, opts: RunOptions, events: seq<Message>): seq<Group> {
    GroupsInOrder(lc, opts, WalkAll(lc, NoWalk, PresenceEvents(events)), GROUP_ORDER)
  }

  function ModeGroups(lc: Fold, opts: RunOptions, events: seq<Message>): seq<Group> {
    CapBuckets(lc, opts, ModeBuckets([], NetEvents(lc, [], events)))
  }

  function RunGroups(lc: Fold, opts: RunOptions, events: seq<Message>): seq<Group> {
    PresenceGroups(lc, opts, events) + ModeGroups(lc, opts, ModeEvents(events))
  }

  // ----- rows -----

  /** A stream row wraps a message, is some other row (a divider), or is a summary. */
  datatype Row =
    | Row(m: Option<Message>, key: string)
    | Summary(groups: seq<Group>, eventCount: nat, time: int, firstId: Option<int>, lastId: Option<int>, key: string)

  predicate Folds(r: Row) {
    r.Row? && r.m.Some? && FoldsIntoRun(r.m.value)
  }

  predicate AllFold(run: seq<Row>) {
    forall i | 0 <= i < |run| :: Folds(run[i])
  }

  function Events(run: seq<Row>): (events: seq<Message>)
    requires AllFold(run)
    ensures |events| == |run|
  {
    if run == [] then [] else [run[0].m.value] + Events(run[1..])
  }

  function SummaryOf(lc: Fold, opts: RunOptions, run: seq<Row>): Row
    requires AllFold(run) && run != []
  {
    var events := Events(run);
    var first, last := events[0], events[|events| - 1];
    Summary(RunGroups(lc, opts, events), |events|, last.time, first.id, last.id,
            "cons:" + run[0].key + "-" + run[|run| - 1].key)
  }

  /** What a finished run becomes. */
  function Emit(lc: Fold, opts: RunOptions, run: seq<Row>): seq<Row>
    requires AllFold(run)
  {
    if |run| <= 1 || RunGroups(lc, opts, Events(run)) == [] then run else [SummaryOf(lc, opts, run)]
  }

  function FoldRows(lc: Fold, opts: RunOptions, run: seq<Row>, rows: seq<Row>): seq<Row>
    requires AllFold(run)
    decreases |rows|
  {
    if rows == [] then Emit(lc, opts, run)
    else if Folds(rows[0]) then FoldRows(lc, opts, run + [rows[0]], rows[1..])
    else Emit(lc, opts, run) + [rows[0]] + FoldRows(lc, opts, [], rows[1..])
  }

  function ConsolidateRows(lc: Fold, opts: RunOptions, enabled: bool, rows: seq<Row>): seq<Row> {
    if enabled then FoldRows(lc, opts, [], rows) else rows
  }

  // ----- the loops -----

  lemma {:induction false} NoModeEvents(events: seq<Message>)
    requires ModeEvents(events) == []
    ensures PresenceEvents(events) == events
  {
    if events != [] {
      assert !events[0].event.Mode?;
      NoModeEvents(events[1..]);
    }
  }

  lemma WalkAllStep(lc: Fold, w: Walk, events: seq<Message>)
    requires w.Valid()
    ensures WalkAll(lc, w, events) == if events == [] then w else WalkAll(lc, WalkEvent(lc, w, events[0]), events[1..])
  {
  }

  method WalkIdentities(lc: Fold, events: seq<Message>) returns (states: seq<Identity>, ids: map<string, nat>)
    ensures Walk(states, ids) == WalkAll(lc, NoWalk, events)
  {
    hide WalkAll;
    states, ids := [], map[];
    assert events[0..] == events;
    for i := 0 to |events|
      invariant Walk(states, ids).Valid()
      invariant WalkAll(lc, Walk(states, ids), events[i..]) == WalkAll(lc, NoWalk, events)
    {
      var e := events[i];
      ghost var before := Walk(states, ids);
      assert events[i..][0] == e && events[i..][1..] == events[i + 1..];
      if e.event.NickChange? {
        var oldKey, newKey := lc(e.nick), lc(e.newNick);
        if oldKey in ids {
          var at := ids[oldKey];
          states := states[at := states[at].(actions := states[at].actions + [R], display := e.newNick)];
          ids := ids - {oldKey};
          ids := ids[newKey := at];
        } else {
          states, ids := states + [Identity(e.newNick, e.nick, [R])], ids[newKey := |states|];
        }
      } else {
        var key := lc(e.nick);
        if key !in ids {
          states, ids := states + [Identity(e.nick, e.nick, [])], ids[key := |states|];
        }
        var at := ids[key];
        assert [] + ActionOf(e.event) == ActionOf(e.event);
        assert states[at].actions + [] == states[at].actions;
        if e.event.Join? {
          states := states[at := states[at].(actions := states[at].actions + [J])];
        } else if e.event.Part? || e.event.Quit? {
          states := states[at := states[at].(actions := states[at].actions + [L])];
        } else if e.event.Chghost? {
          states := states[at := states[at].(actions := states[at].actions + [H])];
        }
      }
      assert states == WalkEvent(lc, before, e).states;
      assert ids == WalkEvent(lc, before, e).ids;
      WalkAllStep(lc, before, events[i..]);
    }
    assert events[|events|..] == [];
    WalkAllStep(lc, Walk(states, ids), []);
  }

  lemma BucketStep(states: seq<Identity>, live: set<nat>, i: nat)
    requires i < |states|
    ensures forall k :: Bucket(states, live, k, i)
              == (if i in live && Classify(states[i].actions) == k then [EntryOf(states[i])] else [])
                 + Bucket(states, live, k, i + 1)
  {
  }

  method FillBuckets(states: seq<Identity>, live: set<nat>, order: seq<GroupKind>) returns (buckets: map<GroupKind, seq<Entry>>)
    requires forall actions :: Classify(actions) in order
    ensures forall k <- order :: k in buckets && buckets[k] == Bucket(states, live, k, 0)
  {
    hide Bucket;
    buckets := map k | k in order :: [];
    for i := 0 to |states|
      invariant forall k <- order :: k in buckets
      invariant forall k <- order :: buckets[k] + Bucket(states, live, k, i) == Bucket(states, live, k, 0)
    {
      BucketStep(states, live, i);
      if i in live {
        var kind := Classify(states[i].actions);
        buckets := buckets[kind := buckets[kind] + [EntryOf(states[i])]];
      }
    }
    NoBucketLeft(states, live);
  }

  lemma NoBucketLeft(states: seq<Identity>, live: set<nat>)
    ensures forall k :: Bucket(states, live, k, |states|) == []
  {
  }

  method CapInOrder(lc: Fold, opts: RunOptions, w: Walk, buckets: map<GroupKind, seq<Entry>>, order: seq<GroupKind>)
    returns (groups: seq<Group>)
    requires forall k <- order :: k in buckets && buckets[k] == Bucket(w.states, w.ids.Values, k, 0)
    ensures groups == GroupsInOrder(lc, opts, w, order)
  {
    hide Cap, Bucket;
    groups := [];
    assert order[0..] == order;
    for j := 0 to |order|
      invariant groups + GroupsInOrder(lc, opts, w, order[j..]) == GroupsInOrder(lc, opts, w, order)
    {
      var kind := order[j];
      assert order[j..][0] == kind && order[j..][1..] == order[j + 1..];
      if buckets[kind] != [] {
        groups := groups + [Cap(lc, opts, kind, None, buckets[kind])];
      }
    }
    assert order[|order|..] == [];
  }

  method ConsolidateRun(lc: Fold, opts: RunOptions, events: seq<Message>) returns (groups: seq<Group>)
    ensures groups == RunGroups(lc, opts, events)
  {
    hide ModeGroups, GroupsInOrder, Bucket, WalkAll, Filter;
    var modeEvents := ModeEvents(events);
    var presenceEvents := if |modeEvents| > 0 then PresenceEvents(events) else events;
    if modeEvents == [] { NoModeEvents(events); }
    var states, ids := WalkIdentities(lc, presenceEvents);
    var buckets := FillBuckets(states, ids.Values, GROUP_ORDER);
    var presence := CapInOrder(lc, opts, Walk(states, ids), buckets, GROUP_ORDER);
    var trailing := FoldModes(lc, opts, modeEvents);
    groups := presence + trailing;
  }

  method FoldModes(lc: Fold, opts: RunOptions, events: seq<Message>) returns (groups: seq<Group>)
    ensures groups == ModeGroups(lc, opts, events)
  {
    hide Cap;
    var net: seq<ModeState> := [];
    assert events[0..] == events;
    for i := 0 to |events|
      invariant NetEvents(lc, net, events[i..]) == NetEvents(lc, [], events)
    {
      var changes := ChangesOf(events[i]);
      assert events[i..][0] == events[i] && events[i..][1..] == events[i + 1..];
      assert changes[0..] == changes;
      for j := 0 to |changes|
        invariant NetEvents(lc, NetChanges(lc, net, changes[j..]), events[i + 1..]) == NetEvents(lc, [], events)
      {
        assert changes[j..][0] == changes[j] && changes[j..][1..] == changes[j + 1..];
        net := NetChange(lc, net, changes[j]);
      }
      assert changes[|changes|..] == [];
    }
    assert events[|events|..] == [];
    var buckets: seq<ModeBucket> := [];
    assert net[0..] == net;
    for i := 0 to |net|
      invariant ModeBuckets(buckets, net[i..]) == ModeBuckets([], net)
    {
      assert net[i..][0] == net[i] && net[i..][1..] == net[i + 1..];
      buckets := AddToBucket(buckets, net[i]);
    }
    assert net[|net|..] == [];
    groups := [];
    assert buckets[0..] == buckets;
    for i := 0 to |buckets|
      invariant groups + CapBuckets(lc, opts, buckets[i..]) == CapBuckets(lc, opts, buckets)
    {
      assert buckets[i..][0] == buckets[i] && buckets[i..][1..] == buckets[i + 1..];
      groups := groups + [Cap(lc, opts, buckets[i].kind, Some(buckets[i].letter), buckets[i].entries)];
    }
    assert buckets[|buckets|..] == [];
  }

  method FlushRun(lc: Fold, opts: RunOptions, run: seq<Row>) returns (rows: seq<Row>)
    requires AllFold(run)
    ensures rows == Emit(lc, opts, run)
  {
    hide RunGroups;
    if |run| <= 1 { return run; }
    var events := Events(run);
    var groups := ConsolidateRun(lc, opts, events);
    if groups == [] { return run; }
    rows := [Summary(groups, |events|, events[|events| - 1].time, events[0].id, events[|events| - 1].id,
                     "cons:" + run[0].key + "-" + run[|run| - 1].key)];
  }

  method FoldStream(lc: Fold, opts: RunOptions, enabled: bool, rows: seq<Row>) returns (out: seq<Row>)
    ensures out == ConsolidateRows(lc, opts, enabled, rows)
  {
    hide Emit;
    if !enabled { return rows; }
    out := [];
    var run: seq<Row> := [];
    assert rows[0..] == rows;
    for i := 0 to |rows|
      invariant AllFold(run)
      invariant out + FoldRows(lc, opts, run, rows[i..]) == FoldRows(lc, opts, [], rows)
    {
      var r := rows[i];
      assert rows[i..][0] == r && rows[i..][1..] == rows[i + 1..];
      if Folds(r) {
        run := run + [r];
      } else {
        var flushed := FlushRun(lc, opts, run);
        out := out + flushed + [r];
        run := [];
      }
    }
    assert rows[|rows|..] == [];
    var flushed := FlushRun(lc, opts, run);
    out := out + flushed;
  }
}
