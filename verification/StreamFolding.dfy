/** What consolidation keeps of a row stream (shared/consolidate.ts), and why the page unit of
    shared/eventFilter.ts matches what it draws. */
module StreamFolding {
  import opened Options
  import opened Modes
  import opened Consolidate

  // ----- partition -----

  function Flatten(segments: seq<seq<Row>>): seq<Row> {
    if segments == [] then [] else segments[0] + Flatten(segments[1..])
  }

  function Singles(rows: seq<Row>): seq<seq<Row>> {
    if rows == [] then [] else [[rows[0]]] + Singles(rows[1..])
  }

  function EmitSegments(lc: Fold, opts: RunOptions, run: seq<Row>): seq<seq<Row>>
    requires AllFold(run)
  {
    if |run| <= 1 || RunGroups(lc, opts, Events(run)) == [] then Singles(run) else [run]
  }

  /** The input rows behind each output row. */
  function Segments(lc: Fold, opts: RunOptions, run: seq<Row>, rows: seq<Row>): seq<seq<Row>>
    requires AllFold(run)
    decreases |rows|
  {
    if rows == [] then EmitSegments(lc, opts, run)
    else if Folds(rows[0]) then Segments(lc, opts, run + [rows[0]], rows[1..])
    else EmitSegments(lc, opts, run) + [[rows[0]]] + Segments(lc, opts, [], rows[1..])
  }

  /** Output row `r` stands for `segment`: it is that row itself, or the summary of that whole run. */
  predicate StandsFor(lc: Fold, opts: RunOptions, r: Row, segment: seq<Row>) {
    || segment == [r]
    || (|segment| >= 2 && AllFold(segment) && r == SummaryOf(lc, opts, segment) && r.groups != [])
  }

  ghost predicate StandFor(lc: Fold, opts: RunOptions, out: seq<Row>, segments: seq<seq<Row>>) {
    |out| == |segments| && forall i | 0 <= i < |out| :: StandsFor(lc, opts, out[i], segments[i])
  }

  lemma {:induction false} SinglesFlatten(lc: Fold, opts: RunOptions, rows: seq<Row>)
    ensures Flatten(Singles(rows)) == rows && StandFor(lc, opts, rows, Singles(rows))
  {
    if rows != [] {
      SinglesFlatten(lc, opts, rows[1..]);
      assert rows == [rows[0]] + rows[1..];
    }
  }

  lemma {:induction false} FlattenConcat(a: seq<seq<Row>>, b: seq<seq<Row>>)
    ensures Flatten(a + b) == Flatten(a) + Flatten(b)
  {
    if a == [] {
      assert a + b == b;
    } else {
      assert (a + b)[1..] == a[1..] + b;
      FlattenConcat(a[1..], b);
    }
  }

  lemma EmitPartitions(lc: Fold, opts: RunOptions, run: seq<Row>)
    requires AllFold(run)
    ensures Flatten(EmitSegments(lc, opts, run)) == run
    ensures StandFor(lc, opts, Emit(lc, opts, run), EmitSegments(lc, opts, run))
  {
    if |run| <= 1 || RunGroups(lc, opts, Events(run)) == [] {
      SinglesFlatten(lc, opts, run);
    } else {
      assert Flatten([run]) == run + Flatten([]);
    }
  }

  lemma {:induction false} FoldPartitions(lc: Fold, opts: RunOptions, run: seq<Row>, rows: seq<Row>)
    requires AllFold(run)
    ensures Flatten(Segments(lc, opts, run, rows)) == run + rows
    ensures StandFor(lc, opts, FoldRows(lc, opts, run, rows), Segments(lc, opts, run, rows))
    decreases |rows|
  {
    hide EmitSegments, Emit, StandsFor, Flatten;
    if rows == [] {
      EmitPartitions(lc, opts, run);
      assert run + rows == run;
    } else if Folds(rows[0]) {
      FoldPartitions(lc, opts, run + [rows[0]], rows[1..]);
      assert run + [rows[0]] + rows[1..] == run + rows;
    } else {
      var emitted, rest := EmitSegments(lc, opts, run), Segments(lc, opts, [], rows[1..]);
      EmitPartitions(lc, opts, run);
      FoldPartitions(lc, opts, [], rows[1..]);
      FlattenConcat(emitted + [[rows[0]]], rest);
      FlattenConcat(emitted, [[rows[0]]]);
      FlattenOne(lc, opts, rows[0]);
      assert run + [rows[0]] + ([] + rows[1..]) == run + rows;
    }
  }

  lemma FlattenOne(lc: Fold, opts: RunOptions, r: Row)
    ensures Flatten([[r]]) == [r] && StandsFor(lc, opts, r, [r])
  {
    assert Flatten([[r]][1..]) == [];
  }

  /** Consolidation partitions its input: the segments the output rows stand for are the input, in order. */
  lemma RowsPartition(lc: Fold, opts: RunOptions, rows: seq<Row>)
    ensures var segments := Segments(lc, opts, [], rows);
            Flatten(segments) == rows && StandFor(lc, opts, ConsolidateRows(lc, opts, true, rows), segments)
  {
    FoldPartitions(lc, opts, [], rows);
    assert [] + rows == rows;
  }

  // ----- nothing is lost from the counts -----

  /** How many stream rows an output row accounts for. */
  function Weight(rows: seq<Row>): nat {
    if rows == [] then 0
    else
      var here := if rows[0].Summary? then rows[0].eventCount else 1;
      here + Weight(rows[1..])
  }

  lemma {:induction false} WeightConcat(a: seq<Row>, b: seq<Row>)
    ensures Weight(a + b) == Weight(a) + Weight(b)
  {
    if a == [] {
      assert a + b == b;
    } else {
      assert (a + b)[1..] == a[1..] + b;
      WeightConcat(a[1..], b);
    }
  }

  lemma {:induction false} WeightOfRun(run: seq<Row>)
    requires forall i | 0 <= i < |run| :: run[i].Row?
    ensures Weight(run) == |run|
  {
    if run != [] {
      WeightOfRun(run[1..]);
    }
  }

  lemma EmitWeight(lc: Fold, opts: RunOptions, run: seq<Row>)
    requires AllFold(run)
    ensures Weight(Emit(lc, opts, run)) == |run|
  {
    hide RunGroups;
    WeightOfRun(run);
    var out := Emit(lc, opts, run);
    if out != run {
      assert out == [SummaryOf(lc, opts, run)] && Weight(out[1..]) == 0;
    }
  }

  lemma {:induction false} FoldKeepsWeight(lc: Fold, opts: RunOptions, run: seq<Row>, rows: seq<Row>)
    requires AllFold(run)
    ensures Weight(FoldRows(lc, opts, run, rows)) == |run| + Weight(rows)
    decreases |rows|
  {
    hide Emit;
    EmitWeight(lc, opts, run);
    if rows != [] {
      WeightConcat([rows[0]], rows[1..]);
      assert rows == [rows[0]] + rows[1..];
      if Folds(rows[0]) {
        FoldKeepsWeight(lc, opts, run + [rows[0]], rows[1..]);
        assert Weight([rows[0]]) == 1 by { assert Weight([rows[0]][1..]) == 0; }
      } else {
        FoldKeepsWeight(lc, opts, [], rows[1..]);
        WeightConcat(Emit(lc, opts, run) + [rows[0]], FoldRows(lc, opts, [], rows[1..]));
        WeightConcat(Emit(lc, opts, run), [rows[0]]);
      }
    }
  }

  /** Event counts plus passed-through rows total the input length. */
  lemma CountsTotal(lc: Fold, opts: RunOptions, enabled: bool, rows: seq<Row>)
    requires forall i | 0 <= i < |rows| :: rows[i].Row?
    ensures Weight(ConsolidateRows(lc, opts, enabled, rows)) == |rows|
  {
    WeightOfRun(rows);
    FoldKeepsWeight(lc, opts, [], rows);
  }

  // ----- maximal runs, and idempotence -----

  /** No summary stands next to another one, or next to a row that would have folded. */
  predicate SummariesApart(rows: seq<Row>) {
    forall i | 0 <= i < |rows| - 1 ::
      && (rows[i].Summary? ==> !rows[i + 1].Summary? && !Folds(rows[i + 1]))
      && (rows[i + 1].Summary? ==> !Folds(rows[i]))
  }

  lemma {:induction false} FoldKeepsApart(lc: Fold, opts: RunOptions, run: seq<Row>, rows: seq<Row>)
    requires AllFold(run)
    requires forall i | 0 <= i < |rows| :: rows[i].Row?
    ensures SummariesApart(FoldRows(lc, opts, run, rows))
    ensures rows != [] && run == [] && !Folds(rows[0]) ==> FoldRows(lc, opts, run, rows)[0] == rows[0]
    decreases |rows|
  {
    hide RunGroups;
    if rows != [] {
      if Folds(rows[0]) {
        FoldKeepsApart(lc, opts, run + [rows[0]], rows[1..]);
      } else {
        FoldKeepsApart(lc, opts, [], rows[1..]);
      }
    }
  }

  /** On a stream that holds no summaries yet, every summary covers a maximal run. */
  lemma NoAdjacentSummaries(lc: Fold, opts: RunOptions, rows: seq<Row>)
    requires forall i | 0 <= i < |rows| :: rows[i].Row?
    ensures SummariesApart(ConsolidateRows(lc, opts, true, rows))
  {
    FoldKeepsApart(lc, opts, [], rows);
  }

  lemma {:induction false} FoldFolding(lc: Fold, opts: RunOptions, run: seq<Row>, more: seq<Row>, rows: seq<Row>)
    requires AllFold(run) && AllFold(more)
    ensures FoldRows(lc, opts, run, more + rows) == FoldRows(lc, opts, run + more, rows)
    decreases |more|
  {
    if more == [] {
      assert more + rows == rows && run + more == run;
    } else {
      assert (more + rows)[1..] == more[1..] + rows && (more + rows)[0] == more[0];
      FoldFolding(lc, opts, run + [more[0]], more[1..], rows);
      assert run + [more[0]] + more[1..] == run + more;
    }
  }

  /** Folding what a finished run became, in front of a row that ends runs, gives it back. */
  lemma FoldEmitted(lc: Fold, opts: RunOptions, run: seq<Row>, rows: seq<Row>)
    requires AllFold(run) && (rows != [] ==> !Folds(rows[0]))
    ensures FoldRows(lc, opts, [], Emit(lc, opts, run) + rows)
         == Emit(lc, opts, run) + (if rows == [] then [] else [rows[0]] + FoldRows(lc, opts, [], rows[1..]))
  {
    hide RunGroups;
    var emitted := Emit(lc, opts, run);
    if emitted == run {
      FoldFolding(lc, opts, [], run, rows);
      assert [] + run == run;
    } else {
      var all := emitted + rows;
      assert all[0] == emitted[0] && !Folds(all[0]) && all[1..] == rows;
      assert Emit(lc, opts, []) == [];
    }
  }

  lemma {:induction false} FoldTwice(lc: Fold, opts: RunOptions, run: seq<Row>, rows: seq<Row>)
    requires AllFold(run)
    ensures FoldRows(lc, opts, [], FoldRows(lc, opts, run, rows)) == FoldRows(lc, opts, run, rows)
    decreases |rows|
  {
    hide Emit;
    if rows == [] {
      FoldEmitted(lc, opts, run, []);
      assert Emit(lc, opts, run) + [] == Emit(lc, opts, run);
    } else if Folds(rows[0]) {
      FoldTwice(lc, opts, run + [rows[0]], rows[1..]);
    } else {
      FoldTwice(lc, opts, [], rows[1..]);
      var rest := FoldRows(lc, opts, [], rows[1..]);
      var tail := [rows[0]] + rest;
      FoldEmitted(lc, opts, run, tail);
      assert Emit(lc, opts, run) + [rows[0]] + rest == Emit(lc, opts, run) + tail;
      assert tail[1..] == rest;
    }
  }

  /** Applying consolidation twice equals applying it once. */
  lemma Idempotent(lc: Fold, opts: RunOptions, enabled: bool, rows: seq<Row>)
    ensures var once := ConsolidateRows(lc, opts, enabled, rows);
            ConsolidateRows(lc, opts, enabled, once) == once
  {
    FoldTwice(lc, opts, [], rows);
  }

  // ----- which runs have something to say -----

  /** A mode event none of whose tokens has both a member and a letter leaves nothing to say. */
  predicate Silent(e: Message) {
    e.event.Mode? && forall c <- ChangesOf(e) :: !Counted(c)
  }

  lemma {:induction false} WalkNeverEmpties(lc: Fold, w: Walk, events: seq<Message>)
    requires w.Valid() && (w.ids != map[] || events != [])
    ensures WalkAll(lc, w, events).ids != map[]
    decreases |events|
  {
    if events != [] {
      var w' := WalkEvent(lc, w, events[0]);
      assert w'.ids != map[] by {
        assert (if events[0].event.NickChange? then lc(events[0].newNick) else lc(events[0].nick)) in w'.ids;
      }
      WalkNeverEmpties(lc, w', events[1..]);
    }
  }

  lemma {:induction false} BucketHolds(states: seq<Identity>, live: set<nat>, i: nat, from: nat)
    requires from <= i < |states| && i in live
    ensures Bucket(states, live, Classify(states[i].actions), from) != []
    decreases i - from
  {
    if from < i {
      BucketHolds(states, live, i, from + 1);
    }
  }

  lemma {:induction false} OrderHolds(lc: Fold, opts: RunOptions, w: Walk, order: seq<GroupKind>, kind: GroupKind)
    requires kind in order && Bucket(w.states, w.ids.Values, kind, 0) != []
    ensures GroupsInOrder(lc, opts, w, order) != []
  {
    if order[0] != kind {
      OrderHolds(lc, opts, w, order[1..], kind);
    }
  }

  lemma PresenceHasGroups(lc: Fold, opts: RunOptions, events: seq<Message>)
    requires PresenceEvents(events) != []
    ensures PresenceGroups(lc, opts, events) != []
  {
    var w := WalkAll(lc, NoWalk, PresenceEvents(events));
    WalkNeverEmpties(lc, NoWalk, PresenceEvents(events));
    var key :| key in w.ids;
    var i := w.ids[key];
    assert i in w.ids.Values && i < |w.states|;
    BucketHolds(w.states, w.ids.Values, i, 0);
    OrderHolds(lc, opts, w, GROUP_ORDER, Classify(w.states[i].actions));
  }

  lemma NetChangeGrows(lc: Fold, net: seq<ModeState>, c: ModeChange)
    ensures |NetChange(lc, net, c)| >= |net|
    ensures Counted(c) ==> NetChange(lc, net, c) != []
  {
    if Counted(c) {
      FindIsFirst(net, PairKey(lc, c));
    }
  }

  /** Only counted changes enter the net map, and nothing leaves it. */
  lemma {:induction false} NetChangesEmptyIff(lc: Fold, net: seq<ModeState>, changes: seq<ModeChange>)
    ensures NetChanges(lc, net, changes) == [] <==> net == [] && forall c <- changes :: !Counted(c)
    decreases |changes|
  {
    if changes != [] {
      NetChangeGrows(lc, net, changes[0]);
      NetChangesEmptyIff(lc, NetChange(lc, net, changes[0]), changes[1..]);
      assert changes == [changes[0]] + changes[1..];
    }
  }

  lemma {:induction false} NetEventsEmptyIff(lc: Fold, net: seq<ModeState>, events: seq<Message>)
    requires forall e <- events :: e.event.Mode?
    ensures NetEvents(lc, net, events) == [] <==> net == [] && forall e <- events :: Silent(e)
    decreases |events|
  {
    if events != [] {
      NetChangesEmptyIff(lc, net, ChangesOf(events[0]));
      NetEventsEmptyIff(lc, NetChanges(lc, net, ChangesOf(events[0])), events[1..]);
      assert events == [events[0]] + events[1..];
      assert events[0] in events;
      assert Silent(events[0]) <==> forall c <- ChangesOf(events[0]) :: !Counted(c);
      hide Counted, Silent, NetChanges;
    }
  }

  lemma {:induction false} BucketsEmptyIff(buckets: seq<ModeBucket>, net: seq<ModeState>)
    ensures ModeBuckets(buckets, net) == [] <==> buckets == [] && net == []
    decreases |net|
  {
    if net != [] {
      BucketsEmptyIff(AddToBucket(buckets, net[0]), net[1..]);
    }
  }

  lemma {:induction false} NoPresenceIff(events: seq<Message>)
    ensures PresenceEvents(events) == [] <==> forall e <- events :: e.event.Mode?
    ensures PresenceEvents(events) == [] ==> ModeEvents(events) == events
  {
    if events != [] {
      NoPresenceIff(events[1..]);
      assert events == [events[0]] + events[1..];
    }
  }

  lemma {:induction false} NoGroups(lc: Fold, opts: RunOptions, order: seq<GroupKind>)
    ensures GroupsInOrder(lc, opts, NoWalk, order) == []
  {
    if order != [] {
      assert Bucket(NoWalk.states, NoWalk.ids.Values, order[0], 0) == [];
      NoGroups(lc, opts, order[1..]);
    }
  }

  /** A run is summarised by nothing exactly when every event of it is silent. */
  lemma GroupsEmptyIffSilent(lc: Fold, opts: RunOptions, events: seq<Message>)
    ensures RunGroups(lc, opts, events) == [] <==> forall e <- events :: Silent(e)
  {
    NoPresenceIff(events);
    if PresenceEvents(events) != [] {
      PresenceHasGroups(lc, opts, events);
    } else {
      NoGroups(lc, opts, GROUP_ORDER);
      NetEventsEmptyIff(lc, [], events);
      BucketsEmptyIff([], NetEvents(lc, [], events));
      assert ModeGroups(lc, opts, events) == [] <==> ModeBuckets([], NetEvents(lc, [], events)) == [];
    }
  }

  // ----- the page unit -----

  datatype PageUnit = EventUnit | RenderableUnit | ChatUnit

  /** Whether a stored row spends page budget. */
  predicate CountsTowardPage(m: Message, pageUnit: PageUnit) {
    match pageUnit
    case RenderableUnit => if Consolidatable(m.event) then false else !(m.event.Mode? && IsChurnMode(m.modes))
    case ChatUnit => !(Consolidatable(m.event) || m.event.Mode?)
    case EventUnit => true
  }

  function Counting(rows: seq<Row>): nat {
    if rows == [] then 0
    else
      var counts := rows[0].Row? && rows[0].m.Some? && CountsTowardPage(rows[0].m.value, RenderableUnit);
      (if counts then 1 else 0) + Counting(rows[1..])
  }

  /** Every row wraps a message. */
  predicate MessageStream(rows: seq<Row>) {
    forall i | 0 <= i < |rows| :: rows[i].Row? && rows[i].m.Some?
  }

  /** rows[i..j] is a stretch of foldable rows that cannot be made longer. */
  predicate MaximalRun(rows: seq<Row>, i: nat, j: nat) {
    && i < j <= |rows| && AllFold(rows[i..j])
    && (i > 0 ==> !Folds(rows[i - 1])) && (j < |rows| ==> !Folds(rows[j]))
  }

  /** A run of at least two rows in which some event has something to say; one row is drawn as it is. */
  predicate Speaks(run: seq<Row>) {
    |run| >= 2 ==> exists r <- run :: r.Row? && r.m.Some? && !Silent(r.m.value)
  }

  ghost predicate RunsSpeak(rows: seq<Row>) {
    forall i: nat, j: nat | MaximalRun(rows, i, j) :: Speaks(rows[i..j])
  }

  /** The number of maximal runs, the first of which has begun already if `inside`. */
  function Runs(rows: seq<Row>, inside: bool): nat {
    if rows == [] then 0
    else (if Folds(rows[0]) && !inside then 1 else 0) + Runs(rows[1..], Folds(rows[0]))
  }

  lemma {:induction false} EventsIff(run: seq<Row>)
    requires AllFold(run)
    ensures (forall e <- Events(run) :: Silent(e)) <==> forall r <- run :: Silent(r.m.value)
  {
    if run != [] {
      EventsIff(run[1..]);
      assert run == [run[0]] + run[1..];
    }
  }

  lemma EmittedLines(lc: Fold, opts: RunOptions, run: seq<Row>)
    requires AllFold(run)
    ensures |Emit(lc, opts, run)| == if run == [] then 0 else if Speaks(run) then 1 else |run|
  {
    EventsIff(run);
    GroupsEmptyIffSilent(lc, opts, Events(run));
    hide RunGroups;
  }

  lemma WholeIsRun(run: seq<Row>)
    requires AllFold(run)
    ensures RunsSpeak(run) <==> Speaks(run)
  {
    hide Speaks, Folds;
    if run != [] {
      assert run[0..|run|] == run;
      assert MaximalRun(run, 0, |run|);
      forall i: nat, j: nat | MaximalRun(run, i, j) ensures i == 0 && j == |run| {}
    }
    assert run == [] ==> Speaks(run) by { NothingSpeaks(); }
  }

  lemma NothingSpeaks()
    ensures Speaks([])
  {
  }

  /** A row that does not fold cuts the runs into those in front of it and those behind it. */
  lemma CutRuns(run: seq<Row>, r: Row, rest: seq<Row>)
    requires AllFold(run) && !Folds(r)
    ensures RunsSpeak(run + [r] + rest) <==> Speaks(run) && RunsSpeak(rest)
  {
    var rows, n := run + [r] + rest, |run| + 1;
    hide Speaks, Folds;
    NothingSpeaks();
    assert rows[..|run|] == run && rows[n..] == rest && rows[|run|] == r;
    assert forall i: nat | i < |rest| :: rows[n + i] == rest[i];
    if RunsSpeak(rows) {
      assert run != [] ==> MaximalRun(rows, 0, |run|);
      forall i: nat, j: nat | MaximalRun(rest, i, j) ensures Speaks(rest[i..j]) {
        assert rows[n + i..n + j] == rest[i..j];
        assert MaximalRun(rows, n + i, n + j);
      }
    }
    if Speaks(run) && RunsSpeak(rest) {
      forall i: nat, j: nat | MaximalRun(rows, i, j) ensures Speaks(rows[i..j]) {
        CutRunsAt(run, r, rest, i, j);
      }
    }
  }

  lemma CutRunsAt(run: seq<Row>, r: Row, rest: seq<Row>, i: nat, j: nat)
    requires AllFold(run) && !Folds(r) && Speaks(run) && RunsSpeak(rest)
    requires MaximalRun(run + [r] + rest, i, j)
    ensures Speaks((run + [r] + rest)[i..j])
  {
    var rows, n := run + [r] + rest, |run| + 1;
    hide Speaks, Folds;
    assert rows[|run|] == r;
    if i <= |run| {
      forall k | i <= k < j ensures Folds(rows[k]) {
        assert rows[i..j][k - i] == rows[k];
      }
      assert i == 0 && j == |run|;
      assert rows[i..j] == run;
    } else {
      assert rows[i..j] == rest[i - n..j - n];
      assert MaximalRun(rest, i - n, j - n);
    }
  }

  /** One line for every counted row and every run, the pending one included. */
  function LeastLines(pending: bool, rows: seq<Row>): nat {
    Counting(rows) + Runs(rows, pending) + (if pending then 1 else 0)
  }

  ghost predicate DrawsLeast(lc: Fold, opts: RunOptions, run: seq<Row>, rows: seq<Row>)
    requires AllFold(run)
  {
    var drawn, least := |FoldRows(lc, opts, run, rows)|, LeastLines(run != [], rows);
    least <= drawn && (drawn == least <==> RunsSpeak(run + rows)) && least <= 2 * Counting(rows) + 1
  }

  lemma EndDrawsLeast(lc: Fold, opts: RunOptions, run: seq<Row>)
    requires AllFold(run)
    ensures DrawsLeast(lc, opts, run, [])
  {
    EmittedLines(lc, opts, run);
    WholeIsRun(run);
    OneRowSpeaks(run);
    assert run + [] == run;
    hide Emit, RunsSpeak, Speaks;
  }

  lemma CutDrawsLeast(lc: Fold, opts: RunOptions, run: seq<Row>, rows: seq<Row>)
    requires AllFold(run) && MessageStream(rows) && rows != [] && !Folds(rows[0]) && DrawsLeast(lc, opts, [], rows[1..])
    ensures DrawsLeast(lc, opts, run, rows)
  {
    hide Emit, RunsSpeak, Speaks, Counting, Runs, LeastLines, Folds, AllFold, MessageStream, FoldRows;
    EmittedLines(lc, opts, run);
    OneRowSpeaks(run);
    LeastCut(run != [], rows);
    CutFold(lc, opts, run, rows);
    CutRuns(run, rows[0], rows[1..]);
    Joins(run, rows);
  }

  lemma FoldDrawsLeast(lc: Fold, opts: RunOptions, run: seq<Row>, rows: seq<Row>)
    requires AllFold(run) && MessageStream(rows) && rows != [] && Folds(rows[0])
    requires DrawsLeast(lc, opts, run + [rows[0]], rows[1..])
    ensures DrawsLeast(lc, opts, run, rows)
  {
    hide Emit, RunsSpeak, Counting, Runs, LeastLines, MessageStream;
    LeastFolds(run != [], rows);
    Joins(run, rows);
  }

  lemma Joins(run: seq<Row>, rows: seq<Row>)
    requires rows != []
    ensures run + [rows[0]] + rows[1..] == run + rows && [] + rows[1..] == rows[1..]
  {
  }

  lemma LeastCut(pending: bool, rows: seq<Row>)
    requires MessageStream(rows) && rows != [] && !Folds(rows[0])
    ensures LeastLines(pending, rows) == (if pending then 1 else 0) + 1 + LeastLines(false, rows[1..])
    ensures Counting(rows) == 1 + Counting(rows[1..])
  {
    HeadCounts(rows);
    hide Counting, Folds;
  }

  lemma LeastFolds(pending: bool, rows: seq<Row>)
    requires MessageStream(rows) && rows != [] && Folds(rows[0])
    ensures MessageStream(rows[1..]) && Counting(rows) == Counting(rows[1..])
    ensures LeastLines(pending, rows) == LeastLines(true, rows[1..])
  {
    HeadCounts(rows);
    hide Counting, Folds;
  }

  lemma CutFold(lc: Fold, opts: RunOptions, run: seq<Row>, rows: seq<Row>)
    requires AllFold(run) && rows != [] && !Folds(rows[0])
    ensures |FoldRows(lc, opts, run, rows)| == |Emit(lc, opts, run)| + 1 + |FoldRows(lc, opts, [], rows[1..])|
  {
    hide Emit;
  }

  lemma {:induction false} LinesDrawn(lc: Fold, opts: RunOptions, run: seq<Row>, rows: seq<Row>)
    requires AllFold(run) && MessageStream(rows)
    ensures DrawsLeast(lc, opts, run, rows)
    decreases |rows|
  {
    hide Emit, RunsSpeak, Counting, LeastLines, Runs, DrawsLeast, FoldRows;
    if rows == [] {
      EndDrawsLeast(lc, opts, run);
    } else if Folds(rows[0]) {
      LinesDrawn(lc, opts, run + [rows[0]], rows[1..]);
      FoldDrawsLeast(lc, opts, run, rows);
    } else {
      LinesDrawn(lc, opts, [], rows[1..]);
      CutDrawsLeast(lc, opts, run, rows);
    }
  }

  lemma HeadCounts(rows: seq<Row>)
    requires MessageStream(rows)
    ensures rows != [] ==>
              && MessageStream(rows[1..])
              && Counting(rows) == (if Folds(rows[0]) then 0 else 1) + Counting(rows[1..])
  {
  }

  lemma OneRowSpeaks(run: seq<Row>)
    ensures |run| <= 1 ==> Speaks(run)
  {
  }

  /** A page is drawn as its counted rows and one line per run exactly when every run of two rows or more
      has something to say; otherwise it is more lines than that. A page of n counted rows has at most
      n + 1 runs. */
  lemma PageUnitMatchesLines(lc: Fold, opts: RunOptions, rows: seq<Row>)
    requires MessageStream(rows)
    ensures var drawn := |ConsolidateRows(lc, opts, true, rows)|;
            && Counting(rows) + Runs(rows, false) <= drawn
            && (drawn == Counting(rows) + Runs(rows, false) <==> RunsSpeak(rows))
    ensures Runs(rows, false) <= Counting(rows) + 1
  {
    LinesDrawn(lc, opts, [], rows);
    assert [] + rows == rows;
    hide FoldRows, RunsSpeak, Counting, Runs;
  }

  /** A silent run happens: two churn rows whose tokens are bare signs leave nothing to say, so they stay
      two lines where one summary was budgeted. */
  lemma BareSignsStayLines(lc: Fold, opts: RunOptions)
    ensures var bare := Row(Some(Message(None, Mode, "ops", "", 0, Some([ModeChange("+", Some("al"), Some(PrefixMode))]))), "k");
            Counting([bare, bare]) == 0 && ConsolidateRows(lc, opts, true, [bare, bare]) == [bare, bare]
  {
    var c := ModeChange("+", Some("al"), Some(PrefixMode));
    var m := Message(None, Mode, "ops", "", 0, Some([c]));
    var bare := Row(Some(m), "k");
    assert MemberStatus(c) && m.modes.value == [c] && IsChurnMode(m.modes);
    assert ModeLetter("+") == "" && Silent(m);
    SilentPairStays(lc, opts, bare);
    hide RunGroups, Silent, ConsolidateRows;
    assert [bare, bare][1..] == [bare] && Counting([bare][1..]) == 0;
    assert Counting([bare]) == 0;
  }

  lemma SilentPairStays(lc: Fold, opts: RunOptions, r: Row)
    requires Folds(r) && Silent(r.m.value)
    ensures ConsolidateRows(lc, opts, true, [r, r]) == [r, r]
  {
    var m, run := r.m.value, [r, r];
    assert run[1..] == [r] && [r][1..] == [];
    assert Events([r]) == [m] && Events(run) == [m, m];
    GroupsEmptyIffSilent(lc, opts, [m, m]);
    hide RunGroups, Silent, Folds;
    assert [] + [r] == [r] && [r] + [r] == run;
    assert FoldRows(lc, opts, run, []) == run;
    assert FoldRows(lc, opts, [r], [r]) == run;
  }
}
