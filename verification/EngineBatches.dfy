/** What a takeover over one engine socket stores of each line: which lines come out whole, and which
    lines at or below the mark have no row at all. */
module EngineBatches {
  import opened Options
  import opened EngineMarks

  /** A process that owns the line it is delivering, with rows still to store, finds the mark moved past it. */
  ghost predicate Overtaken(lines: seq<nat>, s: Shared, p: Process) {
    Delivering(lines, s, p) && Ours(s.procs[p]) && s.mark > Seq(s.procs[p])
  }

  ghost predicate InLog(log: seq<Entry>, lineSeq: nat, row: nat) {
    exists i :: 0 <= i < |log| && log[i].lineSeq == lineSeq && log[i].row == row
  }

  ghost predicate AllRows(log: seq<Entry>, lineSeq: nat, rows: nat) {
    forall r | 0 <= r < rows :: InLog(log, lineSeq, r)
  }

  /** Every line that a process owns and has finished is stored with all of its rows. */
  ghost predicate WholeLines(lines: seq<nat>, s: Shared) {
    forall p, t | p in s.procs && 0 <= t < s.procs[p].line && t < |lines| && Owns(s.log, p, t + 1) ::
      AllRows(s.log, t + 1, lines[t])
  }

  /** The step passes over no row of a line its process owns, and no process starts to own a line
      behind a row it has passed over. */
  ghost predicate Undisturbed(lines: seq<nat>, s: Shared, step: Step) {
    match step
    case Store(p) => p in s.procs ==> if Admits(lines, s, p) then Ours(s.procs[p]) || s.procs[p].row == 0 else !Ours(s.procs[p])
    case Fail(p, _) => p in s.procs ==> !Ours(s.procs[p])
    case Probe(p) => p in s.procs ==> !Ours(s.procs[p])
    case _ => true
  }

  /** The step is such a disturbance, of line t. */
  ghost predicate Disturbs(lines: seq<nat>, s: Shared, step: Step, t: nat) {
    !Undisturbed(lines, s, step) && step.p in s.procs && s.procs[step.p].line == t
  }

  // ----- facts about one step and about runs -----

  lemma StepAt(lines: seq<nat>, run: seq<Shared>, steps: seq<Step>, i: nat)
    requires IsRun(lines, run, steps) && i + 1 < |run|
    ensures i < |steps| && Enabled(lines, run[i], steps[i]) && run[i + 1] == Next(lines, run[i], steps[i])
  {
    hide Enabled, Next;
  }

  /** Processes only move forward, and the log only grows. */
  lemma StepGrows(lines: seq<nat>, s: Shared, step: Step)
    requires Enabled(lines, s, step)
    ensures s.log <= Next(lines, s, step).log
    ensures forall p | p in s.procs :: p in Next(lines, s, step).procs && Behind(s.procs[p], Next(lines, s, step).procs[p])
  {
  }

  predicate Behind(a: Local, b: Local) {
    a.line < b.line || (a.line == b.line && a.row <= b.row)
  }

  /** A process's last store is its highest, and is for no line ahead of it. */
  ghost predicate LastIsHighest(s: Shared, p: Process) {
    p in s.procs ==>
      && (forall i | 0 <= i < |s.log| && s.log[i].owner == p ::
            s.procs[p].storedUnder.Some? && s.log[i].lineSeq <= s.procs[p].storedUnder.value)
      && (s.procs[p].storedUnder.Some? ==> s.procs[p].storedUnder.value <= Seq(s.procs[p]))
  }

  ghost predicate Recall(s: Shared) {
    && LastIsHighest(s, Predecessor) && LastIsHighest(s, Successor)
    && (Successor !in s.procs ==> forall i | 0 <= i < |s.log| :: s.log[i].owner == Predecessor)
  }

  lemma StepKeepsRecall(lines: seq<nat>, s: Shared, step: Step)
    requires Recall(s) && Enabled(lines, s, step)
    ensures Recall(Next(lines, s, step))
  {
    StepKeepsLast(lines, s, step, Predecessor);
    StepKeepsLast(lines, s, step, Successor);
    hide LastIsHighest;
  }

  lemma StepKeepsLast(lines: seq<nat>, s: Shared, step: Step, p: Process)
    requires Recall(s) && Enabled(lines, s, step)
    ensures LastIsHighest(Next(lines, s, step), p)
  {
  }

  lemma {:induction false} RunRecalls(lines: seq<nat>, run: seq<Shared>, steps: seq<Step>, k: nat)
    requires IsRun(lines, run, steps) && k < |run|
    ensures Recall(run[k])
  {
    if k > 0 {
      RunRecalls(lines, run, steps, k - 1);
      hide Recall;
      StepKeepsRecall(lines, run[k - 1], steps[k - 1]);
    }
  }

  /** A process that owns its current line knows it. */
  lemma OwnerKnows(s: Shared, p: Process)
    requires Recall(s) && p in s.procs && Owns(s.log, p, Seq(s.procs[p]))
    ensures Ours(s.procs[p])
  {
    var i :| 0 <= i < |s.log| && s.log[i].lineSeq == Seq(s.procs[p]) && s.log[i].owner == p;
    assert LastIsHighest(s, p);
  }

  // ----- without a disturbance every line is whole -----

  /** Line t, when a process that owns it is delivering it, is stored up to that process's next row. */
  ghost predicate SoFar(s: Shared, p: Process, t: nat) {
    p in s.procs && s.procs[p].line == t && Ours(s.procs[p]) ==> AllRows(s.log, t + 1, s.procs[p].row)
  }

  /** Line t, when a process that owns it has finished it, is stored with all of its rows. */
  ghost predicate LineWhole(lines: seq<nat>, s: Shared, t: nat)
    requires t < |lines|
  {
    forall p | p in s.procs && t < s.procs[p].line && Owns(s.log, p, t + 1) :: AllRows(s.log, t + 1, lines[t])
  }

  ghost predicate Whole(lines: seq<nat>, s: Shared, t: nat)
    requires t < |lines|
  {
    LineWhole(lines, s, t) && SoFar(s, Predecessor, t) && SoFar(s, Successor, t)
  }

  lemma AllRowsGrow(log: seq<Entry>, e: Entry, lineSeq: nat, rows: nat)
    requires AllRows(log, lineSeq, rows)
    ensures AllRows(log + [e], lineSeq, rows)
    ensures e.lineSeq == lineSeq && e.row == rows ==> AllRows(log + [e], lineSeq, rows + 1)
  {
    var more := log + [e];
    assert more[|log|] == e;
    forall r | 0 <= r < rows ensures InLog(more, lineSeq, r) {
      assert InLog(log, lineSeq, r);
      var i :| 0 <= i < |log| && log[i].lineSeq == lineSeq && log[i].row == r;
      assert more[i] == log[i];
    }
  }

  lemma StoredSoFar(lines: seq<nat>, s: Shared, p: Process, q: Process, t: nat)
    requires SoFar(s, p, t) && SoFar(s, q, t) && Admits(lines, s, p) && !Disturbs(lines, s, Store(p), t)
    ensures SoFar(Keep(s, p), q, t)
  {
    var l := s.procs[p];
    var e := Entry(Seq(l), l.row, p);
    hide InLog;
    if q == p {
      if l.line == t {
        assert AllRows(s.log, Seq(l), l.row);
        AllRowsGrow(s.log, e, Seq(l), l.row);
      }
    } else if q in s.procs && s.procs[q].line == t && Ours(s.procs[q]) {
      AllRowsGrow(s.log, e, t + 1, s.procs[q].row);
    }
  }

  lemma StoredKeepsLine(lines: seq<nat>, s: Shared, p: Process, q: Process, t: nat)
    requires t < |lines| && LineWhole(lines, s, t) && Admits(lines, s, p)
    requires q in s.procs && t < s.procs[q].line && Owns(Keep(s, p).log, q, t + 1)
    ensures AllRows(Keep(s, p).log, t + 1, lines[t])
  {
    var e := Entry(Seq(s.procs[p]), s.procs[p].row, p);
    GrowOwns(s.log, e, q, t + 1);
    hide AllRows, Owns;
    AllRowsGrow(s.log, e, t + 1, lines[t]);
  }

  lemma StoredIsWhole(lines: seq<nat>, s: Shared, p: Process, t: nat)
    requires t < |lines| && Whole(lines, s, t) && Admits(lines, s, p) && !Disturbs(lines, s, Store(p), t)
    ensures Whole(lines, Keep(s, p), t)
  {
    hide SoFar, Disturbs, AllRows, Owns;
    StoredSoFar(lines, s, p, Predecessor, t);
    StoredSoFar(lines, s, p, Successor, t);
    forall q | q in Keep(s, p).procs && t < Keep(s, p).procs[q].line && Owns(Keep(s, p).log, q, t + 1)
      ensures AllRows(Keep(s, p).log, t + 1, lines[t])
    {
      StoredKeepsLine(lines, s, p, q, t);
    }
  }

  lemma QuietSoFar(lines: seq<nat>, s: Shared, step: Step, q: Process, t: nat)
    requires Recall(s) && SoFar(s, q, t) && Enabled(lines, s, step)
    requires !Stores(lines, s, step) && !Disturbs(lines, s, step, t)
    ensures SoFar(Next(lines, s, step), q, t)
  {
    hide AllRows;
    assert LastIsHighest(s, q);
  }

  lemma QuietKeepsLine(lines: seq<nat>, s: Shared, step: Step, q: Process, t: nat)
    requires Recall(s) && t < |lines| && LineWhole(lines, s, t) && SoFar(s, q, t)
    requires Enabled(lines, s, step) && !Stores(lines, s, step)
    requires q in Next(lines, s, step).procs && t < Next(lines, s, step).procs[q].line && Owns(s.log, q, t + 1)
    ensures AllRows(s.log, t + 1, lines[t])
  {
    hide AllRows;
    assert q in s.procs by {
      var o :| 0 <= o < |s.log| && s.log[o].lineSeq == t + 1 && s.log[o].owner == q;
    }
    hide Recall;
    if t == s.procs[q].line {
      OwnerKnows(s, q);
    }
  }

  lemma QuietIsWhole(lines: seq<nat>, s: Shared, step: Step, t: nat)
    requires Recall(s) && t < |lines| && Whole(lines, s, t) && Enabled(lines, s, step)
    requires !Stores(lines, s, step) && !Disturbs(lines, s, step, t)
    ensures Whole(lines, Next(lines, s, step), t)
  {
    var s' := Next(lines, s, step);
    assert s'.log == s.log;
    hide SoFar, Disturbs, AllRows, Owns, Enabled, Next, Recall;
    QuietSoFar(lines, s, step, Predecessor, t);
    QuietSoFar(lines, s, step, Successor, t);
    forall q | q in s'.procs && t < s'.procs[q].line && Owns(s'.log, q, t + 1)
      ensures AllRows(s'.log, t + 1, lines[t])
    {
      assert q == Predecessor || q == Successor;
      QuietKeepsLine(lines, s, step, q, t);
    }
  }

  /** As long as no step disturbs a line, it is stored, once owned, up to where its owner is. */
  lemma {:induction false} UndisturbedIsWhole(lines: seq<nat>, run: seq<Shared>, steps: seq<Step>, k: nat, t: nat)
    requires IsRun(lines, run, steps) && k < |run| && t < |lines|
    requires forall i | 0 <= i < k :: !Disturbs(lines, run[i], steps[i], t)
    ensures Whole(lines, run[k], t)
  {
    if k > 0 {
      UndisturbedIsWhole(lines, run, steps, k - 1, t);
      RunRecalls(lines, run, steps, k - 1);
      hide Whole, Recall, Disturbs;
      var s, step := run[k - 1], steps[k - 1];
      assert !Disturbs(lines, s, step, t);
      if Stores(lines, s, step) {
        StoredIsWhole(lines, s, step.p, t);
      } else {
        QuietIsWhole(lines, s, step, t);
      }
    }
  }

  // ----- a row its owner has passed over never comes back -----

  /** p owns the line, has the row behind it, and the row is not stored. */
  ghost predicate Passed(s: Shared, p: Process, lineSeq: nat, row: nat) {
    && p in s.procs && Behind(Local(lineSeq, row + 1, None), s.procs[p].(line := Seq(s.procs[p])))
    && Owns(s.log, p, lineSeq) && !InLog(s.log, lineSeq, row)
  }

  lemma OwnsAndOneOwner(log: seq<Entry>, p: Process, e: Entry)
    requires Owns(log, p, e.lineSeq) && OneOwner(log + [e])
    ensures e.owner == p
  {
    var i :| 0 <= i < |log| && log[i].lineSeq == e.lineSeq && log[i].owner == p;
    var more := log + [e];
    assert more[i] == log[i] && more[|log|] == e;
  }

  lemma GrowInLog(log: seq<Entry>, e: Entry, lineSeq: nat, row: nat)
    ensures InLog(log + [e], lineSeq, row) <==> InLog(log, lineSeq, row) || (e.lineSeq == lineSeq && e.row == row)
  {
    var more := log + [e];
    assert more[|log|] == e && forall i | 0 <= i < |log| :: more[i] == log[i];
  }

  lemma StoreKeepsPassed(lines: seq<nat>, s: Shared, p: Process, q: Process, lineSeq: nat, row: nat)
    requires Inv(lines, s) && Admits(lines, s, q) && Passed(s, p, lineSeq, row)
    ensures Passed(Keep(s, q), p, lineSeq, row)
  {
    var e := Entry(Seq(s.procs[q]), s.procs[q].row, q);
    StoreKeepsSafe(lines, s, q);
    GrowInLog(s.log, e, lineSeq, row);
    GrowOwns(s.log, e, p, lineSeq);
    hide Inv, InLog, Owns, OneOwner, NoGap, NoDouble, MarkIsHighest;
    if e.lineSeq == lineSeq {
      OwnsAndOneOwner(s.log, p, e);
    }
  }

  lemma StepKeepsPassed(lines: seq<nat>, s: Shared, step: Step, p: Process, lineSeq: nat, row: nat)
    requires Inv(lines, s) && Enabled(lines, s, step) && Passed(s, p, lineSeq, row)
    ensures Passed(Next(lines, s, step), p, lineSeq, row)
  {
    StepGrows(lines, s, step);
    hide Inv, Owns, InLog;
    if Stores(lines, s, step) {
      StoreKeepsPassed(lines, s, p, step.p, lineSeq, row);
    } else {
      assert Next(lines, s, step).log == s.log;
    }
  }

  lemma {:induction false} PassedForGood(lines: seq<nat>, run: seq<Shared>, steps: seq<Step>, k: nat, m: nat, p: Process, lineSeq: nat, row: nat)
    requires IsRun(lines, run, steps) && k <= m < |run| && Passed(run[k], p, lineSeq, row)
    ensures Passed(run[m], p, lineSeq, row)
    decreases m
  {
    hide *;
    if k < m {
      PassedForGood(lines, run, steps, k, m - 1, p, lineSeq, row);
      TakeoverIsSafe(lines, run, steps, m - 1);
      StepAt(lines, run, steps, m - 1);
      StepKeepsPassed(lines, run[m - 1], steps[m - 1], p, lineSeq, row);
    }
  }

  /** The row a process is about to handle is not stored yet if it owns the line. */
  lemma NextRowIsMissing(lines: seq<nat>, s: Shared, p: Process)
    requires Inv(lines, s) && p in s.procs && Ours(s.procs[p])
    ensures Owns(s.log, p, Seq(s.procs[p]))
    ensures !InLog(s.log, Seq(s.procs[p]), s.procs[p].row)
  {
    var l := s.procs[p];
    Parts(lines, s, p);
    hide NoGap, NoDouble, HandledBelow, MarkIsHighest, Tracks;
    var j :| 0 <= j < |s.log| && s.log[j].lineSeq == Seq(l) && s.log[j].owner == p;
    assert forall i | 0 <= i < |s.log| && s.log[i].lineSeq == Seq(l) :: s.log[i].owner == s.log[j].owner;
  }

  /** A process that stores the first row of its line behind a row it passed over leaves that row out. */
  lemma LateStart(lines: seq<nat>, s: Shared, p: Process)
    requires Inv(lines, s) && Admits(lines, s, p) && !Ours(s.procs[p]) && s.procs[p].row > 0
    ensures Passed(Keep(s, p), p, Seq(s.procs[p]), s.procs[p].row - 1)
  {
    var l := s.procs[p];
    var e := Entry(Seq(l), l.row, p);
    AboveTheMark(lines, s, Seq(l));
    GrowInLog(s.log, e, Seq(l), l.row - 1);
    GrowOwns(s.log, e, p, Seq(l));
    hide Inv, InLog, Owns;
  }

  lemma AboveTheMark(lines: seq<nat>, s: Shared, lineSeq: nat)
    requires Inv(lines, s) && s.mark < lineSeq
    ensures !HasRow(s.log, lineSeq) && forall row: nat :: !InLog(s.log, lineSeq, row)
  {
    hide NoGap, NoDouble, OneOwner, Tracks;
  }

  /** Whatever disturbs a line leaves a row of it behind its owner. */
  lemma DisturbanceLosesRow(lines: seq<nat>, s: Shared, step: Step) returns (p: Process, row: nat)
    requires Inv(lines, s) && Enabled(lines, s, step) && !Undisturbed(lines, s, step)
    ensures p == step.p && p in s.procs && s.procs[p].line < |lines| && row < lines[s.procs[p].line]
    ensures Passed(Next(lines, s, step), p, Seq(s.procs[p]), row)
  {
    p := step.p;
    hide Inv, Owns, InLog;
    if Stores(lines, s, step) {
      row := s.procs[p].row - 1;
      LateStart(lines, s, p);
    } else {
      row := s.procs[p].row;
      NextRowIsMissing(lines, s, p);
    }
  }

  /** A disturbed line is owned and stays incomplete. */
  lemma DisturbedStaysPartial(lines: seq<nat>, run: seq<Shared>, steps: seq<Step>, i: nat) returns (p: Process, t: nat)
    requires IsRun(lines, run, steps) && i < |steps| && !Undisturbed(lines, run[i], steps[i])
    ensures p in run[i].procs && p in run[|steps|].procs && Disturbs(lines, run[i], steps[i], t)
    ensures t < |lines| && Owns(run[|steps|].log, p, t + 1) && !AllRows(run[|steps|].log, t + 1, lines[t])
  {
    TakeoverIsSafe(lines, run, steps, i);
    StepAt(lines, run, steps, i);
    hide IsRun, Undisturbed, Inv, Safe, Enabled, Next, AllRows, InLog, Owns;
    var row;
    p, row := DisturbanceLosesRow(lines, run[i], steps[i]);
    t := run[i].procs[p].line;
    PassedForGood(lines, run, steps, i + 1, |steps|, p, t + 1, row);
    MissingRow(run[|steps|].log, t + 1, row, lines[t]);
  }

  predicate Finished(lines: seq<nat>, s: Shared) {
    forall p | p in s.procs :: s.procs[p].line >= |lines|
  }

  /** When both processes have finished, a stored line has all of its rows exactly if no step disturbed
      it: none of its rows was refused, thrown out or dropped by the catch-up check once its process had
      stored one, and its first stored row was not behind one that had thrown. */
  lemma LineWholeIff(lines: seq<nat>, run: seq<Shared>, steps: seq<Step>, t: nat, q: Process)
    requires IsRun(lines, run, steps) && Finished(lines, run[|steps|])
    requires t < |lines| && Owns(run[|steps|].log, q, t + 1)
    ensures AllRows(run[|steps|].log, t + 1, lines[t])
            <==> forall i | 0 <= i < |steps| :: !Disturbs(lines, run[i], steps[i], t)
  {
    TakeoverIsSafe(lines, run, steps, |steps|);
    hide Inv, Safe, Enabled, Next, AllRows, InLog, Owns, Undisturbed;
    if i :| 0 <= i < |steps| && Disturbs(lines, run[i], steps[i], t) {
      var p, t' := DisturbedStaysPartial(lines, run, steps, i);
    } else {
      UndisturbedIsWhole(lines, run, steps, |steps|, t);
      OwnerPresent(lines, run[|steps|], q, t + 1);
    }
  }

  /** So all stored lines are whole exactly if no step disturbed any. */
  lemma WholeIffUndisturbed(lines: seq<nat>, run: seq<Shared>, steps: seq<Step>)
    requires IsRun(lines, run, steps) && Finished(lines, run[|steps|])
    ensures WholeLines(lines, run[|steps|]) <==> forall i | 0 <= i < |steps| :: Undisturbed(lines, run[i], steps[i])
  {
    var end := run[|steps|];
    hide Enabled, Next, AllRows, InLog, Owns, Undisturbed;
    if i :| 0 <= i < |steps| && !Undisturbed(lines, run[i], steps[i]) {
      var p, t := DisturbedStaysPartial(lines, run, steps, i);
      LineNotWhole(lines, end, p, t);
    } else {
      forall p, t | p in end.procs && 0 <= t < end.procs[p].line && t < |lines| && Owns(end.log, p, t + 1)
        ensures AllRows(end.log, t + 1, lines[t])
      {
        LineWholeIff(lines, run, steps, t, p);
      }
    }
  }

  lemma MissingRow(log: seq<Entry>, lineSeq: nat, row: nat, rows: nat)
    requires !InLog(log, lineSeq, row) && row < rows
    ensures !AllRows(log, lineSeq, rows)
  {
  }

  // ----- behind the mark -----

  lemma StepPastTheMark(lines: seq<nat>, s: Shared, step: Step, lineSeq: nat)
    requires Inv(lines, s) && Enabled(lines, s, step) && s.mark > lineSeq
    ensures Next(lines, s, step).mark > lineSeq && s.log <= Next(lines, s, step).log
    ensures forall j | |s.log| <= j < |Next(lines, s, step).log| :: Next(lines, s, step).log[j].lineSeq > lineSeq
  {
    hide Safe, Tracks;
  }

  /** Once the mark is past a line, no row of that line is stored any more. */
  lemma {:induction false} PastTheMark(lines: seq<nat>, run: seq<Shared>, steps: seq<Step>, k: nat, m: nat, lineSeq: nat)
    requires IsRun(lines, run, steps) && k <= m < |run| && run[k].mark > lineSeq
    ensures run[m].mark > lineSeq && run[k].log <= run[m].log
    ensures forall j | |run[k].log| <= j < |run[m].log| :: run[m].log[j].lineSeq > lineSeq
    decreases m
  {
    hide *;
    if k < m {
      PastTheMark(lines, run, steps, k, m - 1, lineSeq);
      TakeoverIsSafe(lines, run, steps, m - 1);
      StepAt(lines, run, steps, m - 1);
      var s, more := run[m - 1], run[m];
      StepPastTheMark(lines, s, steps[m - 1], lineSeq);
      forall j | |run[k].log| <= j < |more.log| ensures more.log[j].lineSeq > lineSeq {
        assert j < |s.log| ==> more.log[j] == s.log[j];
      }
    }
  }

  /** An overtaken process leaves its line incomplete. */
  lemma OvertakenLosesRow(lines: seq<nat>, run: seq<Shared>, steps: seq<Step>, k: nat, m: nat, p: Process)
    requires IsRun(lines, run, steps) && k <= m < |run|
    requires Overtaken(lines, run[k], p)
    requires p in run[m].procs ==> run[m].procs[p].line > run[k].procs[p].line
    ensures !WholeLines(lines, run[m])
  {
    var s, l := run[k], run[k].procs[p];
    TakeoverIsSafe(lines, run, steps, k);
    TakeoverIsSafe(lines, run, steps, m);
    hide Inv, Safe, Enabled, Next;
    NextRowIsMissing(lines, s, p);
    PastTheMark(lines, run, steps, k, m, Seq(l));
    OwnerPresent(lines, run[m], p, Seq(l)) by {
      var o :| 0 <= o < |s.log| && s.log[o].lineSeq == Seq(l) && s.log[o].owner == p;
      assert run[m].log[o] == s.log[o];
    }
    assert !InLog(run[m].log, Seq(l), l.row);
    MissingRow(run[m].log, Seq(l), l.row, lines[l.line]);
  }

  lemma OwnerPresent(lines: seq<nat>, s: Shared, p: Process, lineSeq: nat)
    requires Inv(lines, s) && Owns(s.log, p, lineSeq)
    ensures p in s.procs
  {
    hide Safe, Tracks;
  }

  /** Some process, past line t, stores a row while the mark is not yet at line t: for every row of line t
      it had, the insert threw or the throw had ended the line. */
  ghost predicate JumpsOver(s: Shared, step: Step, t: nat) {
    && step.Store? && step.p in s.procs
    && s.mark <= t < s.procs[step.p].line && t + 1 in s.threw
  }

  lemma JumpIsBehindTheMark(lines: seq<nat>, s: Shared, step: Step, t: nat)
    requires Inv(lines, s) && Enabled(lines, s, step) && JumpsOver(s, step, t)
    ensures Next(lines, s, step).mark > t + 1 && !HasRow(Next(lines, s, step).log, t + 1)
  {
    AboveTheMark(lines, s, t + 1);
    hide Inv, HasRow;
    var l := s.procs[step.p];
    GrowHasRow(s.log, Entry(Seq(l), l.row, step.p), t + 1);
  }

  /** The step that brings the mark to or past a line stores a row of it, or jumps over it. */
  lemma CrossingStep(lines: seq<nat>, s: Shared, step: Step, t: nat)
    requires Inv(lines, s) && Enabled(lines, s, step) && t < |lines| && lines[t] > 0
    requires s.mark <= t < Next(lines, s, step).mark && !HasRow(Next(lines, s, step).log, t + 1)
    ensures JumpsOver(s, step, t)
  {
    var p := step.p;
    Parts(lines, s, p);
    var l := s.procs[p];
    GrowHasRow(s.log, Entry(Seq(l), l.row, p), t + 1);
    hide Inv, HasRow, StoredBehind, Remembers;
  }

  lemma StepKeepsRows(lines: seq<nat>, s: Shared, step: Step, lineSeq: nat)
    requires Enabled(lines, s, step) && HasRow(s.log, lineSeq)
    ensures HasRow(Next(lines, s, step).log, lineSeq)
  {
    if Stores(lines, s, step) {
      GrowHasRow(s.log, Entry(Seq(s.procs[step.p]), s.procs[step.p].row, step.p), lineSeq);
    }
    hide HasRow;
  }

  lemma {:induction false} MissingWasJumped(lines: seq<nat>, run: seq<Shared>, steps: seq<Step>, k: nat, t: nat) returns (i: nat)
    requires IsRun(lines, run, steps) && k < |run| && t < |lines| && lines[t] > 0
    requires t + 1 <= run[k].mark && !HasRow(run[k].log, t + 1)
    ensures i < k && JumpsOver(run[i], steps[i], t)
  {
    TakeoverIsSafe(lines, run, steps, k - 1);
    hide Inv, Safe, HasRow, JumpsOver, Enabled, Next;
    i := k - 1;
    if t + 1 <= run[i].mark {
      if HasRow(run[i].log, t + 1) {
        StepKeepsRows(lines, run[i], steps[i], t + 1);
      }
      i := MissingWasJumped(lines, run, steps, i, t);
    } else {
      CrossingStep(lines, run[i], steps[i], t);
    }
  }

  /** Exactly which row-producing lines at or below the mark have no row: those an insert threw for and a
      process then jumped over. */
  lemma MissingIffJumpedOver(lines: seq<nat>, run: seq<Shared>, steps: seq<Step>, k: nat, t: nat)
    requires IsRun(lines, run, steps) && k < |run| && t < |lines| && lines[t] > 0 && t + 1 <= run[k].mark
    ensures !HasRow(run[k].log, t + 1) <==> exists i :: 0 <= i < k && JumpsOver(run[i], steps[i], t)
  {
    hide JumpsOver, Inv, Safe, Enabled, Next;
    if !HasRow(run[k].log, t + 1) {
      var i := MissingWasJumped(lines, run, steps, k, t);
      assert JumpsOver(run[i], steps[i], t);
    }
    if i :| 0 <= i < k && JumpsOver(run[i], steps[i], t) {
      TakeoverIsSafe(lines, run, steps, i);
      JumpIsBehindTheMark(lines, run[i], steps[i], t);
      PastTheMark(lines, run, steps, i + 1, k, t + 1);
    }
  }

  /** With no failing insert there is no gap at all. */
  lemma {:induction false} NoThrowNoGap(lines: seq<nat>, run: seq<Shared>, steps: seq<Step>, k: nat)
    requires IsRun(lines, run, steps) && k < |run|
    requires forall i | 0 <= i < k :: !steps[i].Fail?
    ensures run[k].threw == {}
    ensures forall t: nat | t < |lines| && lines[t] > 0 && t + 1 <= run[k].mark :: HasRow(run[k].log, t + 1)
  {
    TakeoverIsSafe(lines, run, steps, k);
    hide HasRow;
    if k > 0 {
      NoThrowNoGap(lines, run, steps, k - 1);
      hide Inv, OneOwner, NoDouble, MarkIsHighest;
      assert !steps[k - 1].Fail?;
    }
  }

  // ----- what a store does, and that a process left alone stores everything -----

  /** The protocol's store: refused below the mark, and at the mark unless the process stored a row of the
      line itself; else the row goes in, the mark is the line's, and the process knows the line as its own. */
  lemma StoreOutcome(lines: seq<nat>, s: Shared, p: Process)
    requires Enabled(lines, s, Store(p))
    ensures var l, after := s.procs[p], Next(lines, s, Store(p));
      var lineSeq := l.line + 1;
      if lineSeq < s.mark || (lineSeq == s.mark && l.storedUnder != Some(lineSeq))
      then after == Shared(s.mark, s.log, s.procs[p := Local(l.line, l.row + 1, l.storedUnder)], s.threw)
      else after == Shared(lineSeq, s.log + [Entry(lineSeq, l.row, p)], s.procs[p := Local(l.line, l.row + 1, Some(lineSeq))], s.threw)
  {
  }

  /** In every state of every run: each row-producing line at or below the mark has a row, unless an insert
      threw for it; rows went in by rising seq, up to the mark; and two rows of one seq are different rows of
      one process. */
  lemma TakeoverKeeps(lines: seq<nat>, run: seq<Shared>, steps: seq<Step>, k: nat)
    requires IsRun(lines, run, steps) && k < |run|
    ensures var s := run[k];
      && (forall t: nat | t < |lines| && lines[t] > 0 && t < s.mark ::
            (exists i :: 0 <= i < |s.log| && s.log[i].lineSeq == t + 1) || t + 1 in s.threw)
      && (forall i, j | 0 <= i < j < |s.log| :: s.log[i].lineSeq <= s.log[j].lineSeq)
      && (if s.log == [] then s.mark == 0 else s.mark == s.log[|s.log| - 1].lineSeq)
      && (forall i, j | 0 <= i < j < |s.log| && s.log[i].lineSeq == s.log[j].lineSeq ::
            s.log[i].owner == s.log[j].owner && s.log[i].row != s.log[j].row)
  {
    TakeoverIsSafe(lines, run, steps, k);
    hide IsRun, Inv;
    var s := run[k];
    forall t: nat | t < |lines| && lines[t] > 0 && t < s.mark
      ensures (exists i :: 0 <= i < |s.log| && s.log[i].lineSeq == t + 1) || t + 1 in s.threw
    {
      assert HasRow(s.log, t + 1) || t + 1 in s.threw;
    }
  }

  /** A refused row, a throw or a drop by the catch-up check passes over the row and stores nothing. */
  lemma PassOutcome(lines: seq<nat>, s: Shared, p: Process, endsLine: bool)
    ensures Enabled(lines, s, Probe(p)) ==>
              Next(lines, s, Probe(p)) == s.(procs := s.procs[p := s.procs[p].(row := s.procs[p].row + 1)])
    ensures Enabled(lines, s, Fail(p, endsLine)) ==>
              Next(lines, s, Fail(p, endsLine))
              == s.(procs := s.procs[p := s.procs[p].(row := if endsLine then lines[s.procs[p].line] else s.procs[p].row + 1)],
                    threw := s.threw + {s.procs[p].line + 1})
  {
  }

  /** Everything up to where the predecessor is has been stored by it. */
  ghost predicate AllStored(lines: seq<nat>, s: Shared) {
    && s.procs.Keys == {Predecessor}
    && var l := s.procs[Predecessor];
       && (forall t: nat | t < l.line && t < |lines| :: AllRows(s.log, t + 1, lines[t]))
       && AllRows(s.log, l.line + 1, l.row)
       && s.mark <= l.line + 1 && (if l.row == 0 then s.mark <= l.line else l.storedUnder == Some(l.line + 1))
  }

  lemma StoreKeepsStored(lines: seq<nat>, s: Shared)
    requires AllStored(lines, s) && Enabled(lines, s, Store(Predecessor))
    ensures AllStored(lines, Next(lines, s, Store(Predecessor)))
  {
    StoreOutcome(lines, s, Predecessor);
    var l := s.procs[Predecessor];
    var e := Entry(l.line + 1, l.row, Predecessor);
    hide AllRows, Next;
    AllRowsGrow(s.log, e, l.line + 1, l.row);
    forall t: nat | t < l.line && t < |lines| ensures AllRows(s.log + [e], t + 1, lines[t]) {
      AllRowsGrow(s.log, e, t + 1, lines[t]);
    }
  }

  /** A process left alone, none of whose inserts throws and whose catch-up check drops nothing, stores every
      row of every line it has finished. */
  lemma {:induction false} AloneStoresAll(lines: seq<nat>, run: seq<Shared>, steps: seq<Step>, k: nat)
    requires IsRun(lines, run, steps) && k < |run|
    requires forall i | 0 <= i < k :: steps[i] == Store(Predecessor) || steps[i] == Advance(Predecessor)
    ensures AllStored(lines, run[k])
  {
    if k > 0 {
      AloneStoresAll(lines, run, steps, k - 1);
      StepAt(lines, run, steps, k - 1);
      assert steps[k - 1] == Store(Predecessor) || steps[k - 1] == Advance(Predecessor);
      hide IsRun, AllRows;
      if steps[k - 1] == Store(Predecessor) {
        StoreKeepsStored(lines, run[k - 1]);
      }
    }
  }

  // ----- concrete runs -----

  lemma StartRun(lines: seq<nat>)
    ensures IsRun(lines, [Init], [])
  {
  }

  lemma ExtendRun(lines: seq<nat>, run: seq<Shared>, steps: seq<Step>, step: Step)
    returns (run': seq<Shared>, steps': seq<Step>)
    requires IsRun(lines, run, steps) && Enabled(lines, run[|steps|], step)
    ensures IsRun(lines, run', steps') && steps' == steps + [step] && run <= run'
    ensures run'[|steps'|] == Next(lines, run[|steps|], step)
  {
    run', steps' := run + [Next(lines, run[|steps|], step)], steps + [step];
  }

  /** A batch of two rows and a line of one. The predecessor stores the first row of the batch, the
      successor skips the batch and stores the next line, and the second row is refused. */
  lemma OvertakenBatch() returns (run: seq<Shared>, steps: seq<Step>)
    ensures IsRun([2, 1], run, steps)
    ensures run[|steps|].log == [Entry(1, 0, Predecessor), Entry(2, 0, Successor)]
    ensures Predecessor in run[|steps|].procs && run[|steps|].procs[Predecessor].row == 2
  {
    hide IsRun;
    var lines := [2, 1];
    run, steps := [Init], [];
    StartRun(lines);
    run, steps := ExtendRun(lines, run, steps, Store(Predecessor));
    run, steps := ExtendRun(lines, run, steps, Attach(0));
    run, steps := ExtendRun(lines, run, steps, Store(Successor));
    run, steps := ExtendRun(lines, run, steps, Store(Successor));
    assert run[|steps|].mark == 1 && run[|steps|].log == [Entry(1, 0, Predecessor)];
    run, steps := PassOver(lines, run, steps);
  }

  /** The successor, past the batch with nothing stored, stores the next line; the batch's rest is refused. */
  lemma PassOver(lines: seq<nat>, before: seq<Shared>, done: seq<Step>) returns (run: seq<Shared>, steps: seq<Step>)
    requires lines == [2, 1] && IsRun(lines, before, done)
    requires before[|done|].mark == 1
    requires before[|done|].procs == map[Predecessor := Local(0, 1, Some(1)), Successor := Local(0, 2, None)]
    ensures IsRun(lines, run, steps)
    ensures run[|steps|].log == before[|done|].log + [Entry(2, 0, Successor)]
    ensures Predecessor in run[|steps|].procs && run[|steps|].procs[Predecessor].row == 2
  {
    hide IsRun;
    run, steps := ExtendRun(lines, before, done, Advance(Successor));
    run, steps := ExtendRun(lines, run, steps, Store(Successor));
    run, steps := ExtendRun(lines, run, steps, Store(Predecessor));
  }

  /** One process alone, catching up on its backlog: the first row of its batch raises the mark to the
      batch's own line, and the catch-up check then drops the second row. Nobody was overtaken, and the
      line is not whole. */
  lemma OwnProbeDropsRow() returns (run: seq<Shared>, steps: seq<Step>)
    ensures IsRun([2], run, steps) && run[|steps|].procs == map[Predecessor := Local(1, 0, Some(1))]
    ensures run[|steps|].log == [Entry(1, 0, Predecessor)] && !WholeLines([2], run[|steps|])
    ensures forall i, p | 0 <= i < |run| :: !Overtaken([2], run[i], p)
  {
    var lines := [2];
    var s0 := Init;
    StartRun(lines);
    hide IsRun;
    run, steps := ExtendRun(lines, [Init], [], Store(Predecessor));
    var s1 := run[1];
    run, steps := ExtendRun(lines, run, steps, Probe(Predecessor));
    var s2 := run[2];
    run, steps := ExtendRun(lines, run, steps, Advance(Predecessor));
    assert Owns(run[3].log, Predecessor, 1) by { assert run[3].log[0].owner == Predecessor; }
    assert !InLog(run[3].log, 1, 1);
    MissingRow(run[3].log, 1, 1, 2);
    LineNotWhole(lines, run[3], Predecessor, 0);
    assert run[0] == s0 && run[1] == s1 && run[2] == s2;
  }

  lemma LineNotWhole(lines: seq<nat>, s: Shared, p: Process, t: nat)
    requires t < |lines| && p in s.procs && t < s.procs[p].line
    requires Owns(s.log, p, t + 1) && !AllRows(s.log, t + 1, lines[t])
    ensures !WholeLines(lines, s)
  {
    hide Owns, AllRows;
  }

  /** Two lines of one row: the insert of the first throws, the second is stored, and the mark is past a
      line that has no row. */
  lemma ThrowLeavesGap() returns (run: seq<Shared>, steps: seq<Step>)
    ensures IsRun([1, 1], run, steps)
    ensures run[|steps|].mark == 2 && !HasRow(run[|steps|].log, 1)
  {
    var lines := [1, 1];
    StartRun(lines);
    hide IsRun;
    run, steps := ExtendRun(lines, [Init], [], Fail(Predecessor, false));
    run, steps := ExtendRun(lines, run, steps, Advance(Predecessor));
    run, steps := ExtendRun(lines, run, steps, Store(Predecessor));
  }
}
