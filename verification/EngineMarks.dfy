/** The engine catch-up mark (server/db/engineMarks.ts): per network and engine socket, the highest
    line seq a message row was stored for, written in one transaction with the row. */
module EngineMarks {
  import opened Options

  datatype Outcome = Stored | Refused | Threw

  /** The guard read under the write lock: a line at the mark is refused unless this process stored
      a row of it already; a line below the mark is always refused. */
  predicate Refuses(mark: nat, lineSeq: nat, ours: bool) {
    if ours then lineSeq < mark else lineSeq <= mark
  }

  class MarkStore<Row> {
    var marks: map<(nat, string), nat>
    var rows: seq<Row>

    constructor ()
      ensures marks == map[] && rows == []
    {
      marks, rows := map[], [];
    }

    function Mark(network: nat, socket: string): (mark: Option<nat>)
      reads this
    {
      if (network, socket) in marks then Some(marks[(network, socket)]) else None
    }

    /** Insert, or raise: the row only ever rises. */
    method SetMark(network: nat, socket: string, lineSeq: nat)
      modifies this`marks
      ensures marks.Keys == old(marks.Keys) + {(network, socket)}
      ensures forall k | k in old(marks) && k != (network, socket) :: marks[k] == old(marks[k])
      ensures marks[(network, socket)]
           == if (network, socket) in old(marks) && old(marks[(network, socket)]) >= lineSeq
              then old(marks[(network, socket)]) else lineSeq
    {
      var key := (network, socket);
      if key !in marks || marks[key] < lineSeq {
        marks := marks[key := lineSeq];
      }
    }

    /** Forget every socket's mark but `keep`'s, on this network only. */
    method Prune(network: nat, keep: Option<string>)
      modifies this`marks
      ensures forall k | k in old(marks) ::
                k in marks <==> k.0 != network || (keep.Some? && k.1 == keep.value)
      ensures forall k | k in marks :: k in old(marks) && marks[k] == old(marks[k])
    {
      marks := map k | k in marks && (k.0 != network || (keep.Some? && k.1 == keep.value)) :: marks[k];
    }

    /** `insert` is what the caller's insert does: the row it writes, or None when it throws. */
    method StoreUnderMark(network: nat, socket: string, lineSeq: nat, insert: Option<Row>, ours: bool)
      returns (outcome: Outcome)
      modifies this
      ensures var before := if old(Mark(network, socket)).None? then 0 else old(Mark(network, socket)).value;
              && (outcome == Refused <==> Refuses(before, lineSeq, ours))
              && (outcome == Refused <==> if ours then lineSeq < before else lineSeq <= before)
              && (outcome == Threw <==> !Refuses(before, lineSeq, ours) && insert.None?)
      ensures outcome == Stored ==>
                && insert.Some? && rows == old(rows) + [insert.value]
                && Mark(network, socket) == Some(lineSeq)
                && (forall k | k != (network, socket) :: k in marks <==> k in old(marks))
                && (forall k | k in old(marks) && k != (network, socket) :: marks[k] == old(marks[k]))
      ensures outcome != Stored ==> rows == old(rows) && marks == old(marks)
    {
      var current := Mark(network, socket);
      var mark := if current.Some? then current.value else 0;
      if if ours then lineSeq < mark else lineSeq <= mark {
        return Refused;
      }
      if insert.None? {
        return Threw;
      }
      rows := rows + [insert.value];
      SetMark(network, socket, lineSeq);
      outcome := Stored;
    }
  }

  // ----- a takeover: two processes, one socket, one shared mark -----

  datatype Process = Predecessor | Successor

  /** A stored message row: which line, which of the line's rows, and who stored it. */
  datatype Entry = Entry(lineSeq: nat, row: nat, owner: Process)

  /** One process: the line it is delivering (0-based; its seq is one more), the rows of that line it
      has handled, and the seq it last stored a row under. */
  datatype Local = Local(line: nat, row: nat, storedUnder: Option<nat>)

  /** `threw` collects the seqs for which an insert has thrown. */
  datatype Shared = Shared(mark: nat, log: seq<Entry>, procs: map<Process, Local>, threw: set<nat>)

  /** Store: the next row of the current line goes through storeUnderMark.
      Fail: it does, and the insert throws; the throw leaves the row out, and may end the line's handling.
      Probe: the catch-up check finds the line at or below the mark and drops the row.
      Advance: the line is finished. Attach: the successor is handed the socket. */
  datatype Step = Store(p: Process) | Fail(p: Process, endsLine: bool) | Probe(p: Process) | Advance(p: Process) | Attach(start: nat)

  function Seq(l: Local): nat { l.line + 1 }

  predicate Ours(l: Local) { l.storedUnder == Some(Seq(l)) }

  /** `lines[i]` is the number of message rows line i produces. */
  predicate Delivering(lines: seq<nat>, s: Shared, p: Process) {
    p in s.procs && s.procs[p].line < |lines| && s.procs[p].row < lines[s.procs[p].line]
  }

  /** The guard lets the next row through. */
  predicate Admits(lines: seq<nat>, s: Shared, p: Process) {
    Delivering(lines, s, p) && !Refuses(s.mark, Seq(s.procs[p]), Ours(s.procs[p]))
  }

  predicate Enabled(lines: seq<nat>, s: Shared, step: Step) {
    match step
    case Store(p) => Delivering(lines, s, p)
    case Fail(p, _) => Admits(lines, s, p)
    case Probe(p) => Delivering(lines, s, p) && Seq(s.procs[p]) <= s.mark
    case Advance(p) =>
      p in s.procs && s.procs[p].line < |lines| && s.procs[p].row == lines[s.procs[p].line]
    case Attach(start) =>
      Predecessor in s.procs && Successor !in s.procs && start <= s.procs[Predecessor].line
  }

  /** The row counter moves, nothing else. */
  function Pass(s: Shared, p: Process, row: nat): Shared
    requires p in s.procs
  {
    s.(procs := s.procs[p := s.procs[p].(row := row)])
  }

  function Keep(s: Shared, p: Process): Shared
    requires p in s.procs
  {
    var l := s.procs[p];
    s.(mark := Seq(l), log := s.log + [Entry(Seq(l), l.row, p)],
       procs := s.procs[p := l.(row := l.row + 1, storedUnder := Some(Seq(l)))])
  }

  function Next(lines: seq<nat>, s: Shared, step: Step): Shared
    requires Enabled(lines, s, step)
  {
    match step
    case Store(p) => if Admits(lines, s, p) then Keep(s, p) else Pass(s, p, s.procs[p].row + 1)
    case Fail(p, endsLine) =>
      Pass(s, p, if endsLine then lines[s.procs[p].line] else s.procs[p].row + 1).(threw := s.threw + {Seq(s.procs[p])})
    case Probe(p) => Pass(s, p, s.procs[p].row + 1)
    case Advance(p) => s.(procs := s.procs[p := s.procs[p].(line := s.procs[p].line + 1, row := 0)])
    case Attach(start) => s.(procs := s.procs[Successor := Local(start, 0, None)])
  }

  predicate Stores(lines: seq<nat>, s: Shared, step: Step) {
    step.Store? && Admits(lines, s, step.p)
  }

  const Init := Shared(0, [], map[Predecessor := Local(0, 0, None)], {})

  /** `run[i]` is the state before step i; the run starts with the predecessor alone on a new socket. */
  ghost predicate IsRun(lines: seq<nat>, run: seq<Shared>, steps: seq<Step>) {
    && |run| == |steps| + 1
    && run[0] == Init
    && forall i | 0 <= i < |steps| :: Enabled(lines, run[i], steps[i]) && run[i + 1] == Next(lines, run[i], steps[i])
  }

  // ----- the safety argument -----

  ghost predicate HasRow(log: seq<Entry>, lineSeq: nat) {
    exists i :: 0 <= i < |log| && log[i].lineSeq == lineSeq
  }

  /** Every row-producing line at or below the mark is stored, unless an insert threw for it. */
  ghost predicate NoGap(lines: seq<nat>, s: Shared) {
    forall t: nat | t < |lines| && lines[t] > 0 && t + 1 <= s.mark :: HasRow(s.log, t + 1) || t + 1 in s.threw
  }

  /** All rows of one seq come from one process. */
  ghost predicate OneOwner(log: seq<Entry>) {
    forall i, j | 0 <= i < |log| && 0 <= j < |log| && log[i].lineSeq == log[j].lineSeq ::
      log[i].owner == log[j].owner
  }

  /** No row is stored twice. */
  ghost predicate NoDouble(log: seq<Entry>) {
    forall i, j | 0 <= i < j < |log| :: log[i].lineSeq != log[j].lineSeq || log[i].row != log[j].row
  }

  /** The mark is the highest stored seq, and rows went in by rising seq. */
  ghost predicate MarkIsHighest(mark: nat, log: seq<Entry>) {
    && mark == (if log == [] then 0 else log[|log| - 1].lineSeq)
    && (forall i, j | 0 <= i < j < |log| :: log[i].lineSeq <= log[j].lineSeq)
    && (forall i | 0 <= i < |log| :: log[i].lineSeq > 0)
  }

  ghost predicate Safe(lines: seq<nat>, s: Shared) {
    NoGap(lines, s) && OneOwner(s.log) && NoDouble(s.log) && MarkIsHighest(s.mark, s.log)
  }

  ghost predicate Owns(log: seq<Entry>, p: Process, lineSeq: nat) {
    exists i :: 0 <= i < |log| && log[i].lineSeq == lineSeq && log[i].owner == p
  }

  /** What a process has behind it is at or below the mark, or an insert threw for it. */
  ghost predicate HandledBelow(lines: seq<nat>, s: Shared, l: Local) {
    && (forall t: nat | t < l.line && t < |lines| && lines[t] > 0 :: t + 1 <= s.mark || t + 1 in s.threw)
    && (l.row > 0 ==> Seq(l) <= s.mark || Seq(l) in s.threw)
  }

  /** What the log holds of a process is behind it. */
  ghost predicate StoredBehind(log: seq<Entry>, p: Process, l: Local) {
    forall i | 0 <= i < |log| && log[i].owner == p ::
      log[i].lineSeq < Seq(l) || (log[i].lineSeq == Seq(l) && log[i].row < l.row)
  }

  ghost predicate Remembers(log: seq<Entry>, p: Process, l: Local) {
    l.storedUnder.Some? ==> Owns(log, p, l.storedUnder.value)
  }

  ghost predicate Tracks(lines: seq<nat>, s: Shared, p: Process) {
    p in s.procs ==> HandledBelow(lines, s, s.procs[p]) && StoredBehind(s.log, p, s.procs[p]) && Remembers(s.log, p, s.procs[p])
  }

  ghost predicate Inv(lines: seq<nat>, s: Shared) {
    && Safe(lines, s)
    && Predecessor in s.procs
    && Tracks(lines, s, Predecessor) && Tracks(lines, s, Successor)
    && (Successor !in s.procs ==> forall i | 0 <= i < |s.log| :: s.log[i].owner == Predecessor)
  }

  lemma Parts(lines: seq<nat>, s: Shared, p: Process)
    requires Inv(lines, s) && p in s.procs
    ensures HandledBelow(lines, s, s.procs[p]) && StoredBehind(s.log, p, s.procs[p]) && Remembers(s.log, p, s.procs[p])
  {
    hide HandledBelow, StoredBehind, Remembers, Safe;
  }

  // ----- a step that stores -----

  /** What one more entry does to the log's own facts. */
  ghost predicate Fits(log: seq<Entry>, e: Entry) {
    && e.lineSeq > 0
    && forall i | 0 <= i < |log| ::
         log[i].lineSeq <= e.lineSeq && (log[i].lineSeq == e.lineSeq ==> log[i].owner == e.owner && log[i].row < e.row)
  }

  /** Everything stored so far is behind a row that is about to be stored. */
  lemma RowFits(lines: seq<nat>, s: Shared, p: Process)
    requires Inv(lines, s) && Admits(lines, s, p)
    ensures Fits(s.log, Entry(Seq(s.procs[p]), s.procs[p].row, p))
  {
    var l := s.procs[p];
    Parts(lines, s, p);
    hide NoGap, NoDouble, HandledBelow, Tracks;
    if Ours(l) {
      var j :| 0 <= j < |s.log| && s.log[j].lineSeq == Seq(l) && s.log[j].owner == p;
      assert forall i | 0 <= i < |s.log| && s.log[i].lineSeq == Seq(l) :: s.log[i].owner == s.log[j].owner;
    }
  }

  lemma GrowOneOwner(log: seq<Entry>, e: Entry)
    requires OneOwner(log) && Fits(log, e)
    ensures OneOwner(log + [e])
  {
  }

  lemma GrowNoDouble(log: seq<Entry>, e: Entry)
    requires NoDouble(log) && Fits(log, e)
    ensures NoDouble(log + [e])
  {
  }

  lemma GrowMark(mark: nat, log: seq<Entry>, e: Entry)
    requires MarkIsHighest(mark, log) && Fits(log, e)
    ensures MarkIsHighest(e.lineSeq, log + [e])
  {
  }

  lemma GrowHasRow(log: seq<Entry>, e: Entry, lineSeq: nat)
    ensures HasRow(log + [e], lineSeq) <==> HasRow(log, lineSeq) || e.lineSeq == lineSeq
  {
    var more := log + [e];
    assert more[|log|] == e && forall i | 0 <= i < |log| :: more[i] == log[i];
  }

  lemma GrowOwns(log: seq<Entry>, e: Entry, p: Process, lineSeq: nat)
    ensures Owns(log + [e], p, lineSeq) <==> Owns(log, p, lineSeq) || (e.owner == p && e.lineSeq == lineSeq)
  {
    var more := log + [e];
    assert more[|log|] == e && forall i | 0 <= i < |log| :: more[i] == log[i];
  }

  lemma StoreKeepsNoGap(lines: seq<nat>, s: Shared, p: Process)
    requires Inv(lines, s) && Admits(lines, s, p)
    ensures NoGap(lines, Keep(s, p))
  {
    var l := s.procs[p];
    Parts(lines, s, p);
    hide HasRow, StoredBehind, Remembers, Tracks;
    forall t: nat | t < |lines| && lines[t] > 0 && t + 1 <= Seq(l) ensures HasRow(Keep(s, p).log, t + 1) || t + 1 in s.threw {
      GrowHasRow(s.log, Entry(Seq(l), l.row, p), t + 1);
    }
  }

  /** A row that is stored is a new row of a line no other process stored. */
  lemma StoreKeepsSafe(lines: seq<nat>, s: Shared, p: Process)
    requires Inv(lines, s) && Admits(lines, s, p)
    ensures Safe(lines, Keep(s, p))
  {
    var e := Entry(Seq(s.procs[p]), s.procs[p].row, p);
    StoreKeepsNoGap(lines, s, p);
    RowFits(lines, s, p);
    hide NoGap, OneOwner, NoDouble, MarkIsHighest, Fits, Tracks;
    GrowOneOwner(s.log, e);
    GrowNoDouble(s.log, e);
    GrowMark(s.mark, s.log, e);
  }

  lemma StoreKeepsTracks(lines: seq<nat>, s: Shared, p: Process, q: Process)
    requires Inv(lines, s) && Admits(lines, s, p)
    ensures Tracks(lines, Keep(s, p), q)
  {
    if q in s.procs {
      var e := Entry(Seq(s.procs[p]), s.procs[p].row, p);
      Parts(lines, s, q);
      MarkRises(lines, s, p);
      hide Inv, Safe, Owns, Remembers;
      StoreKeepsRemembers(s, p, q);
      assert StoredBehind(Keep(s, p).log, q, Keep(s, p).procs[q]);
      hide StoredBehind;
    }
  }

  lemma MarkRises(lines: seq<nat>, s: Shared, p: Process)
    requires Inv(lines, s) && Admits(lines, s, p)
    ensures s.mark <= Seq(s.procs[p])
  {
  }

  lemma StoreKeepsRemembers(s: Shared, p: Process, q: Process)
    requires p in s.procs && q in s.procs && Remembers(s.log, q, s.procs[q])
    ensures Remembers(Keep(s, p).log, q, Keep(s, p).procs[q])
  {
    var e := Entry(Seq(s.procs[p]), s.procs[p].row, p);
    GrowOwns(s.log, e, q, if q == p then e.lineSeq else if s.procs[q].storedUnder.Some? then s.procs[q].storedUnder.value else 0);
    hide Owns;
  }

  // ----- a step that stores nothing -----

  lemma QuietKeepsTracks(lines: seq<nat>, s: Shared, step: Step, q: Process)
    requires Inv(lines, s) && Enabled(lines, s, step) && !Stores(lines, s, step)
    ensures Next(lines, s, step).mark == s.mark && Next(lines, s, step).log == s.log && s.threw <= Next(lines, s, step).threw
    ensures Tracks(lines, Next(lines, s, step), q)
  {
    Parts(lines, s, Predecessor);
    if q in s.procs {
      Parts(lines, s, q);
    }
    hide Safe, Owns, Tracks;
    var s' := Next(lines, s, step);
    if q in s'.procs {
      QuietKeepsHandled(lines, s, step, q);
      assert StoredBehind(s'.log, q, s'.procs[q]);
      hide StoredBehind, HandledBelow, Inv;
      assert Tracks(lines, s', q) by {
        TracksFrom(lines, s', q);
      }
    } else {
      TracksFrom(lines, s', q);
    }
  }

  lemma TracksFrom(lines: seq<nat>, s: Shared, p: Process)
    requires p in s.procs ==> HandledBelow(lines, s, s.procs[p]) && StoredBehind(s.log, p, s.procs[p]) && Remembers(s.log, p, s.procs[p])
    ensures Tracks(lines, s, p)
  {
    hide HandledBelow, StoredBehind, Remembers;
  }

  lemma QuietKeepsHandled(lines: seq<nat>, s: Shared, step: Step, q: Process)
    requires Predecessor in s.procs && HandledBelow(lines, s, s.procs[Predecessor])
    requires q in s.procs ==> HandledBelow(lines, s, s.procs[q])
    requires Enabled(lines, s, step) && !Stores(lines, s, step) && q in Next(lines, s, step).procs
    ensures HandledBelow(lines, Next(lines, s, step), Next(lines, s, step).procs[q])
  {
  }

  lemma QuietKeepsSafe(lines: seq<nat>, s: Shared, s': Shared)
    requires Safe(lines, s) && s'.log == s.log && s'.mark == s.mark && s.threw <= s'.threw
    ensures Safe(lines, s')
  {
    hide HasRow, OneOwner, NoDouble, MarkIsHighest;
  }

  /** Every step of either process keeps the invariant. */
  lemma StepKeepsInv(lines: seq<nat>, s: Shared, step: Step)
    requires Inv(lines, s) && Enabled(lines, s, step)
    ensures Inv(lines, Next(lines, s, step))
  {
    hide Tracks, Safe;
    if Stores(lines, s, step) {
      StoreKeepsSafe(lines, s, step.p);
      StoreKeepsTracks(lines, s, step.p, Predecessor);
      StoreKeepsTracks(lines, s, step.p, Successor);
    } else {
      QuietKeepsTracks(lines, s, step, Predecessor);
      QuietKeepsTracks(lines, s, step, Successor);
      QuietKeepsSafe(lines, s, Next(lines, s, step));
    }
  }

  /** Across every interleaving of the two processes, failing inserts included, at every moment: a
      row-producing line at or below the mark is stored or an insert threw for it, a line's rows come from
      one process, none is doubled, and the mark is the highest stored seq. */
  lemma {:induction false} TakeoverIsSafe(lines: seq<nat>, run: seq<Shared>, steps: seq<Step>, k: nat)
    requires IsRun(lines, run, steps) && k < |run|
    ensures Inv(lines, run[k])
    ensures Safe(lines, run[k])
  {
    if k > 0 {
      TakeoverIsSafe(lines, run, steps, k - 1);
      hide Inv, Safe;
      StepKeepsInv(lines, run[k - 1], steps[k - 1]);
      InvIsSafe(lines, run[k]);
    }
  }

  lemma InvIsSafe(lines: seq<nat>, s: Shared)
    requires Inv(lines, s)
    ensures Safe(lines, s)
  {
  }
}
