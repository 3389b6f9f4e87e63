/** What a user's DCC files take: stored and committed bytes, against a storage limit
    (server/db/dccTransfers.ts, dccUsageBytes and listDccStoredBytes; server/db/dccFiles.ts). */
module DccBytes {
  import opened Options
  import opened Dcc
  import opened DccRuns
  import opened DccQueue

  /** What a transfer row counts for: the bytes on disk, or those it may still grow to. */
  datatype Measure = OnDisk | Promised

  function Weigh(m: Measure, user: nat, t: Transfer): nat {
    if t.user != user || t.path.None? || t.fileId.Some? then 0
    else if m.Promised? && InFlight(t.state) then More(t.size, t.received)
    else t.received
  }

  function RowBytes(rows: map<nat, Transfer>, m: Measure, user: nat, exclude: set<nat>, n: nat): nat {
    if n == 0 then 0
    else
      var here := if n - 1 in rows && n - 1 !in exclude then Weigh(m, user, rows[n - 1]) else 0;
      RowBytes(rows, m, user, exclude, n - 1) + here
  }

  function FileBytes(files: map<nat, File>, user: nat, n: nat): nat {
    if n == 0 then 0
    else
      var here := if n - 1 in files && files[n - 1].user == user then files[n - 1].size else 0;
      FileBytes(files, user, n - 1) + here
  }

  function Usage(db: Tables, m: Measure, user: nat, exclude: set<nat>): nat {
    FileBytes(db.files, user, db.nextFile) + RowBytes(db.rows, m, user, exclude, db.nextId)
  }

  /** What is on disk now. */
  function StoredBytes(db: Tables, user: nat): nat { Usage(db, OnDisk, user, {}) }

  /** What it may come to, with uploads still running counted by the caller. */
  function CommittedBytes(db: Tables, user: nat, exclude: set<nat>, uploading: nat): nat {
    Usage(db, Promised, user, exclude) + uploading
  }

  // ----- sums -----

  /** Sums compare row by row; rows beyond the old counter must weigh nothing. */
  lemma {:induction false} RowBytesBelow(
      rows: map<nat, Transfer>, rows': map<nat, Transfer>, m: Measure, user: nat, ex: set<nat>, ex': set<nat>, n: nat, n': nat)
    requires n <= n'
    requires forall id <- rows' | id < n' && id !in ex' ::
               || Weigh(m, user, rows'[id]) == 0
               || (id in rows && id < n && id !in ex && Weigh(m, user, rows'[id]) <= Weigh(m, user, rows[id]))
    ensures RowBytes(rows', m, user, ex', n') <= RowBytes(rows, m, user, ex, n)
    decreases n'
  {
    hide Weigh;
    if n' > n {
      RowBytesBelow(rows, rows', m, user, ex, ex', n, n' - 1);
    } else if n > 0 {
      RowBytesBelow(rows, rows', m, user, ex, ex', n - 1, n' - 1);
    }
  }

  lemma {:induction false} FileBytesBelow(files: map<nat, File>, files': map<nat, File>, user: nat, n: nat)
    requires forall id <- files' :: id < n ==> id in files && files'[id] == files[id]
    ensures FileBytes(files', user, n) <= FileBytes(files, user, n)
  {
    if n > 0 {
      FileBytesBelow(files, files', user, n - 1);
    }
  }

  /** One row changes, or starts and stops counting. */
  lemma {:induction false} RowBytesPut(
      rows: map<nat, Transfer>, m: Measure, user: nat, ex: set<nat>, id: nat, t: Transfer, n: nat)
    requires id in rows && id !in ex
    ensures RowBytes(rows[id := t], m, user, ex, n)
         == RowBytes(rows, m, user, ex, n) + (if id < n then Weigh(m, user, t) - Weigh(m, user, rows[id]) else 0)
  {
    hide Weigh;
    if n > 0 {
      RowBytesPut(rows, m, user, ex, id, t, n - 1);
    }
  }

  lemma {:induction false} FileBytesPush(files: map<nat, File>, user: nat, f: File, n: nat, k: nat)
    requires k <= n
    ensures FileBytes(files[n := f], user, k) == FileBytes(files, user, k)
    ensures FileBytes(files[n := f], user, n + 1) == FileBytes(files[n := f], user, n) + (if f.user == user then f.size else 0)
  {
    if k > 0 {
      FileBytesPush(files, user, f, n, k - 1);
    }
  }

  // ----- committed bytes never grow on their own -----

  /** No row weighs more than it did, and a new one weighs nothing. */
  ghost predicate NoHeavier(db: Tables, db': Tables, user: nat) {
    && db'.nextId >= db.nextId
    && (forall id <- db'.rows :: Weigh(Promised, user, db'.rows[id]) == 0
          || (id in db.rows && Weigh(Promised, user, db'.rows[id]) <= Weigh(Promised, user, db.rows[id])))
  }

  lemma NoHeavierBytes(db: Tables, db': Tables, user: nat)
    requires Inv(db) && NoHeavier(db, db', user)
    requires db'.nextFile == db.nextFile && forall f <- db'.files :: f in db.files && db'.files[f] == db.files[f]
    ensures Usage(db', Promised, user, {}) <= Usage(db, Promised, user, {})
  {
    RowBytesBelow(db.rows, db'.rows, Promised, user, {}, {}, db.nextId, db'.nextId);
    FileBytesBelow(db.files, db'.files, user, db.nextFile);
  }

  lemma AddsAreWeightless(db: Tables, op: Op, user: nat)
    requires Inv(db) && Enabled(db, op) && AddsRows(op)
    ensures NoHeavier(db, Apply(db, op), user) && Apply(db, op).files == db.files && Apply(db, op).nextFile == db.nextFile
  {
    if op.EnqueuePacks? {
      EnqueueIsWeightless(db, op.q, op.packs, op.front, op.attempt, user);
    } else {
      IdsBelow(db);
      hide Inv, Places;
    }
  }

  lemma EnqueueIsWeightless(db: Tables, q: Queue, packs: seq<nat>, front: bool, attempt: int, user: nat)
    requires Inv(db)
    ensures var db' := Enqueue(db, q, packs, front, attempt);
            NoHeavier(db, db', user) && db'.files == db.files && db'.nextFile == db.nextFile
  {
    hide Inv, Fresh, PacksInQueue, StartSeq;
    var db' := Enqueue(db, q, packs, front, attempt);
    var added := Fresh(PacksInQueue(db, q), packs);
    IdsBelow(db);
    InsertedRows(db, q, added, StartSeq(db, q, |added|, front), attempt);
    hide Enqueue, InsertPacks;
    forall id | id in db'.rows
      ensures Weigh(Promised, user, db'.rows[id]) == 0 || (id in db.rows && db'.rows[id] == db.rows[id])
    {
      RowAfterEnqueue(db, q, packs, front, attempt, id);
    }
  }

  lemma NoHeavierTrans(a: Tables, b: Tables, c: Tables, user: nat)
    requires NoHeavier(a, b, user) && NoHeavier(b, c, user)
    ensures NoHeavier(a, c, user)
  {
    hide Weigh;
  }

  lemma NoHeavierRefl(a: Tables, user: nat)
    ensures NoHeavier(a, a, user)
  {
  }

  lemma {:induction false} RequeueEachIsWeightless(db: Tables, broken: seq<Transfer>, user: nat)
    requires Inv(db)
    ensures var db' := RequeueEach(db, broken);
            NoHeavier(db, db', user) && db'.files == db.files && db'.nextFile == db.nextFile
    decreases |broken|
  {
    hide Inv, Enqueue, NoHeavier;
    NoHeavierRefl(db, user);
    if broken != [] {
      var t := broken[0];
      var db' := RequeuePack(db, t, true, t.attempt);
      if t.pack.Some? && t.network.Some? {
        var q := Queue(t.user, t.network.value, t.bot);
        EnqueueIsWeightless(db, q, [t.pack.value], true, t.attempt, user);
        EnqueueKeepsInv(db, q, [t.pack.value], true, t.attempt);
      }
      RequeueEachIsWeightless(db', broken[1..], user);
      NoHeavierTrans(db, db', RequeueEach(db', broken[1..]), user);
    }
  }

  lemma RestartIsNoHeavier(db: Tables, requestsSurvive: bool, order: seq<nat>, user: nat)
    requires Inv(db) && BrokenOrder(db, order)
    ensures var db' := Settle(db, requestsSurvive, order);
            NoHeavier(db, db', user) && db'.files == db.files && db'.nextFile == db.nextFile
  {
    var before := BeforeRequeue(db, requestsSurvive);
    assert NoHeavier(db, before, user);
    BeforeRequeueKeepsInv(db, requestsSurvive);
    hide Inv, NoHeavier, RequeueEach;
    RequeueEachIsWeightless(before, Values(db, order), user);
    NoHeavierTrans(db, before, RequeueEach(before, Values(db, order)), user);
  }

  lemma OneRowIsNoHeavier(db: Tables, op: Op, user: nat)
    requires Inv(db) && Enabled(db, op) && OnOneRow(op) && !op.Done?
    ensures NoHeavier(db, Apply(db, op), user) && Apply(db, op).files == db.files && Apply(db, op).nextFile == db.nextFile
  {
    ShapeOf(db, op.id);
    hide Inv;
  }

  lemma OthersAreNoHeavier(db: Tables, op: Op, user: nat)
    requires Inv(db) && Enabled(db, op) && !Inserts(op) && !OnOneRow(op) && !op.AddUpload?
    ensures NoHeavier(db, Apply(db, op), user)
    ensures Apply(db, op).nextFile == db.nextFile
    ensures forall f <- Apply(db, op).files :: f in db.files && Apply(db, op).files[f] == db.files[f]
  {
    hide Inv, NextRequests, QueuedIn, DroppedWith, Finished;
    match op
    case PumpQueues(caller, network) => PumpIsNoHeavier(db, caller, network, user);
    case _ =>
  }

  lemma PumpIsNoHeavier(db: Tables, caller: nat, network: nat, user: nat)
    ensures NoHeavier(db, Pump(db, caller, network), user)
  {
    hide IsNext;
    forall id | id in NextRequests(db, caller, network) ensures db.rows[id].state.Queued? {
      NextIsQueued(db, caller, network, id);
    }
    hide NextRequests;
  }

  lemma DoneOnlyFinishes(db: Tables, id: nat, received: nat, user: nat)
    requires Inv(db) && Enabled(db, Done(id, received))
    requires db.rows[id].path.None? || db.rows[id].path.value == "" || db.rows[id].fileId.Some?
    ensures Usage(Complete(db, id, received), Promised, user, {}) <= Usage(db, Promised, user, {})
  {
    ShapeOf(db, id);
    hide Inv, RowBytes, FileBytes;
    var t := db.rows[id];
    CompleteOnly(db, id, received);
    hide Complete;
    RowBytesPut(db.rows, Promised, user, {}, id, t.(state := Completed, received := received), db.nextId);
  }

  /** Keeping a finished file moves its bytes from the transfer to the file. */
  lemma DoneKeepsFile(db: Tables, id: nat, received: nat, user: nat)
    requires Inv(db) && Enabled(db, Done(id, received))
    requires !(db.rows[id].path.None? || db.rows[id].path.value == "" || db.rows[id].fileId.Some?)
    ensures Usage(Complete(db, id, received), Promised, user, {}) <= Usage(db, Promised, user, {})
  {
    ShapeOf(db, id);
    IdsBelow(db);
    hide Inv, RowBytes, FileBytes;
    var t := db.rows[id];
    CompleteKeeps(db, id, received);
    hide Complete;
    var t' := t.(state := Completed, received := received, fileId := Some(db.nextFile));
    RowBytesPut(db.rows, Promised, user, {}, id, t', db.nextId);
    FileBytesPush(db.files, user, File(t.user, t.path.value, received, false), db.nextFile, db.nextFile);
  }

  lemma DoneIsNoHeavier(db: Tables, id: nat, received: nat, user: nat)
    requires Inv(db) && Enabled(db, Done(id, received))
    ensures Usage(Complete(db, id, received), Promised, user, {}) <= Usage(db, Promised, user, {})
  {
    hide Inv, Complete, Usage;
    if db.rows[id].path.None? || db.rows[id].path.value == "" || db.rows[id].fileId.Some? {
      DoneOnlyFinishes(db, id, received, user);
    } else {
      DoneKeepsFile(db, id, received, user);
    }
  }

  /** Committed bytes never grow except by accepting a receive or adding an upload: every checkpoint,
      failure, cancel, completion, forgotten file, cleared row and restart leaves them no larger, for
      every user. */
  lemma CommittedNeverGrows(db: Tables, op: Op, user: nat, uploading: nat)
    requires Inv(db) && Enabled(db, op) && !op.Accept? && !op.AddUpload?
    ensures CommittedBytes(Apply(db, op), user, {}, uploading) <= CommittedBytes(db, user, {}, uploading)
  {
    if op.Done? {
      DoneIsNoHeavier(db, op.id, op.received, user);
    } else {
      if AddsRows(op) {
        AddsAreWeightless(db, op, user);
      } else if op.Restart? {
        RestartIsNoHeavier(db, op.requestsSurvive, op.order, user);
      } else if OnOneRow(op) {
        OneRowIsNoHeavier(db, op, user);
      } else {
        OthersAreNoHeavier(db, op, user);
      }
      hide NoHeavier, Apply, Usage;
      NoHeavierBytes(db, Apply(db, op), user);
    }
  }

  // ----- accepting within the limit -----

  /** The limit counts every other transfer, and leaves out the row the resume continues
      because its path, and so its partial, passes to the new row. When it passes, the user stays within
      the limit. */
  lemma AcceptStaysWithinLimit(
      db: Tables, id: nat, size: nat, path: string, received: nat, exclude: set<nat>, limit: nat, uploading: nat)
    requires Inv(db) && Enabled(db, Accept(id, size, path, received))
    requires id in exclude && forall o <- exclude :: o in db.rows && o != id ==> db.rows[o].path == Some(path) && db.rows[o].user == db.rows[id].user
    requires CommittedBytes(db, db.rows[id].user, exclude, uploading) + size <= limit
    ensures CommittedBytes(Receive(db, id, size, path, received), db.rows[id].user, {}, uploading) <= limit
  {
    var user, released, db' := db.rows[id].user, ReleasePath(db, id, path), Receive(db, id, size, path, received);
    var idle := db.rows[id].(path := None);
    IdsBelow(db);
    ShapeOf(db, id);
    hide Inv, RowBytes, FileBytes;
    assert db'.rows == released.rows[id := db'.rows[id]];
    RowBytesPut(released.rows, Promised, user, {}, id, db'.rows[id], db.nextId);
    assert Weigh(Promised, user, released.rows[id]) == 0;
    RowBytesBelow(db.rows, released.rows, Promised, user, exclude, {}, db.nextId, db.nextId);
  }

  /** For another user nothing changes. */
  lemma AcceptLeavesOthers(db: Tables, id: nat, size: nat, path: string, received: nat, user: nat, uploading: nat)
    requires Inv(db) && Enabled(db, Accept(id, size, path, received)) && user != db.rows[id].user
    ensures CommittedBytes(Receive(db, id, size, path, received), user, {}, uploading) == CommittedBytes(db, user, {}, uploading)
  {
    hide Inv;
    var db' := Receive(db, id, size, path, received);
    RowBytesBelow(db.rows, db'.rows, Promised, user, {}, {}, db.nextId, db.nextId);
    RowBytesBelow(db'.rows, db.rows, Promised, user, {}, {}, db.nextId, db.nextId);
  }

  /** An upload adds exactly its size, to its own user. */
  lemma UploadAddsItsSize(db: Tables, owner: nat, path: string, size: nat, user: nat)
    ensures StoredBytes(KeepUploaded(db, owner, path, size), user)
         == StoredBytes(db, user) + (if owner == user then size else 0)
  {
    FileBytesPush(db.files, user, File(owner, path, size, true), db.nextFile, db.nextFile);
  }

  // ----- clearing -----

  /** Clearing the finished rows leaves every user's stored bytes exactly as they were. */
  lemma ClearingKeepsStored(db: Tables, caller: nat, user: nat)
    ensures StoredBytes(DeleteRows(db, Finished(db, caller)), user) == StoredBytes(db, user)
  {
    var db' := DeleteRows(db, Finished(db, caller));
    RowBytesBelow(db.rows, db'.rows, OnDisk, user, {}, {}, db.nextId, db.nextId);
    KeptRowsWeighSame(db.rows, db'.rows, user, db.nextId);
  }

  lemma {:induction false} KeptRowsWeighSame(rows: map<nat, Transfer>, rows': map<nat, Transfer>, user: nat, n: nat)
    requires forall id <- rows :: (id in rows' && rows'[id] == rows[id]) || Weigh(OnDisk, user, rows[id]) == 0
    ensures RowBytes(rows', OnDisk, user, {}, n) >= RowBytes(rows, OnDisk, user, {}, n)
  {
    hide Weigh;
    if n > 0 {
      KeptRowsWeighSame(rows, rows', user, n - 1);
    }
  }
}
