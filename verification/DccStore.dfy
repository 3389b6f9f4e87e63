/** The DCC store itself: its tables change in place, statement by statement and row by row, and each
    method is proved against the function of tables it stands for. */
module DccStore {
  import opened Options
  import opened Dcc
  import opened DccRuns
  import opened DccBytes

  class Store {
    var rows: map<nat, Transfer>
    var nextId: nat
    var files: map<nat, File>
    var nextFile: nat

    ghost function Db(): Tables
      reads this
    {
      Tables(rows, nextId, files, nextFile)
    }

    constructor ()
      ensures Db() == Tables(map[], 0, map[], 0)
    {
      rows, nextId, files, nextFile := map[], 0, map[], 0;
    }

    method InsertRow(t: Transfer) returns (id: nat)
      modifies this`rows, this`nextId
      ensures Db() == Insert(old(Db()), t) && id == old(nextId)
    {
      id := nextId;
      rows, nextId := rows[id := t], nextId + 1;
    }

    /** Queue packs at the back or the front; the ids of the new rows. */
    method EnqueuePacks(q: Queue, packs: seq<nat>, front: bool, attempt: int) returns (ids: seq<nat>)
      modifies this`rows, this`nextId
      ensures Db() == Enqueue(old(Db()), q, packs, front, attempt)
      ensures |ids| == |Fresh(PacksInQueue(old(Db()), q), packs)|
      ensures forall k | 0 <= k < |ids| :: ids[k] == old(nextId) + k
    {
      hide Fresh, PacksInQueue, StartSeq, Places;
      ghost var before := Db();
      ids := [];
      var have := PacksInQueue(Tables(rows, nextId, files, nextFile), q);
      var added := Fresh(have, packs);
      var seqNo := StartSeq(Tables(rows, nextId, files, nextFile), q, |added|, front);
      assert added[0..] == added;
      for i := 0 to |added|
        invariant files == before.files && nextFile == before.nextFile
        invariant nextId == before.nextId + i
        invariant InsertPacks(Db(), q, added[i..], seqNo, attempt) == Enqueue(before, q, packs, front, attempt)
        invariant |ids| == i && forall k | 0 <= k < i :: ids[k] == before.nextId + k
      {
        assert added[i..][0] == added[i] && added[i..][1..] == added[i + 1..];
        var id := InsertRow(QueuedRow(q, added[i], seqNo, attempt));
        ids := ids + [id];
        seqNo := seqNo + 1;
      }
      assert added[|added|..] == [];
    }

    /** The pump: each next request goes out. */
    method PumpQueue(user: nat, network: nat) returns (sent: set<nat>)
      modifies this`rows
      ensures Db() == Pump(old(Db()), user, network)
      ensures sent == set id | id in NextRequests(old(Db()), user, network) && old(rows)[id].pack.Some?
    {
      ghost var before := Db();
      var next := NextRequests(Tables(rows, nextId, files, nextFile), user, network);
      forall id | id in next ensures id in rows && rows[id].state.Queued? {
        NextIsQueued(before, user, network, id);
      }
      hide NextRequests;
      sent := RequestEach(next);
      assert rows == Pump(before, user, network).rows;
    }

    method RequestEach(next: set<nat>) returns (sent: set<nat>)
      requires forall id <- next :: id in rows && rows[id].state.Queued?
      modifies this`rows
      ensures sent == set id | id in next && old(rows)[id].pack.Some?
      ensures rows.Keys == old(rows).Keys
      ensures forall id <- rows :: rows[id] == if id in sent then old(rows)[id].(state := Requested) else old(rows)[id]
    {
      var todo := next;
      sent := {};
      while todo != {}
        invariant todo <= next && rows.Keys == old(rows).Keys
        invariant forall id :: id in sent <==> id in next && id !in todo && old(rows)[id].pack.Some?
        invariant forall id <- rows :: rows[id] == if id in sent then old(rows)[id].(state := Requested) else old(rows)[id]
        decreases |todo|
      {
        var id :| id in todo;
        todo := todo - {id};
        if rows[id].pack.Some? {
          MarkRequested(id);
          sent := sent + {id};
        }
      }
    }

    /** Guarded: only a row still waiting becomes a request. */
    method MarkRequested(id: nat)
      modifies this`rows
      ensures rows == if id in old(rows) && old(rows)[id].state.Queued?
                      then old(rows)[id := old(rows)[id].(state := Requested)] else old(rows)
    {
      if id in rows && rows[id].state.Queued? {
        rows := rows[id := rows[id].(state := Requested)];
      }
    }

    /** Take packs out of a queue: waiting rows are deleted, rows out are handed back to be cancelled. */
    method RemoveQueued(q: Queue, packs: Option<set<nat>>) returns (deleted: set<nat>, outRows: set<nat>)
      modifies this`rows
      ensures deleted == QueuedIn(old(Db()), q, packs) && Db() == DeleteRows(old(Db()), deleted)
      ensures outRows == OutIn(old(Db()), q, packs)
      ensures forall id <- outRows :: id in rows && rows[id] == old(rows)[id]
    {
      var now := Tables(rows, nextId, files, nextFile);
      deleted := QueuedIn(now, q, packs);
      rows := rows - deleted;
      outRows := OutIn(Tables(rows, nextId, files, nextFile), q, packs);
    }

    /** An accepted offer: every other row of the user lets go of the path, then the row takes it. */
    method MarkReceiving(id: nat, size: nat, path: string, received: nat) returns (released: set<nat>)
      requires id in rows
      modifies this`rows
      ensures Db() == Receive(old(Db()), id, size, path, received)
      ensures released == set o | o in old(rows) && o != id && old(rows)[o].path == Some(path) && old(rows)[o].user == old(rows)[id].user
    {
      ghost var before := Db();
      released := set o | o in rows && o != id && rows[o].path == Some(path) && rows[o].user == rows[id].user;
      ReleaseEach(released);
      assert rows == ReleasePath(before, id, path).rows;
      rows := rows[id := rows[id].(state := Receiving, size := size, path := Some(path), received := received)];
    }

    method ReleaseEach(released: set<nat>)
      requires released <= rows.Keys
      modifies this`rows
      ensures rows.Keys == old(rows).Keys
      ensures forall o <- rows :: rows[o] == if o in released then old(rows)[o].(path := None) else old(rows)[o]
    {
      var todo := released;
      while todo != {}
        invariant todo <= released && rows.Keys == old(rows).Keys
        invariant forall o <- rows ::
                    rows[o] == if o in released && o !in todo then old(rows)[o].(path := None) else old(rows)[o]
        decreases |todo|
      {
        var o :| o in todo;
        todo := todo - {o};
        rows := rows[o := rows[o].(path := None)];
      }
    }

    /** Done: stamp the row, and keep a received file. */
    method MarkCompleted(id: nat, received: nat) returns (kept: Option<nat>)
      requires id in rows
      modifies this
      ensures Db() == Complete(old(Db()), id, received)
      ensures kept == if old(rows)[id].path.Some? && old(rows)[id].path.value != "" && old(rows)[id].fileId.None?
                      then Some(old(nextFile)) else None
    {
      rows := rows[id := rows[id].(state := Completed, received := received)];
      var t := rows[id];
      if t.path.None? || t.path.value == "" || t.fileId.Some? {
        return None;
      }
      kept := KeepReceivedFile(t.user, id, t.path.value, received);
    }

    method KeepReceivedFile(user: nat, id: nat, path: string, size: nat) returns (kept: Option<nat>)
      modifies this
      ensures Db() == KeepReceived(old(Db()), user, id, path, size)
      ensures kept == if id in old(rows) && old(rows)[id].user == user then Some(old(nextFile)) else None
    {
      if id !in rows || rows[id].user != user {
        return None;
      }
      var file := nextFile;
      files, nextFile := files[file := File(user, path, size, false)], nextFile + 1;
      rows := rows[id := rows[id].(fileId := Some(file))];
      kept := Some(file);
    }

    method RequeueOne(t: Transfer, front: bool, attempt: int) returns (queued: bool)
      modifies this`rows, this`nextId
      ensures Db() == RequeuePack(old(Db()), t, front, attempt)
      ensures nextId == old(nextId) + if queued then 1 else 0
    {
      hide Enqueue;
      if t.pack.None? || t.network.None? {
        return false;
      }
      var ids := EnqueuePacks(Queue(t.user, t.network.value, t.bot), [t.pack.value], front, attempt);
      queued := |ids| > 0;
      assert Db() == RequeuePack(old(Db()), t, front, attempt);
      EnqueueCounts(old(Db()), Queue(t.user, t.network.value, t.bot), [t.pack.value], front, attempt);
    }

    /** At boot: broken receives fail, requests wait again unless the engine kept the socket, and each
        broken pack is queued again, in the order the rows came back. */
    method SettleReceives(requestsSurvive: bool, order: seq<nat>) returns (failed: nat, requeued: nat)
      requires forall id <- order :: id in rows
      modifies this`rows, this`nextId
      ensures Db() == Settle(old(Db()), requestsSurvive, order)
      ensures failed == |order|
      ensures requeued == (if requestsSurvive then 0 else |WaitingAgain(old(Db()))|) + (nextId - old(nextId))
    {
      hide RequeuePack, Enqueue;
      ghost var before := Db();
      var broken := Values(Tables(rows, nextId, files, nextFile), order);
      failed, requeued := |broken|, 0;
      rows := FailBroken(Tables(rows, nextId, files, nextFile)).rows;
      assert WaitingAgain(Db()) == WaitingAgain(before);
      if !requestsSurvive {
        requeued := |WaitingAgain(Tables(rows, nextId, files, nextFile))|;
        rows := RequeueAllRequests(Tables(rows, nextId, files, nextFile)).rows;
      }
      ghost var again: nat := requeued;
      assert broken[0..] == broken;
      for i := 0 to |broken|
        invariant RequeueEach(Db(), broken[i..]) == Settle(before, requestsSurvive, order)
        invariant requeued == again + nextId - before.nextId
      {
        assert broken[i..][0] == broken[i] && broken[i..][1..] == broken[i + 1..];
        var queued := RequeueOne(broken[i], true, broken[i].attempt);
        requeued := requeued + if queued then 1 else 0;
      }
      assert broken[|broken|..] == [];
    }

    /** One pass for the admin roster: a user is in it when they keep a file or hold a path, with the
        same total as their own usage shows. */
    method ListStoredBytes() returns (roster: map<nat, nat>)
      ensures forall user :: user in roster ==> roster[user] == StoredBytes(Db(), user)
      ensures forall user :: user !in roster ==> StoredBytes(Db(), user) == 0
      ensures forall user <- roster ::
                || (exists f <- files :: f < nextFile && files[f].user == user)
                || (exists id <- rows :: id < nextId && rows[id].user == user && rows[id].path.Some? && rows[id].fileId.None?)
    {
      roster := map[];
      for f := 0 to nextFile
        invariant forall user :: FileBytes(files, user, f) == if user in roster then roster[user] else 0
        invariant forall user <- roster :: exists g <- files :: g < f && files[g].user == user
      {
        if f in files {
          var user := files[f].user;
          roster := roster[user := (if user in roster then roster[user] else 0) + files[f].size];
        }
      }
      for id := 0 to nextId
        invariant forall user ::
          FileBytes(files, user, nextFile) + RowBytes(rows, OnDisk, user, {}, id) == if user in roster then roster[user] else 0
        invariant forall user <- roster ::
          || (exists f <- files :: f < nextFile && files[f].user == user)
          || (exists g <- rows :: g < id && rows[g].user == user && rows[g].path.Some? && rows[g].fileId.None?)
      {
        if id in rows && rows[id].path.Some? && rows[id].fileId.None? {
          var user := rows[id].user;
          roster := roster[user := (if user in roster then roster[user] else 0) + rows[id].received];
        }
      }
    }
  }

  /** The requests a restart without the engine puts back in their queues. */
  function WaitingAgain(db: Tables): set<nat> {
    set id | id in db.rows && OutOnRequest(db.rows[id]) && db.rows[id].network.Some?
  }

  lemma {:induction false} InsertPacksCounts(db: Tables, q: Queue, packs: seq<nat>, seqNo: int, attempt: int)
    ensures InsertPacks(db, q, packs, seqNo, attempt).nextId == db.nextId + |packs|
    decreases |packs|
  {
    if packs != [] {
      InsertPacksCounts(Insert(db, QueuedRow(q, packs[0], seqNo, attempt)), q, packs[1..], seqNo + 1, attempt);
    }
  }

  /** The row counter moves by the packs that were fresh. */
  lemma EnqueueCounts(db: Tables, q: Queue, packs: seq<nat>, front: bool, attempt: int)
    ensures Enqueue(db, q, packs, front, attempt).nextId == db.nextId + |Fresh(PacksInQueue(db, q), packs)|
  {
    var added := Fresh(PacksInQueue(db, q), packs);
    InsertPacksCounts(db, q, added, StartSeq(db, q, |added|, front), attempt);
  }
}
