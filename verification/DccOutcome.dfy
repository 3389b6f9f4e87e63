/** What each operation leaves in the rows it touches, field by field, and that it touches no others
    (server/db/dccTransfers.ts, server/db/dccFiles.ts). */
module DccOutcome {
  import opened Options
  import opened IntSets
  import opened Dcc
  import opened DccRuns
  import opened DccQueue
  import opened DccRestart
  import opened DccBytes

  // ----- the restart -----

  /** What an old row is after a restart. */
  function AfterRestart(t: Transfer, requestsSurvive: bool): Transfer {
    if !t.isSend && t.state in {Connecting, Receiving, Verifying, Stalled} then t.(state := Failed)
    else if !requestsSurvive && t.state == Requested && t.pack.Some? && t.network.Some? then t.(state := Queued)
    else t
  }

  /** An interrupted receive has failed, with its bytes, path and place; a request out waits again unless
      requests survive; every other row is as it was, and so are the files. Every row added waits for a
      pack of an interrupted one, from the start. */
  lemma RestartOutcome(db: Tables, requestsSurvive: bool, order: seq<nat>, id: nat)
    requires Inv(db) && BrokenOrder(db, order)
    ensures forall b <- order :: b in db.rows
    ensures var after := Settle(db, requestsSurvive, order);
      && after.files == db.files && after.nextFile == db.nextFile
      && (id in db.rows ==> id in after.rows && after.rows[id] == AfterRestart(db.rows[id], requestsSurvive))
      && (id in after.rows && id !in db.rows ==>
            && after.rows[id].queueSeq.Some?
            && exists b <- order ::
                 && db.rows[b].state in {Connecting, Receiving, Verifying, Stalled} && !db.rows[b].isSend
                 && db.rows[b].pack.Some? && db.rows[b].network.Some?
                 && after.rows[id] == Transfer(db.rows[b].user, db.rows[b].network, db.rows[b].bot, false, Queued, db.rows[b].pack,
                                               after.rows[id].queueSeq, db.rows[b].attempt, 0, 0, None, None))
  {
    hide Inv, Settle, BrokenOrder;
    SettleIsRequeue(db, requestsSurvive, order);
    var before, broken := BeforeRequeue(db, requestsSurvive), Values(db, order);
    BeforeRequeueKeepsInv(db, requestsSurvive);
    SameIds(db, requestsSurvive);
    RequeueKeepsFiles(before, broken);
    RequeueEachOnlyAdds(before, broken);
    if id in db.rows {
      OldRowBefore(db, requestsSurvive, id);
    }
    hide BeforeRequeue, RequeueEach, Values, AfterRestart;
    if id in RequeueEach(before, broken).rows && id !in db.rows {
      RequeueEachRows(before, broken, id);
      RequeuesABroken(db, order, RequeueEach(before, broken).rows[id]);
    }
  }

  lemma SettleIsRequeue(db: Tables, requestsSurvive: bool, order: seq<nat>)
    requires BrokenOrder(db, order)
    ensures forall id <- order :: id in db.rows
    ensures Settle(db, requestsSurvive, order) == RequeueEach(BeforeRequeue(db, requestsSurvive), Values(db, order))
    ensures BeforeRequeue(db, requestsSurvive).files == db.files && BeforeRequeue(db, requestsSurvive).nextFile == db.nextFile
  {
  }

  lemma RequeuesABroken(db: Tables, order: seq<nat>, t: Transfer)
    requires BrokenOrder(db, order) && Requeues(Values(db, order), t)
    ensures t.queueSeq.Some?
    ensures exists b <- order ::
              && db.rows[b].state in {Connecting, Receiving, Verifying, Stalled} && !db.rows[b].isSend
              && db.rows[b].pack.Some? && db.rows[b].network.Some?
              && t == Transfer(db.rows[b].user, db.rows[b].network, db.rows[b].bot, false, Queued, db.rows[b].pack,
                               t.queueSeq, db.rows[b].attempt, 0, 0, None, None)
  {
    var broken := Values(db, order);
    var b :| b in broken && Requeued(b, t);
    var i :| 0 <= i < |broken| && broken[i] == b;
    assert order[i] in order && db.rows[order[i]] == b && Broken(b);
  }

  lemma OldRowBefore(db: Tables, requestsSurvive: bool, id: nat)
    requires id in db.rows
    ensures id in BeforeRequeue(db, requestsSurvive).rows
    ensures BeforeRequeue(db, requestsSurvive).rows[id] == AfterRestart(db.rows[id], requestsSurvive)
  {
  }

  lemma {:induction false} RequeueKeepsFiles(db: Tables, broken: seq<Transfer>)
    requires Inv(db)
    ensures RequeueEach(db, broken).files == db.files && RequeueEach(db, broken).nextFile == db.nextFile
    decreases |broken|
  {
    if broken != [] {
      var t := broken[0];
      if t.pack.Some? && t.network.Some? {
        EnqueueKeepsInv(db, Queue(t.user, t.network.value, t.bot), [t.pack.value], true, t.attempt);
        EnqueueIsWeightless(db, Queue(t.user, t.network.value, t.bot), [t.pack.value], true, t.attempt, 0);
      }
      hide Inv, Enqueue;
      RequeueKeepsFiles(RequeuePack(db, t, true, t.attempt), broken[1..]);
    }
  }

  // ----- the queue -----

  /** Row o keeps the bot of row t busy: asked for a pack, or sending. */
  predicate Busy(t: Transfer, o: Transfer) {
    && o.user == t.user && o.network == t.network && o.bot == t.bot
    && (o.state in {Connecting, Receiving, Verifying} || (o.state == Requested && o.pack.Some?))
  }

  /** Row t is sent: it waits in a queue of this user and network, nothing of its bot's is out, and nothing
      of its bot's waits in front of it. */
  ghost predicate Sendable(db: Tables, user: nat, network: nat, t: Transfer) {
    && t.user == user && t.network == Some(network) && t.state == Queued && t.queueSeq.Some? && t.pack.Some?
    && (forall o <- db.rows :: !Busy(t, db.rows[o]))
    && (forall o <- db.rows | db.rows[o].bot == t.bot && db.rows[o].user == user && db.rows[o].network == Some(network)
                              && db.rows[o].state == Queued && db.rows[o].queueSeq.Some? ::
          t.queueSeq.value <= db.rows[o].queueSeq.value)
  }

  /** The pump changes nothing but the state of the rows it sends. */
  lemma PumpOutcome(db: Tables, user: nat, network: nat)
    ensures var after := Pump(db, user, network);
      && after.nextId == db.nextId && after.files == db.files && after.nextFile == db.nextFile
      && after.rows.Keys == db.rows.Keys
      && forall id <- db.rows ::
           after.rows[id] == if Sendable(db, user, network, db.rows[id]) then db.rows[id].(state := Requested) else db.rows[id]
  {
    forall id | id in db.rows
      ensures id in NextRequests(db, user, network) && db.rows[id].pack.Some? <==> Sendable(db, user, network, db.rows[id])
    {
      NextIsSendable(db, user, network, id);
    }
    hide NextRequests, Sendable;
  }

  lemma NextIsSendable(db: Tables, user: nat, network: nat, id: nat)
    requires id in db.rows
    ensures id in NextRequests(db, user, network) && db.rows[id].pack.Some? <==> Sendable(db, user, network, db.rows[id])
  {
    var t := db.rows[id];
    if t.network.Some? {
      var q := Queue(t.user, t.network.value, t.bot);
      forall o | o in db.rows ensures Blocks(q, db.rows[o]) <==> Busy(t, db.rows[o]) {}
      hide Blocks, Busy;
    }
  }

  /** Queueing adds rows at consecutive places, in front of every place of the bot's active rows or behind
      them, or from 0 when there is none (from -n when n are put in front). */
  lemma EnqueueOutcome(db: Tables, q: Queue, packs: seq<nat>, front: bool, attempt: int) returns (place: int)
    requires Inv(db)
    ensures var after, added := Enqueue(db, q, packs, front, attempt), Fresh(PacksInQueue(db, q), packs);
      && after.nextId == db.nextId + |added| && after.files == db.files && after.nextFile == db.nextFile
      && (forall id :: id in after.rows <==> id in db.rows || db.nextId <= id < db.nextId + |added|)
      && (forall id <- db.rows :: after.rows[id] == db.rows[id])
      && (forall k | 0 <= k < |added| ::
            after.rows[db.nextId + k]
            == Transfer(q.user, Some(q.network), q.bot, false, Queued, Some(added[k]), Some(place + k), attempt, 0, 0, None, None))
      && (if exists id <- db.rows :: InLine(q, db.rows[id])
          then if front
               then && (forall id <- db.rows | InLine(q, db.rows[id]) :: place + |added| <= db.rows[id].queueSeq.value)
                    && (exists id <- db.rows :: InLine(q, db.rows[id]) && place + |added| == db.rows[id].queueSeq.value)
               else && (forall id <- db.rows | InLine(q, db.rows[id]) :: db.rows[id].queueSeq.value < place)
                    && (exists id <- db.rows :: InLine(q, db.rows[id]) && place == db.rows[id].queueSeq.value + 1)
          else place == if front then 0 - |added| else 0)
  {
    hide Inv, Fresh, PacksInQueue, InLine, InsertPacks, StartSeq;
    var added := Fresh(PacksInQueue(db, q), packs);
    place := StartSeq(db, q, |added|, front);
    IdsBelow(db);
    InsertedRows(db, q, added, place, attempt);
    assert Enqueue(db, q, packs, front, attempt) == InsertPacks(db, q, added, place, attempt);
    hide Enqueue;
    StartIs(db, q, |added|, front);
  }

  lemma StartIs(db: Tables, q: Queue, count: nat, front: bool)
    ensures var place := StartSeq(db, q, count, front);
      if exists id <- db.rows :: InLine(q, db.rows[id])
      then if front
           then && (forall id <- db.rows | InLine(q, db.rows[id]) :: place + count <= db.rows[id].queueSeq.value)
                && (exists id <- db.rows :: InLine(q, db.rows[id]) && place + count == db.rows[id].queueSeq.value)
           else && (forall id <- db.rows | InLine(q, db.rows[id]) :: db.rows[id].queueSeq.value < place)
                && (exists id <- db.rows :: InLine(q, db.rows[id]) && place == db.rows[id].queueSeq.value + 1)
      else place == if front then 0 - count else 0
  {
    PlacesAre(db, q);
    Ends(db, q);
    hide InLine, Places;
  }

  /** The least and the greatest place are those of rows in line. */
  lemma Ends(db: Tables, q: Queue)
    ensures Places(db, q) != {} ==>
      && (forall id <- db.rows | InLine(q, db.rows[id]) :: Min(Places(db, q)) <= db.rows[id].queueSeq.value <= Max(Places(db, q)))
      && (exists id <- db.rows :: InLine(q, db.rows[id]) && db.rows[id].queueSeq.value == Min(Places(db, q)))
      && (exists id <- db.rows :: InLine(q, db.rows[id]) && db.rows[id].queueSeq.value == Max(Places(db, q)))
  {
    PlacesAre(db, q);
    if Places(db, q) != {} {
      var lo, hi := Min(Places(db, q)), Max(Places(db, q));
      assert lo in Places(db, q) && hi in Places(db, q);
      hide Places;
      forall id | id in db.rows && InLine(q, db.rows[id]) ensures lo <= db.rows[id].queueSeq.value <= hi {
        assert db.rows[id].queueSeq.value in Places(db, q);
      }
    }
  }

  /** An active, placed row of the queue. */
  predicate InLine(q: Queue, t: Transfer) {
    && t.user == q.user && t.network == Some(q.network) && t.bot == q.bot && t.queueSeq.Some?
    && t.state !in {Completed, Failed, Rejected, Cancelled}
  }

  lemma PlacesAre(db: Tables, q: Queue)
    ensures forall p :: p in Places(db, q) <==> exists id <- db.rows :: InLine(q, db.rows[id]) && db.rows[id].queueSeq.value == p
    ensures (exists id <- db.rows :: InLine(q, db.rows[id])) <==> Places(db, q) != {}
  {
    assert forall id <- db.rows :: InLine(q, db.rows[id]) <==> Placed(q, db.rows[id]);
    if Places(db, q) != {} {
      var p := IntSets.Pick(Places(db, q));
      var id :| id in db.rows && Placed(q, db.rows[id]) && db.rows[id].queueSeq.value == p;
    }
    if id :| id in db.rows && InLine(q, db.rows[id]) {
      assert db.rows[id].queueSeq.value in Places(db, q);
    }
  }

  /** The packs not queued again are those waiting or out for the bot. */
  lemma PresentPacks(db: Tables, q: Queue, pack: nat)
    ensures pack in PacksInQueue(db, q) <==>
            exists id <- db.rows ::
              && db.rows[id].user == q.user && db.rows[id].network == Some(q.network) && db.rows[id].bot == q.bot
              && db.rows[id].pack == Some(pack) && db.rows[id].state in {Queued, Requested, Connecting, Receiving, Verifying}
  {
    if id :| id in db.rows && db.rows[id].user == q.user && db.rows[id].network == Some(q.network) && db.rows[id].bot == q.bot
             && db.rows[id].pack == Some(pack) && db.rows[id].state in {Queued, Requested, Connecting, Receiving, Verifying} {
      assert WaitingOrOut(q, db.rows[id]);
    }
  }

  /** A typed request goes out at once, in front of the queue, whatever is there. */
  lemma TypedOutcome(db: Tables, q: Queue, pack: nat) returns (place: int)
    requires Inv(db)
    ensures TypedRequest(db, q, pack)
         == Insert(db, Transfer(q.user, Some(q.network), q.bot, false, Requested, Some(pack), Some(place), 1, 0, 0, None, None))
    ensures if exists id <- db.rows :: InLine(q, db.rows[id])
            then && (forall id <- db.rows | InLine(q, db.rows[id]) :: place < db.rows[id].queueSeq.value)
                 && (exists id <- db.rows :: InLine(q, db.rows[id]) && place + 1 == db.rows[id].queueSeq.value)
            else place == 0
  {
    var places := Places(db, q);
    place := if places == {} then 0 else Min(places) - 1;
    assert TypedRequest(db, q, pack) == Insert(db, QueuedRow(q, pack, place, 1).(state := Requested));
    hide InLine, Places, Inv, TypedRequest, Insert;
    PlacesAre(db, q);
    Ends(db, q);
  }

  /** On a disconnect the user's requests for packs on that network wait again; no other row changes. */
  lemma DisconnectOutcome(db: Tables, user: nat, network: nat)
    ensures var after := RequeueRequests(db, user, network);
      && after == db.(rows := after.rows) && after.rows.Keys == db.rows.Keys
      && forall id <- db.rows ::
           var t := db.rows[id];
           after.rows[id] == if t.user == user && t.network == Some(network) && t.state == Requested && t.pack.Some?
                             then t.(state := Queued) else t
  {
  }

  /** Which rows a removal deletes; every other row stays as it is. */
  lemma RemovalOutcome(db: Tables, op: Op)
    requires Enabled(db, op) && (op.RemovePacks? || op.DeleteQueued? || op.DropQueue? || op.Clear? || op.ClearFinished?)
    ensures var after := Apply(db, op);
      && after == db.(rows := after.rows)
      && (forall id <- after.rows :: id in db.rows && after.rows[id] == db.rows[id])
      && forall id <- db.rows ::
           var t := db.rows[id];
           id !in after.rows <==>
             match op
             case RemovePacks(q, chosen) =>
               && t.user == q.user && t.network == Some(q.network) && t.bot == q.bot && t.state == Queued
               && (chosen.Some? ==> t.pack.Some? && t.pack.value in chosen.value)
             case DeleteQueued(user, one) => id == one && t.user == user && t.state == Queued
             case DropQueue(user, network) =>
               t.user == user && t.network == Some(network) && t.pack.Some? && (t.state == Queued || t.state == Requested)
             case Clear(user, one) => id == one
             case ClearFinished(user) =>
               && t.user == user && t.state in {Completed, Failed, Rejected, Cancelled}
               && !(t.path.Some? && t.fileId.None? && t.received > 0)
             case _ => false
  {
  }

  /** A removal hands back the rows of the chosen packs that are out with the bot. */
  lemma HandedBack(db: Tables, q: Queue, chosen: Option<set<nat>>, id: nat)
    ensures id in OutIn(db, q, chosen) <==>
      && id in db.rows
      && var t := db.rows[id];
         && t.user == q.user && t.network == Some(q.network) && t.bot == q.bot && t.pack.Some?
         && t.state in {Requested, Connecting, Receiving, Verifying} && (chosen.Some? ==> t.pack.value in chosen.value)
  {
  }

  // ----- one transfer -----

  /** An offer that comes in waits for approval, one that goes out is on offer with its file; neither has a
      place in a queue. */
  lemma OfferOutcome(db: Tables, q: Queue, file: nat, size: nat)
    ensures Apply(db, Offer(q, size))
         == Tables(db.rows[db.nextId := Transfer(q.user, Some(q.network), q.bot, false, PendingApproval, None, None, 1, size, 0, None, None)],
                   db.nextId + 1, db.files, db.nextFile)
    ensures Apply(db, OfferSend(q, file, size))
         == Tables(db.rows[db.nextId := Transfer(q.user, Some(q.network), q.bot, true, Offered, None, None, 1, size, 0, None, Some(file))],
                   db.nextId + 1, db.files, db.nextFile)
  {
  }

  /** An accepted offer receives into its path, which any other row of the user lets go of. */
  lemma AcceptOutcome(db: Tables, id: nat, size: nat, path: string, received: nat)
    requires id in db.rows
    ensures var after := Receive(db, id, size, path, received);
      && after == db.(rows := after.rows) && after.rows.Keys == db.rows.Keys
      && after.rows[id] == db.rows[id].(state := Receiving, size := size, path := Some(path), received := received)
      && forall o <- db.rows | o != id ::
           after.rows[o] == if db.rows[o].user == db.rows[id].user && db.rows[o].path == Some(path)
                            then db.rows[o].(path := None) else db.rows[o]
  {
  }

  /** A finished transfer is completed with its bytes; a received file that is not kept yet becomes a file
      of its user, of that path and size, and the row points at it. No other row changes. */
  lemma DoneOutcome(db: Tables, id: nat, received: nat)
    requires id in db.rows
    ensures var t, after := db.rows[id], Complete(db, id, received);
      && after.nextId == db.nextId && after.rows.Keys == db.rows.Keys
      && (forall o <- db.rows | o != id :: after.rows[o] == db.rows[o])
      && if t.path.Some? && t.path.value != "" && t.fileId.None?
         then && after.rows[id] == t.(state := Completed, received := received, fileId := Some(db.nextFile))
              && after.files == db.files[db.nextFile := File(t.user, t.path.value, received, false)]
              && after.nextFile == db.nextFile + 1
         else && after.rows[id] == t.(state := Completed, received := received)
              && after.files == db.files && after.nextFile == db.nextFile
  {
  }

  /** A file is kept for the user's own transfer, which then points at it; nothing happens for another's. An
      upload is a file with no transfer. */
  lemma KeepOutcome(db: Tables, user: nat, id: nat, path: string, size: nat)
    ensures KeepReceived(db, user, id, path, size)
         == if id in db.rows && db.rows[id].user == user
            then Tables(db.rows[id := db.rows[id].(fileId := Some(db.nextFile))], db.nextId,
                        db.files[db.nextFile := File(user, path, size, false)], db.nextFile + 1)
            else db
    ensures KeepUploaded(db, user, path, size)
         == Tables(db.rows, db.nextId, db.files[db.nextFile := File(user, path, size, true)], db.nextFile + 1)
  {
  }

  /** The other operations on one row set exactly these fields. */
  lemma OneRowOutcome(db: Tables, op: Op)
    requires Enabled(db, op) && (op.Checkpoint? || op.Move? || op.End? || op.PeerConnected? || op.PartialDeleted?)
    ensures var t := db.rows[op.id];
      Apply(db, op)
      == db.(rows := db.rows[op.id :=
           match op
           case Checkpoint(_, _, received) => t.(received := received)
           case Move(_, state) => t.(state := state)
           case End(_, state, received) => t.(state := state, received := received)
           case PeerConnected(_, offset) => t.(state := Sending, received := offset)
           case PartialDeleted(_) => t.(path := None)
           case _ => t])
  {
  }

  /** At boot every send on offer or under way has failed; a network that goes leaves its rows without one;
      a file that goes takes its pointers and paths with it. */
  lemma SweepOutcome(db: Tables, network: nat, user: nat, file: nat, id: nat)
    requires id in db.rows
    ensures var t := db.rows[id];
      && id in FailSends(db).rows && id in DeleteNetwork(db, network).rows && id in ForgetFile(db, user, file).rows
      && FailSends(db).rows[id] == (if t.isSend && (t.state == Offered || t.state == Sending) then t.(state := Failed) else t)
      && DeleteNetwork(db, network).rows[id] == (if t.network == Some(network) then t.(network := None) else t)
      && ForgetFile(db, user, file).rows[id]
         == (if t.user == user && t.fileId == Some(file) then t.(fileId := None, path := None) else t)
    ensures forall f :: f in ForgetFile(db, user, file).files <==> f in db.files && !(f == file && db.files[f].user == user)
    ensures forall f <- ForgetFile(db, user, file).files :: ForgetFile(db, user, file).files[f] == db.files[f]
  {
  }

  // ----- bytes -----

  /** What one row and one file weigh: a receive under way what it may still grow to, any other partial what
      it has, a row whose file is kept nothing of its own. */
  lemma Weights(t: Transfer, f: File, user: nat)
    ensures var row, file := Tables(map[0 := t], 1, map[], 0), Tables(map[], 0, map[0 := f], 1);
      && StoredBytes(row, user) == (if t.user == user && t.path.Some? && t.fileId.None? then t.received else 0)
      && CommittedBytes(row, user, {}, 0)
         == (if t.user == user && t.path.Some? && t.fileId.None?
             then if t.state in {Connecting, Receiving, Verifying, Stalled} && t.received < t.size then t.size else t.received
             else 0)
      && StoredBytes(file, user) == CommittedBytes(file, user, {}, 0) == (if f.user == user then f.size else 0)
  {
    var row, file := Tables(map[0 := t], 1, map[], 0), Tables(map[], 0, map[0 := f], 1);
    forall m: Measure ensures RowBytes(row.rows, m, user, {}, 1) == Weigh(m, user, t) {
      assert RowBytes(row.rows, m, user, {}, 0) == 0;
    }
    assert FileBytes(file.files, user, 0) == 0;
  }

  /** And every further row adds what it weighs alone. */
  lemma RowAdds(db: Tables, t: Transfer, user: nat)
    requires Inv(db)
    ensures StoredBytes(Insert(db, t), user) == StoredBytes(db, user) + StoredBytes(Tables(map[0 := t], 1, map[], 0), user)
    ensures CommittedBytes(Insert(db, t), user, {}, 0)
         == CommittedBytes(db, user, {}, 0) + CommittedBytes(Tables(map[0 := t], 1, map[], 0), user, {}, 0)
  {
    forall m: Measure
      ensures RowBytes(Insert(db, t).rows, m, user, {}, db.nextId + 1) == RowBytes(db.rows, m, user, {}, db.nextId) + Weigh(m, user, t)
      ensures RowBytes(map[0 := t], m, user, {}, 1) == Weigh(m, user, t)
    {
      IdsBelow(db);
      RowBytesPush(db.rows, m, user, db.nextId, t, db.nextId);
      assert RowBytes(map[0 := t], m, user, {}, 0) == 0;
    }
  }

  lemma {:induction false} RowBytesPush(rows: map<nat, Transfer>, m: Measure, user: nat, id: nat, t: Transfer, n: nat)
    requires n <= id
    ensures RowBytes(rows[id := t], m, user, {}, n) == RowBytes(rows, m, user, {}, n)
  {
    if n > 0 {
      RowBytesPush(rows, m, user, id, t, n - 1);
    }
  }
}
