/** Restart recovery: what settling interrupted receives does to every bot's queue
    (server/db/dccTransfers.ts, settleInterruptedDccReceives). */
module DccRestart {
  import opened Options
  import opened Dcc
  import opened DccRuns
  import opened DccQueue

  function StalledPacks(db: Tables, q: Queue): set<nat> {
    set id | id in db.rows && Of(q, db.rows[id]) && db.rows[id].state.Stalled? && db.rows[id].pack.Some? :: db.rows[id].pack.value
  }

  function PacksOf(q: Queue, broken: seq<Transfer>): set<nat> {
    if broken == [] then {}
    else (if Of(q, broken[0]) && broken[0].pack.Some? then {broken[0].pack.value} else {}) + PacksOf(q, broken[1..])
  }

  /** Enqueue adds its fresh packs to the queue's waiting set, and to no other queue's. */
  lemma EnqueueAddsPacks(db: Tables, p: Queue, packs: seq<nat>, front: bool, attempt: int, q: Queue)
    requires Inv(db)
    ensures PacksInQueue(Enqueue(db, p, packs, front, attempt), q)
         == PacksInQueue(db, q) + (if p == q then set x | x in packs else {})
  {
    hide Inv, Enqueue, Fresh;
    var db', added := Enqueue(db, p, packs, front, attempt), Fresh(PacksInQueue(db, p), packs);
    EnqueueOnlyAdds(db, p, packs, front, attempt);
    FreshPacks(PacksInQueue(db, p), packs);
    forall x | x in PacksInQueue(db, q) ensures x in PacksInQueue(db', q) {
      var id :| id in db.rows && WaitingOrOut(q, db.rows[id]) && db.rows[id].pack.value == x;
      assert id in db'.rows && db'.rows[id] == db.rows[id];
    }
    forall x | x in packs && p == q ensures x in PacksInQueue(db', q) {
      if x !in PacksInQueue(db, p) {
        NewRowHolds(db, p, packs, front, attempt, x);
      }
    }
    forall x | x in PacksInQueue(db', q) ensures x in PacksInQueue(db, q) || (p == q && x in packs) {
      var id :| id in db'.rows && WaitingOrOut(q, db'.rows[id]) && db'.rows[id].pack.value == x;
      RowAfterEnqueue(db, p, packs, front, attempt, id);
    }
  }

  lemma NewRowHolds(db: Tables, p: Queue, packs: seq<nat>, front: bool, attempt: int, x: nat)
    requires Inv(db) && x in Fresh(PacksInQueue(db, p), packs)
    ensures x in PacksInQueue(Enqueue(db, p, packs, front, attempt), p)
  {
    hide Inv, Enqueue, Fresh;
    var db', added := Enqueue(db, p, packs, front, attempt), Fresh(PacksInQueue(db, p), packs);
    EnqueuedRows(db, p, packs, front, attempt);
    var ids := NewIds(db.nextId, |added|);
    var k :| 0 <= k < |added| && added[k] == x;
    assert ids[k] in db'.rows && WaitingOrOut(p, db'.rows[ids[k]]);
  }

  lemma {:induction false} RequeueEachPacks(db: Tables, broken: seq<Transfer>, q: Queue)
    requires Inv(db)
    ensures PacksInQueue(RequeueEach(db, broken), q) == PacksInQueue(db, q) + PacksOf(q, broken)
    decreases |broken|
  {
    hide Inv, Enqueue, PacksInQueue;
    if broken != [] {
      var t := broken[0];
      if t.pack.Some? && t.network.Some? {
        var p := Queue(t.user, t.network.value, t.bot);
        EnqueueAddsPacks(db, p, [t.pack.value], true, t.attempt, q);
        EnqueueKeepsInv(db, p, [t.pack.value], true, t.attempt);
        assert p == q <==> Of(q, t);
        assert (set x | x in [t.pack.value]) == {t.pack.value};
      }
      RequeueEachPacks(RequeuePack(db, t, true, t.attempt), broken[1..], q);
    }
  }

  lemma {:induction false} PacksOfHolds(q: Queue, broken: seq<Transfer>)
    ensures forall x :: x in PacksOf(q, broken) <==> exists t <- broken :: Of(q, t) && t.pack == Some(x)
  {
    if broken != [] {
      PacksOfHolds(q, broken[1..]);
    }
  }

  lemma BrokenPacks(db: Tables, order: seq<nat>, q: Queue, x: nat)
    requires BrokenOrder(db, order)
    ensures x in PacksOf(q, Values(db, order)) <==>
            exists id :: id in db.rows && Broken(db.rows[id]) && Of(q, db.rows[id]) && db.rows[id].pack == Some(x)
  {
    var broken := Values(db, order);
    PacksOfHolds(q, broken);
    if exists t <- broken :: Of(q, t) && t.pack == Some(x) {
      var t :| t in broken && Of(q, t) && t.pack == Some(x);
      var i :| 0 <= i < |broken| && broken[i] == t;
      assert order[i] in order;
    }
    if id :| id in db.rows && Broken(db.rows[id]) && Of(q, db.rows[id]) && db.rows[id].pack == Some(x) {
      var i :| 0 <= i < |order| && order[i] == id;
      assert broken[i] in broken;
    }
  }

  lemma WaitingBefore(db: Tables, requestsSurvive: bool, q: Queue, id: nat)
    requires id in db.rows
    ensures WaitingOrOut(q, BeforeRequeue(db, requestsSurvive).rows[id])
       <==> WaitingOrOut(q, db.rows[id]) && !Broken(db.rows[id])
    ensures BeforeRequeue(db, requestsSurvive).rows[id].pack == db.rows[id].pack
  {
  }

  /** Restart settlement loses no pack and doubles none: for every account, network and bot, the packs
      waiting or out afterwards are exactly those waiting, out or stalled before; packs that were
      distinct stay distinct. */
  lemma RestartKeepsPacks(db: Tables, requestsSurvive: bool, order: seq<nat>, q: Queue)
    requires Inv(db) && BrokenOrder(db, order)
    ensures PacksInQueue(Settle(db, requestsSurvive, order), q) == PacksInQueue(db, q) + StalledPacks(db, q)
    ensures NoDouble(db, q) ==> NoDouble(Settle(db, requestsSurvive, order), q)
  {
    hide Inv, NoDouble, RequeueEach;
    var before, broken := BeforeRequeue(db, requestsSurvive), Values(db, order);
    BeforeRequeueKeepsInv(db, requestsSurvive);
    RequeueEachPacks(before, broken, q);
    if NoDouble(db, q) {
      RestartKeepsNoDouble(db, requestsSurvive, order, q);
    }
    forall x ensures x in PacksInQueue(before, q) + PacksOf(q, broken) <==> x in PacksInQueue(db, q) + StalledPacks(db, q) {
      PackAccounted(db, requestsSurvive, order, q, x);
    }
  }

  lemma PackAccounted(db: Tables, requestsSurvive: bool, order: seq<nat>, q: Queue, x: nat)
    requires Inv(db) && BrokenOrder(db, order)
    ensures x in PacksInQueue(BeforeRequeue(db, requestsSurvive), q) + PacksOf(q, Values(db, order))
       <==> x in PacksInQueue(db, q) + StalledPacks(db, q)
  {
    hide PacksOf;
    var before := BeforeRequeue(db, requestsSurvive);
    BrokenPacks(db, order, q, x);
    if x in PacksInQueue(db, q) {
      var id :| id in db.rows && WaitingOrOut(q, db.rows[id]) && db.rows[id].pack.value == x;
      WaitingBefore(db, requestsSurvive, q, id);
      assert Shape(db.rows[id]);
      assert id in before.rows;
    }
    if x in StalledPacks(db, q) {
      var id :| id in db.rows && Of(q, db.rows[id]) && db.rows[id].state.Stalled? && db.rows[id].pack == Some(x);
      assert Shape(db.rows[id]);
    }
    if x in PacksInQueue(before, q) {
      var id :| id in before.rows && WaitingOrOut(q, before.rows[id]) && before.rows[id].pack.value == x;
      WaitingBefore(db, requestsSurvive, q, id);
    }
    if id :| id in db.rows && Broken(db.rows[id]) && Of(q, db.rows[id]) && db.rows[id].pack == Some(x) {
      assert db.rows[id].state.Stalled? || WaitingOrOut(q, db.rows[id]);
    }
  }

  // ----- what the new rows are, and who is still out -----

  /** A row added by the restart queues the pack of a broken row again, with that row's attempt. */
  ghost predicate Requeues(broken: seq<Transfer>, t: Transfer) {
    exists b <- broken :: Requeued(b, t)
  }

  predicate Requeued(b: Transfer, t: Transfer) {
    && b.pack.Some? && b.network.Some? && t.queueSeq.Some?
    && t == Transfer(b.user, b.network, b.bot, false, Queued, b.pack, t.queueSeq, b.attempt, 0, 0, None, None)
  }

  lemma {:induction false} RequeueEachRows(db: Tables, broken: seq<Transfer>, id: nat)
    requires Inv(db) && id in RequeueEach(db, broken).rows
    ensures id in db.rows || Requeues(broken, RequeueEach(db, broken).rows[id])
    decreases |broken|
  {
    if broken != [] {
      hide Inv, Enqueue;
      var t := broken[0];
      var db' := RequeuePack(db, t, true, t.attempt);
      if t.pack.Some? && t.network.Some? {
        EnqueueKeepsInv(db, Queue(t.user, t.network.value, t.bot), [t.pack.value], true, t.attempt);
      }
      RequeueEachRows(db', broken[1..], id);
      RequeueEachOnlyAdds(db', broken[1..]);
      if id in db'.rows {
        RequeuedRow(db, t, id);
      }
    }
  }

  lemma RequeuedRow(db: Tables, t: Transfer, id: nat)
    requires Inv(db) && id in RequeuePack(db, t, true, t.attempt).rows
    ensures id in db.rows || Requeues([t], RequeuePack(db, t, true, t.attempt).rows[id])
  {
    if t.pack.Some? && t.network.Some? {
      hide Inv, Enqueue;
      var p := Queue(t.user, t.network.value, t.bot);
      RowAfterEnqueue(db, p, [t.pack.value], true, t.attempt, id);
      FreshPacks(PacksInQueue(db, p), [t.pack.value]);
      if id !in db.rows {
        var row := Enqueue(db, p, [t.pack.value], true, t.attempt).rows[id];
        assert row.pack.value in Fresh(PacksInQueue(db, p), [t.pack.value]);
        assert t in [t] && Requeued(t, row);
      }
    }
  }

  /** What a row is after a restart: an old row keeps pack, place and attempt; a row added queues the pack
      of a broken row again with that row's attempt; a pack is still out only if it is a request that
      survived, on the row it had. */
  ghost predicate Settled(db: Tables, requestsSurvive: bool, broken: seq<Transfer>, id: nat, t: Transfer) {
    && (id in db.rows ==> t.attempt == db.rows[id].attempt && t.pack == db.rows[id].pack && t.queueSeq == db.rows[id].queueSeq)
    && (id !in db.rows ==> Requeues(broken, t))
    && (t.pack.Some? && t.network.Some? && Out(t.state) ==>
          requestsSurvive && id in db.rows && t.state.Requested? && db.rows[id].state.Requested?)
  }

  lemma RestartRows(db: Tables, requestsSurvive: bool, order: seq<nat>, id: nat)
    requires Inv(db) && BrokenOrder(db, order) && id in Settle(db, requestsSurvive, order).rows
    ensures Settled(db, requestsSurvive, Values(db, order), id, Settle(db, requestsSurvive, order).rows[id])
  {
    var before, broken := BeforeRequeue(db, requestsSurvive), Values(db, order);
    assert Settle(db, requestsSurvive, order) == RequeueEach(before, broken);
    hide Inv, RequeueEach, Settle, BeforeRequeue, Values;
    BeforeRequeueKeepsInv(db, requestsSurvive);
    RequeueEachOnlyAdds(before, broken);
    SameIds(db, requestsSurvive);
    if id in db.rows {
      ShapeOf(db, id);
      RowBeforeRequeue(db, requestsSurvive, id);
    } else {
      RequeueEachRows(before, broken, id);
    }
  }

  lemma SameIds(db: Tables, requestsSurvive: bool)
    ensures BeforeRequeue(db, requestsSurvive).rows.Keys == db.rows.Keys
  {
  }

  lemma RowBeforeRequeue(db: Tables, requestsSurvive: bool, id: nat)
    requires id in db.rows && Shape(db.rows[id])
    ensures var t, t' := db.rows[id], BeforeRequeue(db, requestsSurvive).rows[id];
      && t'.attempt == t.attempt && t'.pack == t.pack && t'.queueSeq == t.queueSeq
      && (t'.pack.Some? && t'.network.Some? && Out(t'.state) ==> requestsSurvive && t'.state.Requested? && t.state.Requested?)
  {
  }

  /** What is queued again goes ahead of everything its bot had waiting. */
  lemma RequeuedGoFirst(db: Tables, t: Transfer, s: seq<nat>)
    requires Inv(db) && t.pack.Some? && t.network.Some? && t.pack.value !in PacksInQueue(db, Queue(t.user, t.network.value, t.bot))
    requires Lists(db, Queue(t.user, t.network.value, t.bot), s)
    ensures Lists(RequeuePack(db, t, true, t.attempt), Queue(t.user, t.network.value, t.bot), [db.nextId] + s)
  {
    var q := Queue(t.user, t.network.value, t.bot);
    EnqueueIsAppend(db, q, [t.pack.value], true, t.attempt, s);
    assert [t.pack.value][1..] == [];
    assert Fresh(PacksInQueue(db, q), [t.pack.value]) == [t.pack.value];
    assert NewIds(db.nextId, 1) == [db.nextId];
  }
}
