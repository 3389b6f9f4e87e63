/** The XDCC queue as a sequence per bot, what the pump sends, and duplicates (server/db/dccTransfers.ts). */
module DccQueue {
  import opened Options
  import opened IntSets
  import opened Dcc
  import opened DccRuns

  // ----- the rows represent one sequence per bot -----

  /** A row's place; 0 for a row that has none. */
  function Place(db: Tables, id: nat): int {
    if id in db.rows && db.rows[id].queueSeq.Some? then db.rows[id].queueSeq.value else 0
  }

  /** `s` lists exactly the queue's active rows, in rising order of their places. */
  ghost predicate Lists(db: Tables, q: Queue, s: seq<nat>) {
    && (forall i | 0 <= i < |s| :: s[i] in db.rows && Placed(q, db.rows[s[i]]))
    && (forall id <- db.rows :: Placed(q, db.rows[id]) ==> id in s)
    && (forall i, j | 0 <= i < j < |s| :: Place(db, s[i]) < Place(db, s[j]))
  }

  lemma LastPlace(db: Tables, q: Queue, ids: set<nat>) returns (last: nat)
    requires Inv(db) && ids != {} && forall id <- ids :: id in db.rows && Placed(q, db.rows[id])
    ensures last in ids && forall id <- ids :: id != last ==> Place(db, id) < Place(db, last)
  {
    var places := set id | id in ids :: Place(db, id);
    var some := Pick(ids);
    assert Place(db, some) in places;
    last :| last in ids && Place(db, last) == Max(places);
    forall id | id in ids && id != last ensures Place(db, id) < Place(db, last) {
      assert Place(db, id) in places && IsMax(Max(places), places);
      assert SameQueue(db.rows[id], db.rows[last]);
      assert db.rows[id].queueSeq != db.rows[last].queueSeq;
    }
  }

  lemma {:induction false} SortIds(db: Tables, q: Queue, ids: set<nat>) returns (s: seq<nat>)
    requires Inv(db) && forall id <- ids :: id in db.rows && Placed(q, db.rows[id])
    ensures forall id :: id in s <==> id in ids
    ensures forall i | 0 <= i < |s| :: s[i] in ids
    ensures forall i, j | 0 <= i < j < |s| :: Place(db, s[i]) < Place(db, s[j])
    decreases |ids|
  {
    s := [];
    if ids != {} {
      var last := LastPlace(db, q, ids);
      var before := SortIds(db, q, ids - {last});
      s := before + [last];
    }
  }

  /** In every reachable state the rows represent a sequence per bot. */
  lemma QueueIsASequence(db: Tables, q: Queue) returns (s: seq<nat>)
    requires Inv(db)
    ensures Lists(db, q, s)
  {
    var ids := set id | id in db.rows && Placed(q, db.rows[id]);
    s := SortIds(db, q, ids);
    forall i | 0 <= i < |s| ensures s[i] in db.rows && Placed(q, db.rows[s[i]]) {
      assert s[i] in s;
    }
  }

  // ----- enqueue appends or prepends the fresh packs -----

  /** The packs added are the given ones that the queue lacks, each once, in order of first mention. */
  lemma {:induction false} FreshPacks(have: set<nat>, packs: seq<nat>)
    ensures forall p :: p in Fresh(have, packs) <==> p in packs && p !in have
    ensures forall i, j | 0 <= i < j < |Fresh(have, packs)| :: Fresh(have, packs)[i] != Fresh(have, packs)[j]
    decreases |packs|
  {
    if packs != [] {
      FreshPacks(have, packs[1..]);
      FreshPacks(have + {packs[0]}, packs[1..]);
    }
  }

  function NewIds(first: nat, count: nat): (ids: seq<nat>)
    ensures |ids| == count && forall i | 0 <= i < count :: ids[i] == first + i
  {
    seq(count, i requires 0 <= i => first + i)
  }

  lemma NewIdsHold(first: nat, count: nat)
    ensures forall id: nat :: id in NewIds(first, count) <==> first <= id < first + count
    ensures count > 0 ==> NewIds(first, count) == [first] + NewIds(first + 1, count - 1)
    ensures NewIds(first, 0) == []
  {
    var ids := NewIds(first, count);
    forall id: nat | first <= id < first + count ensures id in ids {
      assert ids[id - first] == id;
    }
  }

  lemma NewRowBetween(db: Tables, t: Transfer, a: seq<nat>, b: seq<nat>)
    requires t.queueSeq.Some? && db.nextId !in db.rows
    requires forall i | 0 <= i < |a + b| :: (a + b)[i] in db.rows && db.rows[(a + b)[i]].queueSeq.Some?
    ensures var db', s' := Insert(db, t), a + [db.nextId] + b;
      && (forall i | 0 <= i < |a| :: s'[i] == (a + b)[i] && Place(db', s'[i]) == Place(db, (a + b)[i]))
      && s'[|a|] == db.nextId && Place(db', s'[|a|]) == t.queueSeq.value
      && (forall i | |a| < i < |s'| :: s'[i] == (a + b)[i - 1] && Place(db', s'[i]) == Place(db, (a + b)[i - 1]))
  {
  }

  lemma InsertBetween(db: Tables, q: Queue, t: Transfer, a: seq<nat>, b: seq<nat>)
    requires db.nextId !in db.rows && Placed(q, t) && Lists(db, q, a + b)
    requires forall i | 0 <= i < |a| :: Place(db, (a + b)[i]) < t.queueSeq.value
    requires forall i | |a| <= i < |a + b| :: t.queueSeq.value < Place(db, (a + b)[i])
    ensures Lists(Insert(db, t), q, a + [db.nextId] + b)
  {
    var db', s, s' := Insert(db, t), a + b, a + [db.nextId] + b;
    NewRowBetween(db, t, a, b);
    forall id | id in db'.rows && Placed(q, db'.rows[id]) ensures id in s' {
      if id != db.nextId {
        var i :| 0 <= i < |s| && s[i] == id;
        assert s'[if i < |a| then i else i + 1] == id;
      } else {
        assert s'[|a|] == id;
      }
    }
    forall i | 0 <= i < |s'| ensures s'[i] in db'.rows && Placed(q, db'.rows[s'[i]]) {
      assert s'[i] == if i < |a| then s[i] else if i == |a| then db.nextId else s[i - 1];
    }
    forall i, j | 0 <= i < j < |s'| ensures Place(db', s'[i]) < Place(db', s'[j]) {
      assert s'[i] == if i < |a| then s[i] else if i == |a| then db.nextId else s[i - 1];
      assert s'[j] == if j < |a| then s[j] else if j == |a| then db.nextId else s[j - 1];
    }
  }

  /** The queue can take new rows at `seqNo ..< seqNo + count` between `a` and `b`. */
  ghost predicate RoomBetween(db: Tables, q: Queue, seqNo: int, count: nat, a: seq<nat>, b: seq<nat>) {
    && Lists(db, q, a + b)
    && (forall i | 0 <= i < |a| :: Place(db, (a + b)[i]) < seqNo)
    && (forall i | |a| <= i < |a + b| :: seqNo + count <= Place(db, (a + b)[i]))
  }

  lemma OneRowBetween(db: Tables, q: Queue, t: Transfer, count: nat, a: seq<nat>, b: seq<nat>)
    requires db.nextId !in db.rows && Placed(q, t) && count > 0 && RoomBetween(db, q, t.queueSeq.value, count, a, b)
    ensures RoomBetween(Insert(db, t), q, t.queueSeq.value + 1, count - 1, a + [db.nextId], b)
  {
    InsertBetween(db, q, t, a, b);
    NewRowBetween(db, t, a, b);
    hide Lists;
  }

  /** Consecutive places between two parts of the queue put the new rows between them, in order. */
  lemma {:induction false} InsertPacksBetween(
      db: Tables, q: Queue, packs: seq<nat>, seqNo: int, attempt: int, a: seq<nat>, b: seq<nat>)
    requires (forall id <- db.rows :: id < db.nextId) && RoomBetween(db, q, seqNo, |packs|, a, b)
    ensures Lists(InsertPacks(db, q, packs, seqNo, attempt), q, a + NewIds(db.nextId, |packs|) + b)
    decreases |packs|
  {
    hide RoomBetween, NewIds;
    NewIdsHold(db.nextId, |packs|);
    if packs == [] {
      RoomListed(db, q, seqNo, 0, a, b);
      assert a + [] + b == a + b;
    } else {
      var t := QueuedRow(q, packs[0], seqNo, attempt);
      var db', a' := Insert(db, t), a + [db.nextId];
      var rest := NewIds(db.nextId + 1, |packs| - 1);
      OneRowBetween(db, q, t, |packs|, a, b);
      InsertPacksBetween(db', q, packs[1..], seqNo + 1, attempt, a', b);
      assert a' + rest + b == a + ([db.nextId] + rest) + b;
    }
  }

  lemma RoomListed(db: Tables, q: Queue, seqNo: int, count: nat, a: seq<nat>, b: seq<nat>)
    requires RoomBetween(db, q, seqNo, count, a, b)
    ensures Lists(db, q, a + b)
  {
  }

  lemma {:induction false} InsertedRows(db: Tables, q: Queue, packs: seq<nat>, seqNo: int, attempt: int)
    requires forall id <- db.rows :: id < db.nextId
    ensures var db' := InsertPacks(db, q, packs, seqNo, attempt);
      && db'.nextId == db.nextId + |packs| && db'.files == db.files && db'.nextFile == db.nextFile
      && (forall id :: id in db'.rows <==> id in db.rows || db.nextId <= id < db'.nextId)
      && (forall id <- db.rows :: db'.rows[id] == db.rows[id])
      && (forall k | 0 <= k < |packs| :: db'.rows[db.nextId + k] == QueuedRow(q, packs[k], seqNo + k, attempt))
    decreases |packs|
  {
    if packs != [] {
      var t := QueuedRow(q, packs[0], seqNo, attempt);
      InsertedRows(Insert(db, t), q, packs[1..], seqNo + 1, attempt);
      var db' := InsertPacks(db, q, packs, seqNo, attempt);
      forall k | 0 <= k < |packs| ensures db'.rows[db.nextId + k] == QueuedRow(q, packs[k], seqNo + k, attempt) {
        if k > 0 {
          assert packs[1..][k - 1] == packs[k];
        }
      }
    }
  }

  /** Enqueue puts exactly the fresh packs at the back of the bot's queue, or at its front, in the order
      given; nothing that was there moves or changes. */
  lemma EnqueueIsAppend(db: Tables, q: Queue, packs: seq<nat>, front: bool, attempt: int, s: seq<nat>)
    requires Inv(db) && Lists(db, q, s)
    ensures var added := Fresh(PacksInQueue(db, q), packs);
      var db' := Enqueue(db, q, packs, front, attempt);
      var ids := NewIds(db.nextId, |added|);
      && Lists(db', q, if front then ids + s else s + ids)
      && db'.nextId == db.nextId + |added|
      && (forall id :: id in db'.rows <==> id in db.rows || id in ids)
      && (forall id <- db.rows :: db'.rows[id] == db.rows[id])
      && (forall k | 0 <= k < |added| ::
            var t := db'.rows[ids[k]]; t.queueSeq.Some? && t == QueuedRow(q, added[k], t.queueSeq.value, attempt))
  {
    hide *;
    EnqueuePlaces(db, q, packs, front, attempt, s);
    EnqueuedRows(db, q, packs, front, attempt);
  }

  lemma EnqueuedRows(db: Tables, q: Queue, packs: seq<nat>, front: bool, attempt: int)
    requires Inv(db)
    ensures var added := Fresh(PacksInQueue(db, q), packs);
      var db' := Enqueue(db, q, packs, front, attempt);
      var ids := NewIds(db.nextId, |added|);
      && db'.nextId == db.nextId + |added|
      && (forall id :: id in db'.rows <==> id in db.rows || id in ids)
      && (forall id <- db.rows :: db'.rows[id] == db.rows[id])
      && (forall k | 0 <= k < |added| ::
            var t := db'.rows[ids[k]]; t.queueSeq.Some? && t == QueuedRow(q, added[k], t.queueSeq.value, attempt))
  {
    hide Inv, InsertPacks, Fresh, PacksInQueue, StartSeq, NewIds;
    var added := Fresh(PacksInQueue(db, q), packs);
    var start := StartSeq(db, q, |added|, front);
    var ids := NewIds(db.nextId, |added|);
    NewIdsHold(db.nextId, |added|);
    IdsBelow(db);
    InsertedRows(db, q, added, start, attempt);
    forall k | 0 <= k < |added|
      ensures InsertPacks(db, q, added, start, attempt).rows[ids[k]] == QueuedRow(q, added[k], start + k, attempt)
    {
      assert ids[k] == db.nextId + k;
    }
  }

  lemma StartHasRoom(db: Tables, q: Queue, count: nat, front: bool, s: seq<nat>)
    requires Lists(db, q, s)
    ensures RoomBetween(db, q, StartSeq(db, q, count, front), count, if front then [] else s, if front then s else [])
  {
    assert [] + s == s == s + [];
    forall i | 0 <= i < |s| ensures Place(db, s[i]) in Places(db, q) {
    }
  }

  lemma EnqueuePlaces(db: Tables, q: Queue, packs: seq<nat>, front: bool, attempt: int, s: seq<nat>)
    requires Inv(db) && Lists(db, q, s)
    ensures var ids := NewIds(db.nextId, |Fresh(PacksInQueue(db, q), packs)|);
            Lists(Enqueue(db, q, packs, front, attempt), q, if front then ids + s else s + ids)
  {
    hide Inv, InsertPacks, NewIds, RoomBetween, Lists, StartSeq, Fresh, PacksInQueue;
    var added := Fresh(PacksInQueue(db, q), packs);
    var start, ids := StartSeq(db, q, |added|, front), NewIds(db.nextId, |added|);
    IdsBelow(db);
    StartHasRoom(db, q, |added|, front, s);
    InsertPacksBetween(db, q, added, start, attempt, if front then [] else s, if front then s else []);
    assert [] + ids + s == ids + s && s + ids + [] == s + ids;
  }

  lemma IdsBelow(db: Tables)
    requires Inv(db)
    ensures forall id <- db.rows :: id < db.nextId
  {
  }

  /** Another bot's queue does not notice. */
  lemma EnqueueLeavesOthers(db: Tables, q: Queue, packs: seq<nat>, front: bool, attempt: int, other: Queue, s: seq<nat>)
    requires Inv(db) && other != q && Lists(db, other, s)
    ensures Lists(Enqueue(db, q, packs, front, attempt), other, s)
  {
    hide Inv, InsertPacks;
    var added := Fresh(PacksInQueue(db, q), packs);
    var start := StartSeq(db, q, |added|, front);
    IdsBelow(db);
    InsertedRows(db, q, added, start, attempt);
    var db' := Enqueue(db, q, packs, front, attempt);
    forall id | id in db'.rows && Placed(other, db'.rows[id]) ensures id in s {
      var k := id - db.nextId;
      assert 0 <= k < |added| ==> db'.rows[db.nextId + k] == QueuedRow(q, added[k], start + k, attempt);
    }
  }

  // ----- the pump -----

  /** For each bot the pump sends nothing while one of ours is out, and otherwise exactly the first
      waiting row of the bot's sequence. */
  lemma PumpSendsFirstWaiting(db: Tables, q: Queue, s: seq<nat>, k: nat)
    requires Inv(db) && Lists(db, q, s)
    requires k < |s| && db.rows[s[k]].state.Queued? && forall i | 0 <= i < k :: !db.rows[s[i]].state.Queued?
    ensures var sent := NextRequests(db, q.user, q.network);
      && ((exists o <- db.rows :: Blocks(q, db.rows[o])) ==> forall id <- sent :: !Of(q, db.rows[id]))
      && ((forall o <- db.rows :: !Blocks(q, db.rows[o])) ==>
            s[k] in sent && forall id <- sent :: Of(q, db.rows[id]) ==> id == s[k])
  {
    var sent := NextRequests(db, q.user, q.network);
    forall o | o in db.rows && Of(q, db.rows[o]) && db.rows[o].state.Queued? && db.rows[o].queueSeq.Some?
      ensures Place(db, s[k]) <= Place(db, o)
    {
      assert Placed(q, db.rows[o]) && o in s;
      var i :| 0 <= i < |s| && s[i] == o;
      assert i >= k;
    }
    forall id | id in sent && Of(q, db.rows[id]) ensures id == s[k] {
      assert Place(db, id) <= Place(db, s[k]);
      if id != s[k] {
        assert SameQueue(db.rows[id], db.rows[s[k]]);
      }
    }
  }

  // ----- at most one pump-sent pack per bot is out -----

  /** History: the rows the pump has sent. */
  ghost function PumpedAfter(pumped: set<nat>, db: Tables, op: Op): set<nat> {
    if op.PumpQueues? then pumped + NextRequests(db, op.user, op.network) else pumped
  }

  ghost predicate PumpedOut(db: Tables, pumped: set<nat>, q: Queue, id: nat) {
    id in pumped && id in db.rows && Of(q, db.rows[id]) && Out(db.rows[id].state)
  }

  ghost predicate OneOut(db: Tables, pumped: set<nat>) {
    && (forall id <- pumped :: id < db.nextId && (id in db.rows ==> db.rows[id].pack.Some?))
    && (forall q, i, j :: PumpedOut(db, pumped, q, i) && PumpedOut(db, pumped, q, j) ==> i == j)
  }

  /** A step that makes no row of a pack go out keeps the bound. */
  lemma NothingNewOut(db: Tables, db': Tables, pumped: set<nat>)
    requires OneOut(db, pumped) && db'.nextId >= db.nextId
    requires forall id <- db'.rows :: id < db.nextId ==> id in db.rows && db'.rows[id].pack == db.rows[id].pack
    requires forall q, id <- db'.rows :: id < db.nextId && Of(q, db'.rows[id]) && db'.rows[id].pack.Some? && Out(db'.rows[id].state) ==>
               Of(q, db.rows[id]) && Out(db.rows[id].state)
    ensures OneOut(db', pumped)
  {
    forall q, i, j | PumpedOut(db', pumped, q, i) && PumpedOut(db', pumped, q, j) ensures i == j {
      assert PumpedOut(db, pumped, q, i) && PumpedOut(db, pumped, q, j);
    }
  }

  lemma PumpKeepsOneOut(db: Tables, pumped: set<nat>, user: nat, network: nat)
    requires Inv(db) && OneOut(db, pumped)
    ensures OneOut(Pump(db, user, network), pumped + NextRequests(db, user, network))
  {
    var sent := NextRequests(db, user, network);
    var db', pumped' := Pump(db, user, network), pumped + sent;
    forall id | id in pumped' ensures id < db'.nextId && (id in db'.rows ==> db'.rows[id].pack.Some?) {
      if id in sent { SentRow(db, user, network, id); }
    }
    forall q, i, j | PumpedOut(db', pumped', q, i) && PumpedOut(db', pumped', q, j) ensures i == j {
      if i in sent || j in sent {
        SentAlone(db, pumped, user, network, q, i, j);
      } else {
        assert PumpedOut(db, pumped, q, i) && PumpedOut(db, pumped, q, j);
      }
    }
  }

  lemma SentRow(db: Tables, user: nat, network: nat, id: nat)
    requires Inv(db) && id in NextRequests(db, user, network)
    ensures id in db.rows && id < db.nextId && db.rows[id].state.Queued? && db.rows[id].pack.Some? && db.rows[id].queueSeq.Some?
    ensures IsNext(db, id) && db.rows[id].network.Some?
  {
    assert Shape(db.rows[id]);
  }

  /** A row just sent finds no other pumped row of its bot out, before or beside it. */
  lemma SentAlone(db: Tables, pumped: set<nat>, user: nat, network: nat, q: Queue, i: nat, j: nat)
    requires Inv(db) && OneOut(db, pumped)
    requires var sent := NextRequests(db, user, network);
      && PumpedOut(Pump(db, user, network), pumped + sent, q, i)
      && PumpedOut(Pump(db, user, network), pumped + sent, q, j)
      && (i in sent || j in sent)
    ensures i == j
  {
    var sent := NextRequests(db, user, network);
    var a, b := if i in sent then i else j, if i in sent then j else i;
    SentRow(db, user, network, a);
    assert Of(q, db.rows[a]) && Of(q, db.rows[b]);
    assert q == Queue(db.rows[a].user, db.rows[a].network.value, db.rows[a].bot);
    assert !Blocks(q, db.rows[b]);
    if b in sent {
      SentRow(db, user, network, b);
      BothFirst(db, q, a, b);
    }
  }

  lemma BothFirst(db: Tables, q: Queue, a: nat, b: nat)
    requires Inv(db) && IsNext(db, a) && IsNext(db, b) && Of(q, db.rows[a]) && Of(q, db.rows[b])
    ensures a == b
  {
    assert q == Queue(db.rows[a].user, db.rows[a].network.value, db.rows[a].bot);
    assert q == Queue(db.rows[b].user, db.rows[b].network.value, db.rows[b].bot);
    assert SameQueue(db.rows[a], db.rows[b]);
  }

  predicate AddsRows(op: Op) {
    op.EnqueuePacks? || op.Typed? || op.Offer? || op.OfferSend?
  }

  /** Only the pump turns a waiting row into a request. */
  lemma NoNewRequests(db: Tables, op: Op, id: nat)
    requires Inv(db) && Enabled(db, op) && !Inserts(op) && !op.PumpQueues?
    requires id in Apply(db, op).rows && id in db.rows && Apply(db, op).rows[id].state.Requested?
    ensures db.rows[id].state.Requested?
  {
    hide Inv, NextRequests, QueuedIn, DroppedWith, Finished;
  }

  lemma TameKeepsOneOut(db: Tables, pumped: set<nat>, op: Op)
    requires Inv(db) && Enabled(db, op) && OneOut(db, pumped) && !Inserts(op) && !op.PumpQueues?
    ensures OneOut(Apply(db, op), pumped)
  {
    OthersAreTame(db, op);
    var db' := Apply(db, op);
    forall id | id in db'.rows && db'.rows[id].state.Requested? ensures db.rows[id].state.Requested? {
      NoNewRequests(db, op, id);
    }
    hide Inv, OneOut, Apply, Enabled, Shape;
    NothingNewOut(db, db', pumped);
  }

  /** Old rows stay, new ids are new. */
  ghost predicate OnlyAdds(db: Tables, db': Tables) {
    && db'.nextId >= db.nextId
    && (forall id <- db.rows :: id in db'.rows && db'.rows[id] == db.rows[id])
    && (forall id <- db'.rows :: id < db.nextId ==> id in db.rows)
  }

  lemma AddsKeepOneOut(db: Tables, db': Tables, pumped: set<nat>)
    requires OneOut(db, pumped) && OnlyAdds(db, db')
    ensures OneOut(db', pumped)
  {
    hide OneOut;
    NothingNewOut(db, db', pumped);
  }

  lemma EnqueueOnlyAdds(db: Tables, q: Queue, packs: seq<nat>, front: bool, attempt: int)
    requires Inv(db)
    ensures OnlyAdds(db, Enqueue(db, q, packs, front, attempt))
  {
    hide Inv, Enqueue, Fresh, PacksInQueue;
    EnqueuedRows(db, q, packs, front, attempt);
    NewIdsHold(db.nextId, |Fresh(PacksInQueue(db, q), packs)|);
  }

  lemma {:induction false} RequeueEachOnlyAdds(db: Tables, broken: seq<Transfer>)
    requires Inv(db)
    ensures OnlyAdds(db, RequeueEach(db, broken)) && Inv(RequeueEach(db, broken))
    decreases |broken|
  {
    hide Inv, Enqueue;
    if broken != [] {
      var t := broken[0];
      if t.pack.Some? && t.network.Some? {
        EnqueueOnlyAdds(db, Queue(t.user, t.network.value, t.bot), [t.pack.value], true, t.attempt);
        EnqueueKeepsInv(db, Queue(t.user, t.network.value, t.bot), [t.pack.value], true, t.attempt);
      }
      RequeueEachOnlyAdds(RequeuePack(db, t, true, t.attempt), broken[1..]);
    }
  }

  lemma AcceptKeepsOneOut(db: Tables, pumped: set<nat>, op: Op)
    requires Inv(db) && op.Accept? && Enabled(db, op) && OneOut(db, pumped)
    ensures OneOut(Apply(db, op), pumped)
  {
    ShapeOf(db, op.id);
    hide Inv, OneOut;
    NothingNewOut(db, Apply(db, op), pumped);
  }

  lemma BeforeRequeueKeepsOneOut(db: Tables, pumped: set<nat>, requestsSurvive: bool)
    requires OneOut(db, pumped)
    ensures OneOut(BeforeRequeue(db, requestsSurvive), pumped)
  {
    hide OneOut;
    NothingNewOut(db, FailBroken(db), pumped);
    NothingNewOut(FailBroken(db), RequeueAllRequests(FailBroken(db)), pumped);
  }

  lemma StepKeepsOneOut(db: Tables, pumped: set<nat>, op: Op)
    requires Inv(db) && Enabled(db, op) && OneOut(db, pumped)
    ensures OneOut(Apply(db, op), PumpedAfter(pumped, db, op))
  {
    hide OneOut, Inv, NextRequests, Settle;
    match op
    case PumpQueues(user, network) => PumpKeepsOneOut(db, pumped, user, network);
    case EnqueuePacks(q, packs, front, attempt) =>
      EnqueueOnlyAdds(db, q, packs, front, attempt);
      AddsKeepOneOut(db, Apply(db, op), pumped);
    case Typed(q, pack) => InsertKeepsOneOut(db, pumped, op);
    case Offer(q, size) => InsertKeepsOneOut(db, pumped, op);
    case OfferSend(q, file, size) => InsertKeepsOneOut(db, pumped, op);
    case Accept(id, size, path, received) => AcceptKeepsOneOut(db, pumped, op);
    case Restart(requestsSurvive, order) => RestartKeepsOneOut(db, pumped, requestsSurvive, order);
    case _ => TameKeepsOneOut(db, pumped, op);
  }

  lemma InsertKeepsOneOut(db: Tables, pumped: set<nat>, op: Op)
    requires Inv(db) && Enabled(db, op) && OneOut(db, pumped) && (op.Typed? || op.Offer? || op.OfferSend?)
    ensures OneOut(Apply(db, op), pumped)
  {
    IdsBelow(db);
    hide OneOut, Inv, Places;
    AddsKeepOneOut(db, Apply(db, op), pumped);
  }

  lemma RestartKeepsOneOut(db: Tables, pumped: set<nat>, requestsSurvive: bool, order: seq<nat>)
    requires Inv(db) && BrokenOrder(db, order) && OneOut(db, pumped)
    ensures OneOut(Settle(db, requestsSurvive, order), pumped)
  {
    hide OneOut, Inv, OnlyAdds, RequeueEach;
    var before := BeforeRequeue(db, requestsSurvive);
    BeforeRequeueKeepsInv(db, requestsSurvive);
    BeforeRequeueKeepsOneOut(db, pumped, requestsSurvive);
    RequeueEachOnlyAdds(before, Values(db, order));
    AddsKeepOneOut(before, RequeueEach(before, Values(db, order)), pumped);
  }

  ghost function PumpedIn(run: seq<Tables>, ops: seq<Op>, k: nat): set<nat>
    requires IsRun(run, ops) && k < |run|
  {
    if k == 0 then {} else PumpedAfter(PumpedIn(run, ops, k - 1), run[k - 1], ops[k - 1])
  }

  /** Over every run: of the rows the pump has sent, at most one per bot is out. */
  lemma {:induction false} OnePumpedPackOut(run: seq<Tables>, ops: seq<Op>, k: nat)
    requires IsRun(run, ops) && k < |run|
    ensures OneOut(run[k], PumpedIn(run, ops, k))
  {
    if k > 0 {
      hide OneOut;
      RunKeepsInv(run, ops, k - 1);
      OnePumpedPackOut(run, ops, k - 1);
      StepKeepsOneOut(run[k - 1], PumpedIn(run, ops, k - 1), ops[k - 1]);
    }
  }

  // ----- duplicates -----

  /** No pack is waiting or out twice in the queue. */
  ghost predicate NoDouble(db: Tables, q: Queue) {
    forall i, j | i in db.rows && j in db.rows && i != j && WaitingOrOut(q, db.rows[i]) && WaitingOrOut(q, db.rows[j]) ::
      db.rows[i].pack != db.rows[j].pack
  }

  lemma FewerWaiting(db: Tables, db': Tables, q: Queue)
    requires NoDouble(db, q)
    requires forall id <- db'.rows :: WaitingOrOut(q, db'.rows[id]) ==>
               id in db.rows && WaitingOrOut(q, db.rows[id]) && db'.rows[id].pack == db.rows[id].pack
    ensures NoDouble(db', q)
  {
  }

  lemma TameKeepsNoDouble(db: Tables, op: Op, q: Queue)
    requires Inv(db) && Enabled(db, op) && !Inserts(op) && NoDouble(db, q)
    ensures NoDouble(Apply(db, op), q)
  {
    OthersAreTame(db, op);
    hide Inv, NoDouble, Apply, Enabled, Shape;
    FewerWaiting(db, Apply(db, op), q);
  }

  /** A row of the table after an enqueue is an old row, or carries one of the packs added. */
  lemma RowAfterEnqueue(db: Tables, p: Queue, packs: seq<nat>, front: bool, attempt: int, id: nat)
    requires Inv(db) && id in Enqueue(db, p, packs, front, attempt).rows
    ensures var t := Enqueue(db, p, packs, front, attempt).rows[id];
            var added := Fresh(PacksInQueue(db, p), packs);
            if id < db.nextId then id in db.rows && t == db.rows[id]
            else
              && id - db.nextId < |added| && t.queueSeq.Some?
              && t == QueuedRow(p, added[id - db.nextId], t.queueSeq.value, attempt)
  {
    hide Inv, Enqueue, Fresh, PacksInQueue;
    var added := Fresh(PacksInQueue(db, p), packs);
    var ids := NewIds(db.nextId, |added|);
    EnqueuedRows(db, p, packs, front, attempt);
    NewIdsHold(db.nextId, |added|);
    IdsBelow(db);
    assert id in ids ==> ids[id - db.nextId] == id;
  }

  lemma EnqueueKeepsNoDouble(db: Tables, p: Queue, packs: seq<nat>, front: bool, attempt: int, q: Queue)
    requires Inv(db) && NoDouble(db, q)
    ensures NoDouble(Enqueue(db, p, packs, front, attempt), q)
  {
    hide Inv, Enqueue, Fresh;
    var db', added := Enqueue(db, p, packs, front, attempt), Fresh(PacksInQueue(db, p), packs);
    FreshPacks(PacksInQueue(db, p), packs);
    forall id | id in db.rows && WaitingOrOut(p, db.rows[id]) ensures db.rows[id].pack.value !in added {
      assert db.rows[id].pack.value in PacksInQueue(db, p);
    }
    hide PacksInQueue;
    forall id | id in db'.rows
      ensures if id < db.nextId then id in db.rows && db'.rows[id] == db.rows[id]
              else id - db.nextId < |added| && db'.rows[id].pack == Some(added[id - db.nextId]) && Of(p, db'.rows[id])
    {
      RowAfterEnqueue(db, p, packs, front, attempt, id);
    }
    if p != q {
      FewerWaiting(db, db', q);
    } else {
      DistinctRows(db, db', q, added);
    }
  }

  lemma DistinctRows(db: Tables, db': Tables, q: Queue, added: seq<nat>)
    requires NoDouble(db, q)
    requires forall i, j | 0 <= i < j < |added| :: added[i] != added[j]
    requires forall id <- db'.rows :: id < db.nextId ==> id in db.rows && db'.rows[id] == db.rows[id]
    requires forall id <- db'.rows :: db.nextId <= id ==>
               id - db.nextId < |added| && db'.rows[id].pack == Some(added[id - db.nextId])
    requires forall id <- db.rows :: WaitingOrOut(q, db.rows[id]) ==> db.rows[id].pack.value !in added
    ensures NoDouble(db', q)
  {
  }

  lemma {:induction false} RequeueEachKeepsNoDouble(db: Tables, broken: seq<Transfer>, q: Queue)
    requires Inv(db) && NoDouble(db, q)
    ensures NoDouble(RequeueEach(db, broken), q)
    decreases |broken|
  {
    hide Inv, Enqueue, NoDouble;
    if broken != [] {
      var t := broken[0];
      if t.pack.Some? && t.network.Some? {
        EnqueueKeepsNoDouble(db, Queue(t.user, t.network.value, t.bot), [t.pack.value], true, t.attempt, q);
        EnqueueKeepsInv(db, Queue(t.user, t.network.value, t.bot), [t.pack.value], true, t.attempt);
      }
      RequeueEachKeepsNoDouble(RequeuePack(db, t, true, t.attempt), broken[1..], q);
    }
  }

  lemma RestartKeepsNoDouble(db: Tables, requestsSurvive: bool, order: seq<nat>, q: Queue)
    requires Inv(db) && BrokenOrder(db, order) && NoDouble(db, q)
    ensures NoDouble(Settle(db, requestsSurvive, order), q)
  {
    hide Inv, NoDouble;
    BeforeRequeueKeepsInv(db, requestsSurvive);
    BeforeRequeueKeepsNoDouble(db, requestsSurvive, q);
    RequeueEachKeepsNoDouble(BeforeRequeue(db, requestsSurvive), Values(db, order), q);
  }

  lemma BeforeRequeueKeepsNoDouble(db: Tables, requestsSurvive: bool, q: Queue)
    requires NoDouble(db, q)
    ensures NoDouble(BeforeRequeue(db, requestsSurvive), q)
  {
    hide NoDouble;
    FewerWaiting(db, FailBroken(db), q);
    FewerWaiting(FailBroken(db), RequeueAllRequests(FailBroken(db)), q);
  }

  lemma InsertKeepsNoDouble(db: Tables, t: Transfer, q: Queue)
    requires Inv(db) && NoDouble(db, q)
    ensures NoDouble(Insert(db, t), q) <==> (WaitingOrOut(q, t) ==> t.pack.value !in PacksInQueue(db, q))
  {
    var db' := Insert(db, t);
    IdsBelow(db);
    if WaitingOrOut(q, t) && t.pack.value in PacksInQueue(db, q) {
      var id :| id in db.rows && WaitingOrOut(q, db.rows[id]) && db.rows[id].pack.value == t.pack.value;
      assert id in db'.rows && db.nextId in db'.rows && db'.rows[id].pack == db'.rows[db.nextId].pack;
    } else {
      forall id | id in db.rows && WaitingOrOut(q, db.rows[id]) ensures db.rows[id].pack.value in PacksInQueue(db, q) {
      }
    }
  }

  lemma AcceptKeepsNoDouble(db: Tables, op: Op, q: Queue)
    requires Inv(db) && op.Accept? && Enabled(db, op) && NoDouble(db, q)
    ensures NoDouble(Apply(db, op), q)
  {
    ShapeOf(db, op.id);
    hide Inv, NoDouble;
    FewerWaiting(db, Apply(db, op), q);
  }

  /** Every operation keeps the packs of every queue distinct, except a typed request, which does so if
      and only if its pack is not waiting or out yet: the check its caller makes. */
  lemma StepKeepsNoDouble(db: Tables, op: Op, q: Queue)
    requires Inv(db) && Enabled(db, op) && NoDouble(db, q)
    ensures NoDouble(Apply(db, op), q) <==> (op.Typed? && op.q == q ==> op.pack !in PacksInQueue(db, q))
  {
    hide Inv, NoDouble, PacksInQueue, Settle, Places;
    match op
    case EnqueuePacks(p, packs, front, attempt) => EnqueueKeepsNoDouble(db, p, packs, front, attempt, q);
    case Typed(p, pack) => InsertKeepsNoDouble(db, Apply(db, op).rows[db.nextId], q);
    case Offer(p, size) => InsertKeepsNoDouble(db, Apply(db, op).rows[db.nextId], q);
    case OfferSend(p, file, size) => InsertKeepsNoDouble(db, Apply(db, op).rows[db.nextId], q);
    case Accept(id, size, path, received) => AcceptKeepsNoDouble(db, op, q);
    case Restart(requestsSurvive, order) => RestartKeepsNoDouble(db, requestsSurvive, order, q);
    case _ => TameKeepsNoDouble(db, op, q);
  }
}
