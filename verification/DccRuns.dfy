/** Every operation on the DCC tables as a step, and what every step keeps. */
module DccRuns {
  import opened Options
  import opened Dcc

  datatype Op =
    | EnqueuePacks(q: Queue, packs: seq<nat>, front: bool, attempt: int)
    | Typed(q: Queue, pack: nat)
    | Offer(q: Queue, size: nat)
    | PumpQueues(user: nat, network: nat)
    | Disconnect(user: nat, network: nat)
    | RemovePacks(q: Queue, chosen: Option<set<nat>>)
    | DeleteQueued(user: nat, id: nat)
    | DropQueue(user: nat, network: nat)
    | NetworkGone(network: nat)
    | Accept(id: nat, size: nat, path: string, received: nat)
    | Checkpoint(user: nat, id: nat, received: nat)
    | Move(id: nat, state: State)
    | End(id: nat, state: State, received: nat)
    | Done(id: nat, received: nat)
    | OfferSend(q: Queue, file: nat, size: nat)
    | PeerConnected(id: nat, offset: nat)
    | BootFailSends
    | Restart(requestsSurvive: bool, order: seq<nat>)
    | AddUpload(user: nat, path: string, size: nat)
    | Forget(user: nat, file: nat)
    | PartialDeleted(id: nat)
    | Clear(user: nat, id: nat)
    | ClearFinished(user: nat)

  function More(a: nat, b: nat): nat { if a < b then b else a }

  /** What the callers make sure of before they call. No terminal row is made active again, an offer is
      accepted only for a request out or an offer waiting for approval, and byte counts stay within what
      the transfer advertised or already had. */
  ghost predicate Enabled(db: Tables, op: Op) {
    match op
    case Accept(id, size, path, received) =>
      && id in db.rows && received <= size && !db.rows[id].isSend
      && (db.rows[id].state.Requested? || db.rows[id].state.PendingApproval?)
    case Checkpoint(user, id, received) =>
      id in db.rows && db.rows[id].user == user && Active(db.rows[id].state) && received <= More(db.rows[id].size, db.rows[id].received)
    case Move(id, s) =>
      && id in db.rows && Active(db.rows[id].state)
      && (s.Failed? || s.Rejected? || s.Cancelled? || (db.rows[id].state.Receiving? && (s.Verifying? || s.Stalled?)))
    case End(id, s, received) =>
      && id in db.rows && Active(db.rows[id].state) && (s.Failed? || s.Cancelled?)
      && received <= More(db.rows[id].size, db.rows[id].received)
    case Done(id, received) =>
      && id in db.rows && received <= More(db.rows[id].size, db.rows[id].received)
      && (if db.rows[id].isSend then db.rows[id].state.Sending? else InFlight(db.rows[id].state))
    case PeerConnected(id, offset) => id in db.rows && db.rows[id].isSend && db.rows[id].state.Offered?
    case Restart(_, order) => BrokenOrder(db, order)
    case PartialDeleted(id) => id in db.rows && !Active(db.rows[id].state) && !db.rows[id].isSend
    case Clear(user, id) => id in db.rows && db.rows[id].user == user && !Active(db.rows[id].state)
    case _ => true
  }

  ghost function Apply(db: Tables, op: Op): Tables
    requires Enabled(db, op)
  {
    match op
    case EnqueuePacks(q, packs, front, attempt) => Enqueue(db, q, packs, front, attempt)
    case Typed(q, pack) => TypedRequest(db, q, pack)
    case Offer(q, size) =>
      Insert(db, Transfer(q.user, Some(q.network), q.bot, false, PendingApproval, None, None, 1, size, 0, None, None))
    case PumpQueues(user, network) => Pump(db, user, network)
    case Disconnect(user, network) => RequeueRequests(db, user, network)
    case RemovePacks(q, chosen) => DeleteRows(db, QueuedIn(db, q, chosen))
    case DeleteQueued(user, id) =>
      if id in db.rows && db.rows[id].user == user && db.rows[id].state.Queued? then DeleteRows(db, {id}) else db
    case DropQueue(user, network) => DeleteRows(db, DroppedWith(db, user, network))
    case NetworkGone(network) => DeleteNetwork(db, network)
    case Accept(id, size, path, received) => Receive(db, id, size, path, received)
    case Checkpoint(_, id, received) => Put(db, id, db.rows[id].(received := received))
    case Move(id, s) => SetState(db, id, s)
    case End(id, s, received) => Finish(db, id, s, received)
    case Done(id, received) => Complete(db, id, received)
    case OfferSend(q, file, size) =>
      Insert(db, Transfer(q.user, Some(q.network), q.bot, true, Offered, None, None, 1, size, 0, None, Some(file)))
    case PeerConnected(id, offset) => Finish(db, id, Sending, offset)
    case BootFailSends => FailSends(db)
    case Restart(requestsSurvive, order) => Settle(db, requestsSurvive, order)
    case AddUpload(user, path, size) => KeepUploaded(db, user, path, size)
    case Forget(user, file) => ForgetFile(db, user, file)
    case PartialDeleted(id) => Put(db, id, db.rows[id].(path := None))
    case Clear(user, id) => DeleteRows(db, {id})
    case ClearFinished(user) => DeleteRows(db, Finished(db, user))
  }

  // ----- the invariant -----

  /** What a single row always satisfies. */
  predicate Shape(t: Transfer) {
    && (t.pack.Some? <==> t.queueSeq.Some?)
    && (t.state.Queued? ==> t.pack.Some?)
    && (t.state.PendingApproval? ==> t.pack.None?)
    && (t.isSend ==> t.pack.None? && t.path.None? && (t.state.Offered? || t.state.Sending? || !Active(t.state)))
    && (!t.isSend ==> !t.state.Offered? && !t.state.Sending?)
    && (t.path.Some? ==> InFlight(t.state) || !Active(t.state))
    && (!t.isSend && t.fileId.Some? ==> t.state.Completed?)
  }

  /** Two active rows of one bot's queue. */
  predicate SameQueue(a: Transfer, b: Transfer) {
    && a.user == b.user && a.bot == b.bot && a.network.Some? && a.network == b.network
    && Active(a.state) && Active(b.state) && a.queueSeq.Some? && b.queueSeq.Some?
  }

  predicate SamePath(a: Transfer, b: Transfer) {
    a.user == b.user && a.path.Some? && a.path == b.path
  }

  ghost predicate Inv(db: Tables) {
    && (forall id <- db.rows :: id < db.nextId && Shape(db.rows[id]))
    && (forall id <- db.files :: id < db.nextFile)
    && (forall i, j | i in db.rows && j in db.rows && i != j && SameQueue(db.rows[i], db.rows[j]) ::
          db.rows[i].queueSeq != db.rows[j].queueSeq)
    && (forall i, j | i in db.rows && j in db.rows && i != j :: !SamePath(db.rows[i], db.rows[j]))
  }

  /** The changes a row may go through without touching anyone's place or path. */
  predicate Tame(t: Transfer, t': Transfer) {
    && t'.user == t.user && t'.bot == t.bot && t'.isSend == t.isSend && t'.attempt == t.attempt
    && t'.pack == t.pack && t'.queueSeq == t.queueSeq
    && (t'.network == t.network || t'.network.None?)
    && (t'.path == t.path || t'.path.None?)
    && (Active(t'.state) ==> Active(t.state))
    && (t.pack.Some? && t'.state.Queued? ==> t.state.Queued? || Out(t.state))
    && (t.pack.Some? && Out(t'.state) ==> Out(t.state) || (t.state.Queued? && t'.state.Requested?))
    && (Shape(t) ==> Shape(t'))
  }

  ghost predicate TameStep(db: Tables, db': Tables) {
    && db'.nextId == db.nextId
    && db'.nextFile >= db.nextFile
    && (forall id <- db'.rows :: id in db.rows && Tame(db.rows[id], db'.rows[id]))
    && (forall id <- db'.files :: id < db'.nextFile)
  }

  lemma TameKeepsInv(db: Tables, db': Tables)
    requires Inv(db) && TameStep(db, db')
    ensures Inv(db')
  {
    forall i, j | i in db'.rows && j in db'.rows && i != j && SameQueue(db'.rows[i], db'.rows[j])
      ensures db'.rows[i].queueSeq != db'.rows[j].queueSeq
    {
      assert SameQueue(db.rows[i], db.rows[j]);
    }
    forall i, j | i in db'.rows && j in db'.rows && i != j ensures !SamePath(db'.rows[i], db'.rows[j]) {
      assert !SamePath(db.rows[i], db.rows[j]);
    }
  }

  lemma InsertKeepsInv(db: Tables, t: Transfer)
    requires Inv(db) && Shape(t) && t.path.None?
    requires forall id <- db.rows :: SameQueue(db.rows[id], t) ==> db.rows[id].queueSeq != t.queueSeq
    ensures Inv(Insert(db, t))
  {
  }

  lemma InsertPlaces(db: Tables, q: Queue, t: Transfer)
    requires Inv(db) && Placed(q, t)
    ensures Places(Insert(db, t), q) == Places(db, q) + {t.queueSeq.value}
  {
    var db' := Insert(db, t);
    assert db.nextId in db'.rows && Placed(q, db'.rows[db.nextId]);
    forall x | x in Places(db, q) ensures x in Places(db', q) {
      var id :| id in db.rows && Placed(q, db.rows[id]) && db.rows[id].queueSeq.value == x;
      assert id in db'.rows && db'.rows[id] == db.rows[id];
    }
  }

  lemma {:induction false} InsertPacksKeepsInv(db: Tables, q: Queue, packs: seq<nat>, seqNo: int, attempt: int)
    requires Inv(db) && forall k | seqNo <= k < seqNo + |packs| :: k !in Places(db, q)
    ensures Inv(InsertPacks(db, q, packs, seqNo, attempt))
    decreases |packs|
  {
    if packs != [] {
      var t := QueuedRow(q, packs[0], seqNo, attempt);
      assert seqNo !in Places(db, q);
      forall id | id in db.rows && SameQueue(db.rows[id], t) ensures db.rows[id].queueSeq != t.queueSeq {
        assert Placed(q, db.rows[id]);
        assert db.rows[id].queueSeq.value in Places(db, q);
      }
      InsertKeepsInv(db, t);
      InsertPlaces(db, q, t);
      InsertPacksKeepsInv(Insert(db, t), q, packs[1..], seqNo + 1, attempt);
    }
  }

  lemma StartIsFree(db: Tables, q: Queue, count: nat, front: bool)
    ensures var start := StartSeq(db, q, count, front);
            forall k | start <= k < start + count :: k !in Places(db, q)
  {
  }

  lemma EnqueueKeepsInv(db: Tables, q: Queue, packs: seq<nat>, front: bool, attempt: int)
    requires Inv(db)
    ensures Inv(Enqueue(db, q, packs, front, attempt))
  {
    var added := Fresh(PacksInQueue(db, q), packs);
    StartIsFree(db, q, |added|, front);
    InsertPacksKeepsInv(db, q, added, StartSeq(db, q, |added|, front), attempt);
  }

  lemma TypedKeepsInv(db: Tables, q: Queue, pack: nat)
    requires Inv(db)
    ensures Inv(TypedRequest(db, q, pack))
  {
    var t := TypedRequest(db, q, pack).rows[db.nextId];
    forall id | id in db.rows && SameQueue(db.rows[id], t) ensures db.rows[id].queueSeq != t.queueSeq {
      assert Placed(q, db.rows[id]);
      assert db.rows[id].queueSeq.value in Places(db, q);
    }
    InsertKeepsInv(db, t);
  }

  lemma ReleaseIsTame(db: Tables, id: nat, path: string)
    requires Inv(db) && id in db.rows
    ensures TameStep(db, ReleasePath(db, id, path))
    ensures forall o <- ReleasePath(db, id, path).rows :: o != id && db.rows[o].user == db.rows[id].user ==>
              ReleasePath(db, id, path).rows[o].path != Some(path)
  {
    var db' := ReleasePath(db, id, path);
    forall o | o in db'.rows ensures Tame(db.rows[o], db'.rows[o]) {
      RowTame(db.rows[o], db'.rows[o]);
    }
  }

  /** Taking over a path that every other row of the user has let go. */
  lemma TakePathKeepsInv(db: Tables, id: nat, t: Transfer)
    requires Inv(db) && id in db.rows && Shape(t)
    requires t.user == db.rows[id].user && t.bot == db.rows[id].bot && t.network == db.rows[id].network
    requires t.queueSeq == db.rows[id].queueSeq && Active(db.rows[id].state)
    requires forall o <- db.rows :: o != id && db.rows[o].user == t.user ==> db.rows[o].path != t.path
    ensures Inv(Put(db, id, t))
  {
    hide Shape;
    var db' := Put(db, id, t);
    forall i, j | i in db'.rows && j in db'.rows && i != j && SameQueue(db'.rows[i], db'.rows[j])
      ensures db'.rows[i].queueSeq != db'.rows[j].queueSeq
    {
      assert SameQueue(db.rows[i], db.rows[j]);
    }
    forall i, j | i in db'.rows && j in db'.rows && i != j ensures !SamePath(db'.rows[i], db'.rows[j]) {
      assert !SamePath(db.rows[i], db.rows[j]);
    }
  }

  lemma AcceptKeepsInv(db: Tables, id: nat, size: nat, path: string, received: nat)
    requires Inv(db) && Enabled(db, Accept(id, size, path, received))
    ensures Inv(Receive(db, id, size, path, received))
  {
    hide Inv;
    var released := ReleasePath(db, id, path);
    ReleaseIsTame(db, id, path);
    TameKeepsInv(db, released);
    assert Shape(db.rows[id]) by { ShapeOf(db, id); }
    TakePathKeepsInv(released, id, Receive(db, id, size, path, received).rows[id]);
  }

  lemma ShapeOf(db: Tables, id: nat)
    requires Inv(db) && id in db.rows
    ensures Shape(db.rows[id])
  {
  }

  /** Rows that only end, wait again, or let something go. */
  lemma RowTame(t: Transfer, t': Transfer)
    requires t' == t.(state := t'.state, network := t'.network, path := t'.path, fileId := t'.fileId, received := t'.received)
    requires t'.network == t.network || t'.network.None?
    requires t'.path == t.path || t'.path.None?
    requires || t'.state == t.state
             || (Active(t.state) && !Active(t'.state))
             || (t.state.Receiving? && InFlight(t'.state))
             || (t.state.Offered? && t'.state.Sending?)
             || (t.pack.Some? && t.state.Requested? && t'.state.Queued?)
             || (t.pack.Some? && t.state.Queued? && t'.state.Requested?)
    requires t'.fileId == t.fileId || t'.fileId.None? || t'.state.Completed?
    requires t.isSend ==> !InFlight(t'.state)
    ensures Tame(t, t')
  {
  }

  lemma {:induction false} RequeueEachKeepsInv(db: Tables, broken: seq<Transfer>)
    requires Inv(db)
    ensures Inv(RequeueEach(db, broken))
    decreases |broken|
  {
    hide Inv, Enqueue;
    if broken != [] {
      var t := broken[0];
      if t.pack.Some? && t.network.Some? {
        EnqueueKeepsInv(db, Queue(t.user, t.network.value, t.bot), [t.pack.value], true, t.attempt);
      }
      RequeueEachKeepsInv(RequeuePack(db, t, true, t.attempt), broken[1..]);
    }
  }

  /** The state a restart leaves before packs are queued again. */
  ghost function BeforeRequeue(db: Tables, requestsSurvive: bool): Tables {
    if requestsSurvive then FailBroken(db) else RequeueAllRequests(FailBroken(db))
  }

  lemma FailBrokenIsTame(db: Tables)
    requires Inv(db)
    ensures TameStep(db, FailBroken(db))
  {
    var db' := FailBroken(db);
    forall id | id in db'.rows ensures Tame(db.rows[id], db'.rows[id]) {
      ShapeOf(db, id);
      RowTame(db.rows[id], db'.rows[id]);
    }
  }

  lemma RequeueAllIsTame(db: Tables)
    requires Inv(db)
    ensures TameStep(db, RequeueAllRequests(db))
  {
    var db' := RequeueAllRequests(db);
    forall id | id in db'.rows ensures Tame(db.rows[id], db'.rows[id]) {
      ShapeOf(db, id);
      RowTame(db.rows[id], db'.rows[id]);
    }
  }

  lemma BeforeRequeueKeepsInv(db: Tables, requestsSurvive: bool)
    requires Inv(db)
    ensures Inv(BeforeRequeue(db, requestsSurvive))
  {
    hide Inv, TameStep, RequeueAllRequests, FailBroken;
    FailBrokenIsTame(db);
    TameKeepsInv(db, FailBroken(db));
    RequeueAllIsTame(FailBroken(db));
    TameKeepsInv(FailBroken(db), RequeueAllRequests(FailBroken(db)));
  }

  lemma RestartKeepsInv(db: Tables, requestsSurvive: bool, order: seq<nat>)
    requires Inv(db) && BrokenOrder(db, order)
    ensures Inv(Settle(db, requestsSurvive, order))
  {
    hide Inv;
    BeforeRequeueKeepsInv(db, requestsSurvive);
    RequeueEachKeepsInv(BeforeRequeue(db, requestsSurvive), Values(db, order));
  }

  predicate Inserts(op: Op) {
    op.EnqueuePacks? || op.Typed? || op.Offer? || op.OfferSend? || op.Accept? || op.Restart?
  }

  lemma PutIsTame(db: Tables, id: nat, t: Transfer)
    requires Inv(db) && id in db.rows && Tame(db.rows[id], t)
    ensures TameStep(db, Put(db, id, t))
  {
    forall o | o in db.rows ensures Tame(db.rows[o], db.rows[o]) {
      ShapeOf(db, o);
    }
    hide Tame;
  }

  lemma DeleteIsTame(db: Tables, gone: set<nat>)
    requires Inv(db)
    ensures TameStep(db, DeleteRows(db, gone))
  {
    forall o | o in db.rows ensures Tame(db.rows[o], db.rows[o]) {
      ShapeOf(db, o);
    }
    hide Tame;
  }

  predicate OnOneRow(op: Op) {
    op.Checkpoint? || op.Move? || op.End? || op.Done? || op.PeerConnected? || op.PartialDeleted?
  }

  lemma SingleRowIsTame(db: Tables, op: Op)
    requires Inv(db) && Enabled(db, op) && OnOneRow(op)
    ensures TameStep(db, Apply(db, op))
  {
    var id, t := op.id, db.rows[op.id];
    ShapeOf(db, id);
    hide Inv, TameStep, Tame;
    match op
    case Checkpoint(_, _, received) => PutTame(db, id, t.(received := received));
    case Move(_, s) => PutTame(db, id, t.(state := s));
    case End(_, s, received) => PutTame(db, id, t.(state := s, received := received));
    case PeerConnected(_, offset) => PutTame(db, id, t.(state := Sending, received := offset));
    case PartialDeleted(_) => PutTame(db, id, t.(path := None));
    case Done(_, received) => DoneIsTame(db, id, received);
  }

  lemma FilesBelow(db: Tables)
    requires Inv(db)
    ensures forall f <- db.files :: f < db.nextFile
  {
  }

  lemma DoneIsTame(db: Tables, id: nat, received: nat)
    requires Inv(db) && Enabled(db, Done(id, received))
    ensures TameStep(db, Complete(db, id, received))
  {
    var t, db' := db.rows[id], Complete(db, id, received);
    var t' := t.(state := Completed, received := received);
    ShapeOf(db, id);
    FilesBelow(db);
    hide Inv, Tame, TameStep, Complete;
    if t.path.None? || t.path.value == "" || t.fileId.Some? {
      PutTame(db, id, t');
      CompleteOnly(db, id, received);
    } else {
      PutTame(db, id, t'.(fileId := Some(db.nextFile)));
      CompleteKeeps(db, id, received);
      FilesMayGrow(db, Put(db, id, t'.(fileId := Some(db.nextFile))), db');
    }
  }

  lemma CompleteOnly(db: Tables, id: nat, received: nat)
    requires id in db.rows && (db.rows[id].path.None? || db.rows[id].path.value == "" || db.rows[id].fileId.Some?)
    ensures Complete(db, id, received) == Put(db, id, db.rows[id].(state := Completed, received := received))
  {
  }

  lemma CompleteKeeps(db: Tables, id: nat, received: nat)
    requires id in db.rows && db.rows[id].path.Some? && db.rows[id].path.value != "" && db.rows[id].fileId.None?
    ensures var t, db' := db.rows[id], Complete(db, id, received);
      && db'.rows == Put(db, id, t.(state := Completed, received := received, fileId := Some(db.nextFile))).rows
      && db'.nextId == db.nextId && db'.nextFile == db.nextFile + 1
      && db'.files == db.files[db.nextFile := File(t.user, t.path.value, received, false)]
  {
  }

  lemma PutTame(db: Tables, id: nat, t': Transfer)
    requires Inv(db) && id in db.rows
    requires var t := db.rows[id];
      && t' == t.(state := t'.state, path := t'.path, fileId := t'.fileId, received := t'.received)
      && (t'.path == t.path || t'.path.None?)
      && (|| t'.state == t.state || (Active(t.state) && !Active(t'.state))
          || (t.state.Receiving? && InFlight(t'.state)) || (t.state.Offered? && t'.state.Sending?))
      && (t'.fileId == t.fileId || t'.fileId.None? || t'.state.Completed?)
      && (t.isSend ==> !InFlight(t'.state))
    ensures TameStep(db, Put(db, id, t'))
  {
    RowTame(db.rows[id], t');
    PutIsTame(db, id, t');
  }

  lemma FilesMayGrow(db: Tables, db': Tables, db'': Tables)
    requires Inv(db) && TameStep(db, db') && db''.rows == db'.rows && db''.nextId == db'.nextId
    requires db''.nextFile >= db'.nextFile && forall f <- db''.files :: f < db''.nextFile
    ensures TameStep(db, db'')
  {
  }

  lemma NextIsQueued(db: Tables, user: nat, network: nat, id: nat)
    requires id in NextRequests(db, user, network)
    ensures db.rows[id].state.Queued?
  {
  }

  lemma PumpIsTame(db: Tables, user: nat, network: nat)
    requires Inv(db)
    ensures TameStep(db, Pump(db, user, network))
  {
    hide NextRequests;
    var db' := Pump(db, user, network);
    forall id | id in db'.rows ensures Tame(db.rows[id], db'.rows[id]) {
      ShapeOf(db, id);
      if id in NextRequests(db, user, network) {
        NextIsQueued(db, user, network, id);
      }
      hide Inv;
      RowTame(db.rows[id], db'.rows[id]);
    }
    hide Tame;
  }

  lemma DisconnectIsTame(db: Tables, user: nat, network: nat)
    requires Inv(db)
    ensures TameStep(db, RequeueRequests(db, user, network))
  {
    var db' := RequeueRequests(db, user, network);
    forall id | id in db'.rows ensures Tame(db.rows[id], db'.rows[id]) {
      ShapeOf(db, id);
      hide Inv;
      RowTame(db.rows[id], db'.rows[id]);
    }
    hide Tame;
  }

  lemma NetworkGoneIsTame(db: Tables, network: nat)
    requires Inv(db)
    ensures TameStep(db, DeleteNetwork(db, network))
  {
    var db' := DeleteNetwork(db, network);
    forall id | id in db'.rows ensures Tame(db.rows[id], db'.rows[id]) {
      ShapeOf(db, id);
      hide Inv;
      RowTame(db.rows[id], db'.rows[id]);
    }
    hide Tame;
  }

  lemma FailSendsIsTame(db: Tables)
    requires Inv(db)
    ensures TameStep(db, FailSends(db))
  {
    var db' := FailSends(db);
    forall id | id in db'.rows ensures Tame(db.rows[id], db'.rows[id]) {
      ShapeOf(db, id);
      hide Inv;
      RowTame(db.rows[id], db'.rows[id]);
    }
    hide Tame;
  }

  lemma ForgetIsTame(db: Tables, user: nat, file: nat)
    requires Inv(db)
    ensures TameStep(db, ForgetFile(db, user, file))
  {
    var db' := ForgetFile(db, user, file);
    forall id | id in db'.rows ensures Tame(db.rows[id], db'.rows[id]) {
      ShapeOf(db, id);
      hide Inv;
      RowTame(db.rows[id], db'.rows[id]);
    }
    hide Tame;
  }

  lemma OthersAreTame(db: Tables, op: Op)
    requires Inv(db) && Enabled(db, op) && !Inserts(op)
    ensures TameStep(db, Apply(db, op))
  {
    if OnOneRow(op) {
      SingleRowIsTame(db, op);
    } else {
      hide TameStep, Inv;
      match op
      case PumpQueues(user, network) => PumpIsTame(db, user, network);
      case Disconnect(user, network) => DisconnectIsTame(db, user, network);
      case NetworkGone(network) => NetworkGoneIsTame(db, network);
      case BootFailSends => FailSendsIsTame(db);
      case Forget(user, file) => ForgetIsTame(db, user, file);
      case RemovePacks(q, chosen) => DeleteIsTame(db, QueuedIn(db, q, chosen));
      case DeleteQueued(user, id) =>
        DeleteIsTame(db, {id});
        NothingIsTame(db);
      case DropQueue(user, network) => DeleteIsTame(db, DroppedWith(db, user, network));
      case Clear(user, id) => DeleteIsTame(db, {id});
      case ClearFinished(user) => DeleteIsTame(db, Finished(db, user));
      case AddUpload(user, path, size) =>
        NothingIsTame(db);
        UploadIsTame(db, user, path, size);
    }
  }

  lemma NothingIsTame(db: Tables)
    requires Inv(db)
    ensures TameStep(db, db)
  {
    DeleteIsTame(db, {});
    assert DeleteRows(db, {}).rows == db.rows;
  }

  lemma UploadIsTame(db: Tables, user: nat, path: string, size: nat)
    requires Inv(db)
    ensures TameStep(db, KeepUploaded(db, user, path, size))
  {
    NothingIsTame(db);
    FilesMayGrow(db, db, KeepUploaded(db, user, path, size));
  }

  lemma StepKeepsInv(db: Tables, op: Op)
    requires Inv(db) && Enabled(db, op)
    ensures Inv(Apply(db, op))
  {
    hide Inv;
    match op
    case EnqueuePacks(q, packs, front, attempt) => EnqueueKeepsInv(db, q, packs, front, attempt);
    case Typed(q, pack) => TypedKeepsInv(db, q, pack);
    case Offer(q, size) => InsertKeepsInv(db, Apply(db, op).rows[db.nextId]);
    case OfferSend(q, file, size) => InsertKeepsInv(db, Apply(db, op).rows[db.nextId]);
    case Accept(id, size, path, received) => AcceptKeepsInv(db, id, size, path, received);
    case Restart(requestsSurvive, order) => RestartKeepsInv(db, requestsSurvive, order);
    case _ =>
      OthersAreTame(db, op);
      TameKeepsInv(db, Apply(db, op));
  }

  // ----- runs -----

  const Empty := Tables(map[], 0, map[], 0)

  /** `run[i]` is the database before operation i; it starts empty. */
  ghost predicate IsRun(run: seq<Tables>, ops: seq<Op>) {
    && |run| == |ops| + 1 && run[0] == Empty
    && forall i | 0 <= i < |ops| :: Enabled(run[i], ops[i]) && run[i + 1] == Apply(run[i], ops[i])
  }

  /** In every reachable state: one bot's active queue places are pairwise distinct, and a user's path
      belongs to at most one transfer row. */
  lemma {:induction false} RunKeepsInv(run: seq<Tables>, ops: seq<Op>, k: nat)
    requires IsRun(run, ops) && k < |run|
    ensures Inv(run[k])
  {
    hide Inv;
    if k == 0 {
      EmptyInv();
    } else {
      RunKeepsInv(run, ops, k - 1);
      StepKeepsInv(run[k - 1], ops[k - 1]);
    }
  }

  lemma EmptyInv()
    ensures Inv(Empty)
  {
  }
}
