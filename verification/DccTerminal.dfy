/** A finished transfer stays finished, through every run. */
module DccTerminal {
  import opened Dcc
  import opened DccRuns
  import opened DccQueue

  /** Finished rows are still finished where they are left, and no old id comes back. */
  ghost predicate StayFinished(db: Tables, db': Tables) {
    && db'.nextId >= db.nextId && (forall id <- db.rows :: id < db.nextId)
    && (forall id <- db'.rows | id < db.nextId :: id in db.rows)
    && (forall id <- db'.rows | id in db.rows && !Active(db.rows[id].state) :: !Active(db'.rows[id].state))
  }

  lemma TameStaysFinished(db: Tables, db': Tables)
    requires Inv(db) && TameStep(db, db')
    ensures StayFinished(db, db')
  {
    assert forall id <- db.rows :: id < db.nextId;
    hide Inv, Shape;
  }

  lemma AddsStayFinished(db: Tables, db': Tables)
    requires Inv(db) && OnlyAdds(db, db')
    ensures StayFinished(db, db')
  {
  }

  lemma StayFinishedTransitive(a: Tables, b: Tables, c: Tables)
    requires StayFinished(a, b) && StayFinished(b, c)
    ensures StayFinished(a, c)
  {
  }

  lemma InsertStaysFinished(db: Tables, t: Transfer)
    requires Inv(db)
    ensures StayFinished(db, Insert(db, t))
  {
    assert forall id <- db.rows :: id < db.nextId;
    hide Inv;
  }

  lemma AcceptStaysFinished(db: Tables, op: Op)
    requires Inv(db) && op.Accept? && Enabled(db, op)
    ensures StayFinished(db, Apply(db, op))
  {
    assert forall id <- db.rows :: id < db.nextId;
    hide Inv;
  }

  lemma RestartStaysFinished(db: Tables, requestsSurvive: bool, order: seq<nat>)
    requires Inv(db) && BrokenOrder(db, order)
    ensures StayFinished(db, Settle(db, requestsSurvive, order))
  {
    hide Inv, TameStep, FailBroken, RequeueAllRequests, RequeueEach, OnlyAdds, StayFinished;
    var failed, before := FailBroken(db), BeforeRequeue(db, requestsSurvive);
    FailBrokenIsTame(db);
    TameStaysFinished(db, failed);
    TameKeepsInv(db, failed);
    if !requestsSurvive {
      RequeueAllIsTame(failed);
      TameStaysFinished(failed, before);
      StayFinishedTransitive(db, failed, before);
    }
    BeforeRequeueKeepsInv(db, requestsSurvive);
    RequeueEachOnlyAdds(before, Values(db, order));
    AddsStayFinished(before, RequeueEach(before, Values(db, order)));
    StayFinishedTransitive(db, before, RequeueEach(before, Values(db, order)));
  }

  lemma StepStaysFinished(db: Tables, op: Op)
    requires Inv(db) && Enabled(db, op)
    ensures StayFinished(db, Apply(db, op))
  {
    hide Inv, StayFinished, Settle, Enqueue, TypedRequest;
    match op
    case EnqueuePacks(q, packs, front, attempt) =>
      EnqueueOnlyAdds(db, q, packs, front, attempt);
      AddsStayFinished(db, Apply(db, op));
    case Typed(q, pack) => TypedStaysFinished(db, q, pack);
    case Offer(q, size) => InsertStaysFinished(db, Apply(db, op).rows[db.nextId]);
    case OfferSend(q, file, size) => InsertStaysFinished(db, Apply(db, op).rows[db.nextId]);
    case Accept(id, size, path, received) => AcceptStaysFinished(db, op);
    case Restart(requestsSurvive, order) => RestartStaysFinished(db, requestsSurvive, order);
    case _ =>
      OthersAreTame(db, op);
      TameStaysFinished(db, Apply(db, op));
  }

  lemma TypedStaysFinished(db: Tables, q: Queue, pack: nat)
    requires Inv(db)
    ensures StayFinished(db, TypedRequest(db, q, pack))
  {
    InsertStaysFinished(db, TypedRequest(db, q, pack).rows[db.nextId]);
    hide Inv, StayFinished;
  }

  /** Once completed, failed, rejected or cancelled, a transfer never becomes active again: at any later
      point of the run its row is finished or gone, and a gone row's id never names another. */
  lemma {:induction false} FinishedForGood(run: seq<Tables>, ops: seq<Op>, i: nat, j: nat, id: nat)
    requires IsRun(run, ops) && i <= j < |run| && id in run[i].rows && !Active(run[i].rows[id].state)
    ensures StayFinished(run[i], run[j])
    ensures id in run[j].rows ==> !Active(run[j].rows[id].state)
    decreases j
  {
    RunKeepsInv(run, ops, i);
    if i < j {
      FinishedForGood(run, ops, i, j - 1, id);
      RunKeepsInv(run, ops, j - 1);
      StepStaysFinished(run[j - 1], ops[j - 1]);
      StayFinishedTransitive(run[i], run[j - 1], run[j]);
    }
  }
}
