/** DCC transfers, the XDCC queue and the kept files (server/db/dccTransfers.ts, server/db/dccFiles.ts).
    A table is a map from row id; a statement or transaction is one function from tables to tables, and
    the store's methods are proved against those functions. */
module Dcc {
  import opened Options
  import opened IntSets

  datatype State =
    | Queued | Requested | PendingApproval | Connecting | Receiving | Stalled | Verifying
    | Offered | Sending | Completed | Failed | Rejected | Cancelled

  predicate Active(s: State) {
    !s.Completed? && !s.Failed? && !s.Rejected? && !s.Cancelled?
  }

  /** The bot is busy with one of ours: asked, or sending. */
  predicate Out(s: State) {
    s.Requested? || s.Connecting? || s.Receiving? || s.Verifying?
  }

  /** Bytes are, or will be, written. */
  predicate InFlight(s: State) {
    s.Connecting? || s.Receiving? || s.Stalled? || s.Verifying?
  }

  /** One dcc_transfers row. `bot` is the peer nick, folded once on the way in (the column collates
      NOCASE); `network` is None once the network was deleted. */
  datatype Transfer = Transfer(
    user: nat, network: Option<nat>, bot: string, isSend: bool, state: State,
    pack: Option<nat>, queueSeq: Option<int>, attempt: int,
    size: nat, received: nat, path: Option<string>, fileId: Option<nat>)

  datatype File = File(user: nat, path: string, size: nat, uploaded: bool)

  /** Both tables, with their AUTOINCREMENT counters. */
  datatype Tables = Tables(rows: map<nat, Transfer>, nextId: nat, files: map<nat, File>, nextFile: nat)

  /** One queue per account, network and bot. */
  datatype Queue = Queue(user: nat, network: nat, bot: string)

  predicate Of(q: Queue, t: Transfer) {
    t.user == q.user && t.network == Some(q.network) && t.bot == q.bot
  }

  // ----- the queue -----

  /** The rows queueSeqBounds looks at. */
  predicate Placed(q: Queue, t: Transfer) {
    Of(q, t) && Active(t.state) && t.queueSeq.Some?
  }

  function Places(db: Tables, q: Queue): set<int> {
    set id | id in db.rows && Placed(q, db.rows[id]) :: db.rows[id].queueSeq.value
  }

  /** A pack of this queue that is waiting or out: asking again would double it. */
  predicate WaitingOrOut(q: Queue, t: Transfer) {
    Of(q, t) && t.pack.Some? && (t.state.Queued? || Out(t.state))
  }

  function PacksInQueue(db: Tables, q: Queue): set<nat> {
    set id | id in db.rows && WaitingOrOut(q, db.rows[id]) :: db.rows[id].pack.value
  }

  /** The packs to add: first occurrences that are not in the queue yet, in the order given. */
  function Fresh(have: set<nat>, packs: seq<nat>): seq<nat>
    decreases |packs|
  {
    if packs == [] then []
    else if packs[0] in have then Fresh(have, packs[1..])
    else [packs[0]] + Fresh(have + {packs[0]}, packs[1..])
  }

  function QueuedRow(q: Queue, pack: nat, seqNo: int, attempt: int): Transfer {
    Transfer(q.user, Some(q.network), q.bot, false, Queued, Some(pack), Some(seqNo), attempt, 0, 0, None, None)
  }

  function Insert(db: Tables, t: Transfer): Tables {
    db.(rows := db.rows[db.nextId := t], nextId := db.nextId + 1)
  }

  function InsertPacks(db: Tables, q: Queue, packs: seq<nat>, seqNo: int, attempt: int): Tables
    decreases |packs|
  {
    if packs == [] then db
    else InsertPacks(Insert(db, QueuedRow(q, packs[0], seqNo, attempt)), q, packs[1..], seqNo + 1, attempt)
  }

  function StartSeq(db: Tables, q: Queue, count: nat, front: bool): int {
    var places := Places(db, q);
    if front then (if places == {} then 0 else Min(places)) - count
    else (if places == {} then -1 else Max(places)) + 1
  }

  function Enqueue(db: Tables, q: Queue, packs: seq<nat>, front: bool, attempt: int): Tables {
    var added := Fresh(PacksInQueue(db, q), packs);
    InsertPacks(db, q, added, StartSeq(db, q, |added|, front), attempt)
  }

  /** A typed `xdcc send #n`: straight to the front, as a request that is out. No duplicate check. */
  function TypedRequest(db: Tables, q: Queue, pack: nat): Tables {
    var places := Places(db, q);
    var front := if places == {} then 0 else Min(places) - 1;
    Insert(db, QueuedRow(q, pack, front, 1).(state := Requested))
  }

  /** A row that keeps the bot's next pack waiting. */
  predicate Blocks(q: Queue, t: Transfer) {
    Of(q, t) && Out(t.state) && (!t.state.Requested? || t.pack.Some?)
  }

  predicate IsNext(db: Tables, id: nat) {
    && id in db.rows && db.rows[id].state.Queued? && db.rows[id].network.Some? && db.rows[id].queueSeq.Some?
    && var q := Queue(db.rows[id].user, db.rows[id].network.value, db.rows[id].bot);
       && (forall o <- db.rows :: Of(q, db.rows[o]) && db.rows[o].state.Queued? && db.rows[o].queueSeq.Some? ==>
             db.rows[id].queueSeq.value <= db.rows[o].queueSeq.value)
       && (forall o <- db.rows :: !Blocks(q, db.rows[o]))
  }

  function NextRequests(db: Tables, user: nat, network: nat): set<nat> {
    set id | id in db.rows && db.rows[id].user == user && db.rows[id].network == Some(network) && IsNext(db, id)
  }

  // ----- single rows -----

  function Put(db: Tables, id: nat, t: Transfer): Tables
    requires id in db.rows
  {
    db.(rows := db.rows[id := t])
  }

  function SetState(db: Tables, id: nat, s: State): Tables
    requires id in db.rows
  {
    Put(db, id, db.rows[id].(state := s))
  }

  /** The pump: every next request goes out. */
  function Pump(db: Tables, user: nat, network: nat): Tables {
    var sent := NextRequests(db, user, network);
    db.(rows := map id | id in db.rows :: if id in sent && db.rows[id].pack.Some? then db.rows[id].(state := Requested) else db.rows[id])
  }

  predicate OutOnRequest(t: Transfer) {
    t.state.Requested? && t.pack.Some?
  }

  /** The connection dropped: requests out wait again, at their old place. */
  function RequeueRequests(db: Tables, user: nat, network: nat): Tables {
    db.(rows := map id | id in db.rows ::
      if db.rows[id].user == user && db.rows[id].network == Some(network) && OutOnRequest(db.rows[id])
      then db.rows[id].(state := Queued) else db.rows[id])
  }

  function DeleteRows(db: Tables, gone: set<nat>): Tables {
    db.(rows := db.rows - gone)
  }

  predicate Chosen(t: Transfer, packs: Option<set<nat>>) {
    packs.None? || (t.pack.Some? && t.pack.value in packs.value)
  }

  function QueuedIn(db: Tables, q: Queue, packs: Option<set<nat>>): set<nat> {
    set id | id in db.rows && Of(q, db.rows[id]) && db.rows[id].state.Queued? && Chosen(db.rows[id], packs)
  }

  function OutIn(db: Tables, q: Queue, packs: Option<set<nat>>): set<nat> {
    set id | id in db.rows && Of(q, db.rows[id]) && db.rows[id].pack.Some? && Out(db.rows[id].state) && Chosen(db.rows[id], packs)
  }

  function DroppedWith(db: Tables, user: nat, network: nat): set<nat> {
    set id | id in db.rows && db.rows[id].user == user && db.rows[id].network == Some(network)
          && db.rows[id].pack.Some? && (db.rows[id].state.Queued? || db.rows[id].state.Requested?)
  }

  /** Deleting a network leaves its rows behind without it. */
  function DeleteNetwork(db: Tables, network: nat): Tables {
    db.(rows := map id | id in db.rows ::
      if db.rows[id].network == Some(network) then db.rows[id].(network := None) else db.rows[id])
  }

  // ----- receiving -----

  /** An accepted offer takes its path from every other row of the user. */
  function ReleasePath(db: Tables, id: nat, path: string): Tables
    requires id in db.rows
  {
    db.(rows := map o | o in db.rows ::
      if o != id && db.rows[o].path == Some(path) && db.rows[o].user == db.rows[id].user
      then db.rows[o].(path := None) else db.rows[o])
  }

  function Receive(db: Tables, id: nat, size: nat, path: string, received: nat): Tables
    requires id in db.rows
  {
    var released := ReleasePath(db, id, path);
    Put(released, id, db.rows[id].(state := Receiving, size := size, path := Some(path), received := received))
  }

  function Finish(db: Tables, id: nat, s: State, received: nat): Tables
    requires id in db.rows
  {
    Put(db, id, db.rows[id].(state := s, received := received))
  }

  /** Completion: the row is done, and a received file that is not kept yet becomes the account's. */
  function Complete(db: Tables, id: nat, received: nat): Tables
    requires id in db.rows
  {
    var done := Finish(db, id, Completed, received);
    var t := done.rows[id];
    if t.path.None? || t.path.value == "" || t.fileId.Some? then done
    else KeepReceived(done, t.user, id, t.path.value, received)
  }

  /** The file row, and the transfer pointing at it; nothing when the user has no such transfer. */
  function KeepReceived(db: Tables, user: nat, id: nat, path: string, size: nat): Tables {
    if id !in db.rows || db.rows[id].user != user then db
    else db.(files := db.files[db.nextFile := File(user, path, size, false)], nextFile := db.nextFile + 1,
             rows := db.rows[id := db.rows[id].(fileId := Some(db.nextFile))])
  }

  function KeepUploaded(db: Tables, user: nat, path: string, size: nat): Tables {
    db.(files := db.files[db.nextFile := File(user, path, size, true)], nextFile := db.nextFile + 1)
  }

  function ForgetFile(db: Tables, user: nat, file: nat): Tables {
    db.(rows := map id | id in db.rows ::
          if db.rows[id].user == user && db.rows[id].fileId == Some(file)
          then db.rows[id].(fileId := None, path := None) else db.rows[id],
        files := if file in db.files && db.files[file].user == user then db.files - {file} else db.files)
  }

  predicate HoldsPartial(t: Transfer) {
    t.path.Some? && t.fileId.None? && t.received > 0
  }

  function Finished(db: Tables, user: nat): set<nat> {
    set id | id in db.rows && db.rows[id].user == user && !Active(db.rows[id].state) && !HoldsPartial(db.rows[id])
  }

  // ----- restart -----

  /** A receive whose socket died with the process. */
  predicate Broken(t: Transfer) {
    !t.isSend && InFlight(t.state)
  }

  function FailBroken(db: Tables): Tables {
    db.(rows := map id | id in db.rows :: if Broken(db.rows[id]) then db.rows[id].(state := Failed) else db.rows[id])
  }

  function RequeueAllRequests(db: Tables): Tables {
    db.(rows := map id | id in db.rows ::
      if OutOnRequest(db.rows[id]) && db.rows[id].network.Some? then db.rows[id].(state := Queued) else db.rows[id])
  }

  /** Queue the pack of an ended row again; nothing when it has none, or its network is gone. */
  function RequeuePack(db: Tables, t: Transfer, front: bool, attempt: int): Tables {
    if t.pack.None? || t.network.None? then db
    else Enqueue(db, Queue(t.user, t.network.value, t.bot), [t.pack.value], front, attempt)
  }

  function RequeueEach(db: Tables, broken: seq<Transfer>): Tables
    decreases |broken|
  {
    if broken == [] then db
    else RequeueEach(RequeuePack(db, broken[0], true, broken[0].attempt), broken[1..])
  }

  function Values(db: Tables, ids: seq<nat>): seq<Transfer>
    requires forall id <- ids :: id in db.rows
  {
    seq(|ids|, i requires 0 <= i < |ids| => db.rows[ids[i]])
  }

  /** `order` lists the broken rows in whatever order the UPDATE returns them. */
  ghost predicate BrokenOrder(db: Tables, order: seq<nat>) {
    && (forall id <- order :: id in db.rows && Broken(db.rows[id]))
    && (forall id <- db.rows :: Broken(db.rows[id]) ==> id in order)
  }

  function Settle(db: Tables, requestsSurvive: bool, order: seq<nat>): Tables
    requires forall id <- order :: id in db.rows
  {
    var failed := FailBroken(db);
    RequeueEach(if requestsSurvive then failed else RequeueAllRequests(failed), Values(db, order))
  }

  function FailSends(db: Tables): Tables {
    db.(rows := map id | id in db.rows ::
      if db.rows[id].isSend && (db.rows[id].state.Offered? || db.rows[id].state.Sending?)
      then db.rows[id].(state := Failed) else db.rows[id])
  }
}
