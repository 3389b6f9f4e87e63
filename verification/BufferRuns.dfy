/** Safety of the registry over whole runs, with the networks' mappings fixed. */
module BufferRuns {
  import opened Options
  import opened Casemapping
  import opened Buffers

  // ----- the shape of every operation -----

  /** What nothing ever rewrites. */
  predicate SameIdentity(a: Row, b: Row) {
    a.user == b.user && a.network == b.network && a.target == b.target && a.folded == b.folded && a.kind == b.kind
  }

  /** An operation leaves the tables alone, adds one row in a free slot, edits the row of a slot, or
      deletes it. */
  datatype Effect = Nothing | Added(row: Row) | Edited(slot: Slot, change: Change) | Deleted(slot: Slot)

  ghost function Perform(db: Tables, e: Effect): Tables {
    match e
    case Nothing => db
    case Added(r) => Insert(db, r)
    case Edited(s, change) => Update(db, s, change)
    case Deleted(s) => Delete(db, s)
  }

  ghost predicate Fit(lower: string -> string, db: Tables, e: Effect) {
    match e
    case Nothing => true
    case Added(r) => Find(db, SlotOf(r)).None? && KnownNetwork(db, r.network)
      && r.folded == FoldFor(lower, db.networks, r.network, r.target)
    case Edited(s, change) => true
    case Deleted(s) => true
  }

  ghost function PermanentEffect(db: Tables, r: Row): Effect {
    if Find(db, SlotOf(r)).Some? then Nothing else Added(r)
  }

  ghost function ServerEffect(db: Tables, network: nat): Effect {
    if network in db.networks then PermanentEffect(db, ServerRow(db.networks[network].owner, network)) else Nothing
  }

  ghost function ReservedEffect(db: Tables, n: Name): Effect {
    if n.target == SYSTEM_TARGET || n.network.None? then PermanentEffect(db, SystemRow(n.user))
    else ServerEffect(db, n.network.value)
  }

  ghost function NewEffect(lower: string -> string, db: Tables, n: Name, r: Row): Effect {
    if Find(db, Address(lower, db, n)).Some? || !KnownNetwork(db, n.network) then Nothing else Added(r)
  }

  ghost function ExistingEffect(lower: string -> string, db: Tables, n: Name, kind: Option<Kind>, closed: bool, now: int): Effect {
    var r := NewRow(lower, db, n, KindOr(kind, n.target), true, false, None, None);
    if Reserved(n.target) then ReservedEffect(db, n) else NewEffect(lower, db, n, if closed then ClosedNow(r, now) else r)
  }

  ghost function EffectOf(lower: string -> string, db: Tables, op: Op): Effect {
    match op
    case EnsureServer(network) => ServerEffect(db, network)
    case EnsureSystem(user) => PermanentEffect(db, SystemRow(user))
    case EnsureOpen(n, kind, join, key) =>
      if Reserved(n.target) then ReservedEffect(db, n)
      else if Find(db, Address(lower, db, n)).Some? then Edited(Address(lower, db, n), Ensured(join, key))
      else NewEffect(lower, db, n, NewRow(lower, db, n, KindOr(kind, n.target), true, join == Some(true), Patched(key, None), None))
    case EnsureExists(n, kind, closed, now) => ExistingEffect(lower, db, n, kind, closed, now)
    case Reopen(n) => Edited(Address(lower, db, n), Flip)
    case Close(n, now) => Edited(Address(lower, db, n), Shut(now))
    case SetAutojoin(n, flag) => Edited(Address(lower, db, n), Flag(flag))
    case SetKey(n, value) => Edited(Address(lower, db, n), Rekey(value))
    case SeedAutojoin(n, key) =>
      if Find(db, Address(lower, db, n)).Some? then Edited(Address(lower, db, n), Seeded(key))
      else NewEffect(lower, db, n, NewRow(lower, db, n, Channel, false, true, Patched(key, None), None))
    case ImportRow(n, kind, open, autojoin, value, closedAt) =>
      if Find(db, Address(lower, db, n)).Some? then Edited(Address(lower, db, n), Imported(open, autojoin, value, closedAt))
      else NewEffect(lower, db, n, NewRow(lower, db, n, KindOr(kind, n.target), open, autojoin, value, if open then None else closedAt))
    case DeleteBuffer(n) => Deleted(Address(lower, db, n))
    case ResolveOrMint(network, target, ignored, now) =>
      if network !in db.networks then Nothing
      else
        var n := OwnName(db, network, target);
        if Find(db, Address(lower, db, n)).Some? then Nothing
        else if target == ServerTarget(network) then ServerEffect(db, network)
        else ExistingEffect(lower, db, n, if Reserved(target) then Some(Server) else None, MintsClosed(target, ignored), now)
  }

  lemma ApplyIsEffect(lower: string -> string, db: Tables, op: Op)
    ensures Apply(lower, db, op) == Perform(db, EffectOf(lower, db, op))
  {
    hide Find, Address, Update, Insert, Delete, NewRow, KindOr, ServerRow, SystemRow, MintsClosed, Reserved;
  }

  // ----- folds of the permanent names -----

  lemma {:induction false} DigitsArePlain(n: nat)
    ensures forall c <- Digits(n) :: PlainChar(c)
  {
    if n >= 10 {
      DigitsArePlain(n / 10);
    }
  }

  lemma ServerTargetPlain(n: nat)
    ensures forall c <- ServerTarget(n) :: PlainChar(c)
  {
    DigitsArePlain(n);
    var prefix := ":server:";
    assert forall i | 0 <= i < |prefix| :: PlainChar(prefix[i]);
  }

  lemma PlainFolds(lower: string -> string, m: Option<Mapping>, t: string)
    requires PlainFixed(lower) && forall c <- t :: PlainChar(c)
    ensures Fold(lower, m, t) == t
  {
    if !Legacy(m) {
      forall i | 0 <= i < |t| ensures FoldChar(m.value, t[i]) == t[i] {
        assert t[i] in t;
        assert 'Z' as int == 90 && ']' as int == 93 && '^' as int == 94 && ':' as int == 58 && 'a' as int == 97;
      }
    }
  }

  lemma PermanentRowsFold(lower: string -> string, db: Tables, network: nat, user: nat)
    requires PlainFixed(lower) && network in db.networks
    ensures ServerTarget(network) == FoldFor(lower, db.networks, Some(network), ServerTarget(network))
    ensures SYSTEM_TARGET == FoldFor(lower, db.networks, None, SYSTEM_TARGET)
  {
    ServerTargetPlain(network);
    PlainFolds(lower, MappingOf(db.networks, network), ServerTarget(network));
    SystemFolds(lower);
  }

  lemma SystemFolds(lower: string -> string)
    requires PlainFixed(lower)
    ensures lower(SYSTEM_TARGET) == SYSTEM_TARGET
  {
    assert forall i | 0 <= i < |SYSTEM_TARGET| :: PlainChar(SYSTEM_TARGET[i]);
  }

  lemma EffectFits(lower: string -> string, db: Tables, op: Op)
    requires PlainFixed(lower)
    ensures Fit(lower, db, EffectOf(lower, db, op))
  {
    SystemFolds(lower);
    forall network | network in db.networks
      ensures ServerTarget(network) == FoldFor(lower, db.networks, Some(network), ServerTarget(network))
    {
      PermanentRowsFold(lower, db, network, 0);
    }
    hide Fold, ServerTarget, Find, Reserved, SYSTEM_TARGET, PlainFixed, MintsClosed, KindOr;
  }

  // ----- one step -----

  lemma PerformKeepsInv(lower: string -> string, db: Tables, e: Effect)
    requires Inv(lower, db) && Fit(lower, db, e)
    ensures Inv(lower, Perform(db, e))
  {
    hide Fold, FoldFor;
    match e
    case Nothing =>
    case Added(r) =>
      forall a <- db.rows ensures SlotOf(db.rows[a]) != SlotOf(r) {
        assert !Holds(db, SlotOf(r), a);
      }
    case Edited(s, change) => EditKeepsSlots(db, s, change);
    case Deleted(s) =>
  }

  lemma EditKeepsSlots(db: Tables, s: Slot, change: Change)
    ensures Update(db, s, change).rows.Keys == db.rows.Keys
    ensures forall id <- db.rows :: SameIdentity(Update(db, s, change).rows[id], db.rows[id])
    ensures forall id <- db.rows :: SlotOf(Update(db, s, change).rows[id]) == SlotOf(db.rows[id])
  {
    forall id <- db.rows ensures SameIdentity(Update(db, s, change).rows[id], db.rows[id]) {
      assert SameIdentity(Changed(change, db.rows[id]), db.rows[id]);
    }
  }

  /** Every operation keeps: slots unique, each stored fold the fold of its target under its network's
      mapping, ids below the counter, networks known. */
  lemma StepKeepsInv(lower: string -> string, db: Tables, op: Op)
    requires PlainFixed(lower) && Inv(lower, db)
    ensures Inv(lower, Apply(lower, db, op))
  {
    hide Inv, Fit, EffectOf, Perform, Apply, PlainFixed;
    ApplyIsEffect(lower, db, op);
    EffectFits(lower, db, op);
    PerformKeepsInv(lower, db, EffectOf(lower, db, op));
  }

  /** A row keeps its user, network, casing, fold and kind as long as it is there; new rows get ids never
      used before. */
  ghost predicate Extends(db: Tables, next: Tables) {
    && next.networks == db.networks && next.nextId >= db.nextId
    && (forall id <- next.rows :: if id in db.rows then SameIdentity(next.rows[id], db.rows[id]) else db.nextId <= id)
  }

  lemma StepExtends(lower: string -> string, db: Tables, op: Op)
    requires PlainFixed(lower) && Inv(lower, db)
    ensures Extends(db, Apply(lower, db, op))
  {
    ApplyIsEffect(lower, db, op);
    EffectFits(lower, db, op);
    var e := EffectOf(lower, db, op);
    hide EffectOf, Apply, Find, FoldFor, PlainFixed;
    if e.Edited? {
      EditKeepsSlots(db, e.slot, e.change);
    }
  }

  // ----- permanent rows, and who opens a closed one -----

  /** The one way to close a permanent row: an archive row in the closed state landing on it, or carrying
      such a kind itself. */
  ghost predicate ClosesPermanent(lower: string -> string, db: Tables, op: Op) {
    && op.ImportRow? && !op.open
    && match Find(db, Address(lower, db, op.name))
       case Some(id) => id in db.rows && Permanent(db.rows[id].kind) && (db.rows[id].open || op.closedAt.Some?)
       case None => Permanent(KindOr(op.kind, op.name.target)) && KnownNetwork(db, op.name.network)
  }

  ghost predicate PermanentOpen(db: Tables) {
    forall id <- db.rows | Permanent(db.rows[id].kind) :: db.rows[id].open
  }

  /** Server and system rows stay open exactly when no closed archive row is imported over one. */
  lemma PermanentStayOpen(lower: string -> string, db: Tables, op: Op)
    requires PlainFixed(lower) && Inv(lower, db) && PermanentOpen(db)
    ensures PermanentOpen(Apply(lower, db, op)) <==> !ClosesPermanent(lower, db, op)
  {
    ApplyIsEffect(lower, db, op);
    PermanentAfter(lower, db, EffectOf(lower, db, op));
    EffectClosesWhen(lower, db, op);
    hide *;
  }

  /** It happens: a restore whose closed_buffers names the network's server row. */
  lemma ImportClosesServerRow(lower: string -> string, owner: nat, at: int)
    requires PlainFixed(lower)
    ensures var db := Apply(lower, Tables(map[], 1, map[1 := Network(owner, None)]), EnsureServer(1));
            var op := ImportRow(Name(owner, Some(1), ":server:1"), None, false, false, None, Some(at));
            && Inv(lower, db) && PermanentOpen(db)
            && ClosesPermanent(lower, db, op) && !PermanentOpen(Apply(lower, db, op))
  {
    var start := Tables(map[], 1, map[1 := Network(owner, None)]);
    var db := Apply(lower, start, EnsureServer(1));
    var op := ImportRow(Name(owner, Some(1), ":server:1"), None, false, false, None, Some(at));
    StepKeepsInv(lower, start, EnsureServer(1));
    PermanentRowsFold(lower, db, 1, owner);
    assert Digits(1) == "1" && ServerTarget(1) == ":server:1";
    hide FoldFor, PlainFixed, Inv;
    assert db == Insert(start, ServerRow(owner, 1));
    assert Holds(db, Address(lower, db, op.name), 1);
    assert ClosesPermanent(lower, db, op);
    PermanentStayOpen(lower, db, op);
  }

  lemma EffectClosesWhen(lower: string -> string, db: Tables, op: Op)
    requires UniqueSlots(db) && PermanentOpen(db)
    ensures EffectCloses(db, EffectOf(lower, db, op)) <==> ClosesPermanent(lower, db, op)
  {
    hide FoldFor, Address, Reserved, ServerTarget, KindFor;
    if op.ImportRow? {
      var s := Address(lower, db, op.name);
      if Find(db, s).Some? {
        var id := Find(db, s).value;
        assert Holds(db, s, id);
        assert forall i | Holds(db, s, i) :: i == id;
      }
    } else {
      assert forall id <- db.rows, c: Change | Permanent(db.rows[id].kind) && !c.Imported? && !c.Stamp? :: Changed(c, db.rows[id]).open;
    }
  }

  ghost predicate EffectCloses(db: Tables, e: Effect) {
    match e
    case Added(r) => Permanent(r.kind) && !r.open
    case Edited(s, c) => exists id :: Holds(db, s, id) && Permanent(db.rows[id].kind) && !Changed(c, db.rows[id]).open
    case _ => false
  }

  lemma PermanentAfter(lower: string -> string, db: Tables, e: Effect)
    requires Inv(lower, db) && PermanentOpen(db)
    ensures PermanentOpen(Perform(db, e)) <==> !EffectCloses(db, e)
  {
    hide FoldFor, UniqueSlots, Changed;
    match e
    case Added(r) => assert db.nextId in Perform(db, e).rows;
    case Edited(s, c) => PermanentAfterEdit(db, s, c);
    case _ =>
  }

  lemma PermanentAfterEdit(db: Tables, s: Slot, c: Change)
    requires PermanentOpen(db)
    ensures PermanentOpen(Update(db, s, c)) <==> !EffectCloses(db, Edited(s, c))
  {
    EditKeepsSlots(db, s, c);
    hide Changed, SlotOf;
    var after := Update(db, s, c);
    if EffectCloses(db, Edited(s, c)) {
      var id :| Holds(db, s, id) && Permanent(db.rows[id].kind) && !Changed(c, db.rows[id]).open;
      assert id in after.rows && Permanent(after.rows[id].kind) && !after.rows[id].open;
    } else {
      forall id <- after.rows | Permanent(after.rows[id].kind) ensures after.rows[id].open {
        assert Holds(db, s, id) <==> SlotOf(db.rows[id]) == s;
      }
    }
  }

  /** No operation removes a permanent row. */
  lemma PermanentStayPresent(lower: string -> string, db: Tables, op: Op, id: nat)
    requires id in db.rows && id !in Apply(lower, db, op).rows
    ensures op.DeleteBuffer? && !Permanent(db.rows[id].kind) && SlotOf(db.rows[id]) == Address(lower, db, op.name)
  {
    ApplyIsEffect(lower, db, op);
    hide Apply, FoldFor, Find, Reserved, ServerTarget;
  }

  /** A closed row opens only by being asked for: ensureOpen or reopen under a name with its fold. */
  lemma OnlyAskedForOpens(lower: string -> string, db: Tables, op: Op, id: nat)
    requires PlainFixed(lower) && Inv(lower, db)
    requires id in db.rows && !db.rows[id].open
    requires id in Apply(lower, db, op).rows && Apply(lower, db, op).rows[id].open
    ensures (op.EnsureOpen? || op.Reopen?) && SlotOf(db.rows[id]) == Address(lower, db, op.name)
  {
    ApplyIsEffect(lower, db, op);
    hide Apply, FoldFor, Find, Reserved, ServerTarget, PlainFixed;
  }

  // ----- whole runs -----

  ghost function Run(lower: string -> string, db: Tables, ops: seq<Op>): Tables
    decreases |ops|
  {
    if ops == [] then db else Run(lower, Apply(lower, db, ops[0]), ops[1..])
  }

  lemma {:induction false} RunKeepsInv(lower: string -> string, db: Tables, ops: seq<Op>)
    requires PlainFixed(lower) && Inv(lower, db)
    ensures Inv(lower, Run(lower, db, ops)) && Extends(db, Run(lower, db, ops))
    decreases |ops|
  {
    if ops != [] {
      var mid := Apply(lower, db, ops[0]);
      StepKeepsInv(lower, db, ops[0]);
      StepExtends(lower, db, ops[0]);
      RunKeepsInv(lower, mid, ops[1..]);
      hide Apply, FoldFor, PlainFixed, UniqueSlots;
      forall id <- Run(lower, mid, ops[1..]).rows
        ensures id in db.rows ==> SameIdentity(Run(lower, mid, ops[1..]).rows[id], db.rows[id])
        ensures id !in db.rows ==> db.nextId <= id
      {
        assert id in mid.rows || mid.nextId <= id;
      }
    }
  }

  /** A name resolves to an id for as long as that row lives, through any run, and the names that do are
      exactly those of the same user and network with an equal fold. */
  lemma EqualFoldsOneId(lower: string -> string, db: Tables, ops: seq<Op>, a: Name, b: Name, id: nat)
    requires PlainFixed(lower) && Inv(lower, db)
    requires Find(db, Address(lower, db, a)) == Some(id)
    requires id in Run(lower, db, ops).rows
    ensures var after := Run(lower, db, ops);
            Find(after, Address(lower, after, b)) == Some(id) <==> Address(lower, db, b) == Address(lower, db, a)
  {
    RunKeepsInv(lower, db, ops);
    var after := Run(lower, db, ops);
    hide Run, FoldFor;
    assert Address(lower, after, b) == Address(lower, db, b);
    assert Holds(after, Address(lower, db, a), id);
  }

  /** An id that is free below the counter stays free: a deleted buffer's id never names another. */
  lemma DeletedIdsStayFree(lower: string -> string, db: Tables, ops: seq<Op>, id: nat)
    requires PlainFixed(lower) && Inv(lower, db) && id < db.nextId && id !in db.rows
    ensures id !in Run(lower, db, ops).rows
  {
    RunKeepsInv(lower, db, ops);
  }

  ghost predicate NoPermanentClosed(lower: string -> string, db: Tables, ops: seq<Op>)
    decreases |ops|
  {
    ops != [] ==> !ClosesPermanent(lower, db, ops[0]) && NoPermanentClosed(lower, Apply(lower, db, ops[0]), ops[1..])
  }

  /** Server and system rows are there and open after every run that imports no closed row over one. */
  lemma {:induction false} PermanentThroughRuns(lower: string -> string, db: Tables, ops: seq<Op>, id: nat)
    requires PlainFixed(lower) && Inv(lower, db) && PermanentOpen(db) && NoPermanentClosed(lower, db, ops)
    requires id in db.rows && Permanent(db.rows[id].kind)
    ensures var after := Run(lower, db, ops);
            PermanentOpen(after) && id in after.rows && after.rows[id].open
    decreases |ops|
  {
    if ops != [] {
      var mid := Apply(lower, db, ops[0]);
      StepKeepsInv(lower, db, ops[0]);
      StepExtends(lower, db, ops[0]);
      PermanentStayOpen(lower, db, ops[0]);
      if id !in mid.rows {
        PermanentStayPresent(lower, db, ops[0], id);
      }
      hide Apply, Inv;
      PermanentThroughRuns(lower, mid, ops[1..], id);
    }
  }

  predicate Asks(op: Op) { op.EnsureOpen? || op.Reopen? }

  /** A closed row found open after a run was opened by an ensureOpen or reopen for its own slot. */
  lemma {:induction false} ClosedUntilAsked(lower: string -> string, db: Tables, ops: seq<Op>, id: nat)
    returns (k: nat)
    requires PlainFixed(lower) && Inv(lower, db) && id in db.rows && !db.rows[id].open
    requires id in Run(lower, db, ops).rows && Run(lower, db, ops).rows[id].open
    ensures k < |ops| && Asks(ops[k]) && Address(lower, db, ops[k].name) == SlotOf(db.rows[id])
    decreases |ops|
  {
    var mid := Apply(lower, db, ops[0]);
    StepKeepsInv(lower, db, ops[0]);
    StepExtends(lower, db, ops[0]);
    assert id < db.nextId && Run(lower, db, ops) == Run(lower, mid, ops[1..]);
    hide Apply, Run, Inv, PlainFixed, FoldFor;
    if id !in mid.rows {
      DeletedIdsStayFree(lower, mid, ops[1..], id);
    }
    if mid.rows[id].open {
      OnlyAskedForOpens(lower, db, ops[0], id);
      k := 0;
    } else {
      var rest := ClosedUntilAsked(lower, mid, ops[1..], id);
      assert Address(lower, mid, ops[1..][rest].name) == Address(lower, db, ops[1..][rest].name);
      k := rest + 1;
    }
  }

  // ----- single operations -----

  /** ensureOpen leaves the named buffer existing and open, and later spellings find it. */
  lemma EnsureOpenOpens(lower: string -> string, db: Tables, op: Op)
    requires PlainFixed(lower) && Inv(lower, db) && op.EnsureOpen? && !Reserved(op.name.target)
    requires KnownNetwork(db, op.name.network)
    ensures var after := Apply(lower, db, op);
            var id := Find(after, Address(lower, db, op.name));
            id.Some? && after.rows[id.value].open
            && (Find(db, Address(lower, db, op.name)).Some? ==> id == Find(db, Address(lower, db, op.name)))
  {
    var s := Address(lower, db, op.name);
    StepKeepsInv(lower, db, op);
    var after := Apply(lower, db, op);
    var id := if Find(db, s).Some? then Find(db, s).value else db.nextId;
    assert Holds(after, s, id);
    hide Apply;
  }

  /** The slot a mint fills. */
  ghost function MintSlot(lower: string -> string, db: Tables, network: nat, target: string): Slot
    requires network in db.networks
  {
    var n := OwnName(db, network, target);
    if target == ServerTarget(network) then SlotOf(ServerRow(n.user, network))
    else if Reserved(target) then PermanentSlot(db, n)
    else Address(lower, db, n)
  }

  /** The id resolveOrMintForInsert returns: the row found, or the one in the slot it fills. */
  ghost function MintedId(lower: string -> string, db: Tables, network: nat, target: string, ignored: bool, now: int): Option<nat> {
    if network !in db.networks then None
    else
      var found := Find(db, Address(lower, db, OwnName(db, network, target)));
      if found.Some? then found else Find(Minted(lower, db, network, target, ignored, now), MintSlot(lower, db, network, target))
  }

  /** A permanent row is there after its mint, and no other free slot is taken. */
  lemma PermanentMint(db: Tables, r: Row, s: Slot)
    requires UniqueSlots(InsertOrIgnore(db, r)) && db.nextId !in db.rows
    ensures var after := InsertOrIgnore(db, r);
            && Find(after, SlotOf(r)).Some?
            && (Find(db, s).None? && Find(after, s).Some? ==> Find(after, s) == Find(after, SlotOf(r)))
  {
    if Find(db, SlotOf(r)).None? {
      var after := InsertOrIgnore(db, r);
      assert Holds(after, SlotOf(r), db.nextId);
      if Find(db, s).None? && Find(after, s).Some? {
        var id := Find(after, s).value;
        assert !Holds(db, s, id);
      }
    }
  }

  /** The second insert for a target finds the buffer the first one got, and mints nothing. */
  lemma MintOnce(lower: string -> string, db: Tables, network: nat, target: string, ignored: bool, now: int, again: bool, later: int)
    requires PlainFixed(lower) && Inv(lower, db) && network in db.networks
    ensures var after := Minted(lower, db, network, target, ignored, now);
            var id := MintedId(lower, db, network, target, ignored, now);
            && id.Some?
            && Minted(lower, after, network, target, again, later) == after
            && MintedId(lower, after, network, target, again, later) == id
  {
    var n := OwnName(db, network, target);
    var after := Minted(lower, db, network, target, ignored, now);
    MintKeepsTables(lower, db, network, target, ignored, now);
    hide Minted, Address, MintSlot, Inv, PlainFixed;
    if Find(db, Address(lower, db, n)).None? {
      MintIsOneInsert(lower, db, network, target, ignored, now);
      var r :| after == InsertOrIgnore(db, r) && SlotOf(r) == MintSlot(lower, db, network, target);
      PermanentMint(db, r, Address(lower, db, n));
      hide InsertOrIgnore;
      FoundStays(lower, after, network, target, again, later);
    } else {
      FoundChangesNothing(lower, db, network, target, ignored, now);
      FoundChangesNothing(lower, db, network, target, again, later);
    }
  }

  lemma FoundChangesNothing(lower: string -> string, db: Tables, network: nat, target: string, ignored: bool, now: int)
    requires network in db.networks && Find(db, Address(lower, db, OwnName(db, network, target))).Some?
    ensures Minted(lower, db, network, target, ignored, now) == db
  {
    hide Find, Address;
  }

  /** A mint leaves sound tables, where the same names have the same slots. */
  lemma MintKeepsTables(lower: string -> string, db: Tables, network: nat, target: string, ignored: bool, now: int)
    requires PlainFixed(lower) && Inv(lower, db) && network in db.networks
    ensures var after := Minted(lower, db, network, target, ignored, now); var n := OwnName(db, network, target);
            && UniqueSlots(after) && db.nextId !in db.rows && after.networks == db.networks
            && Address(lower, after, n) == Address(lower, db, n) && OwnName(after, network, target) == n
            && MintSlot(lower, after, network, target) == MintSlot(lower, db, network, target)
  {
    var op := ResolveOrMint(network, target, ignored, now);
    assert Minted(lower, db, network, target, ignored, now) == Apply(lower, db, op);
    StepKeepsInv(lower, db, op);
    StepExtends(lower, db, op);
    hide Minted, Apply, PlainFixed, FoldFor, ServerTarget;
  }

  lemma MintIsOneInsert(lower: string -> string, db: Tables, network: nat, target: string, ignored: bool, now: int)
    requires network in db.networks && Find(db, Address(lower, db, OwnName(db, network, target))).None?
    ensures exists r :: && Minted(lower, db, network, target, ignored, now) == InsertOrIgnore(db, r)
                        && SlotOf(r) == MintSlot(lower, db, network, target)
  {
    var n := OwnName(db, network, target);
    var minted := NewRow(lower, db, n, KindFor(target), true, false, None, None);
    var r := if target != ServerTarget(network) && !Reserved(target)
             then (if MintsClosed(target, ignored) then ClosedNow(minted, now) else minted)
             else if target != ServerTarget(network) && target == SYSTEM_TARGET then SystemRow(n.user)
             else ServerRow(n.user, network);
    hide FoldFor, ServerTarget, MintsClosed, KindFor, Find, SYSTEM_TARGET, Reserved;
    assert Minted(lower, db, network, target, ignored, now) == InsertOrIgnore(db, r);
  }

  /** Minting again where the slot is filled changes nothing. */
  lemma FoundStays(lower: string -> string, db: Tables, network: nat, target: string, ignored: bool, now: int)
    requires network in db.networks && Find(db, MintSlot(lower, db, network, target)).Some?
    ensures Minted(lower, db, network, target, ignored, now) == db
  {
    hide FoldFor, ServerTarget, MintsClosed, KindFor, Find, SYSTEM_TARGET, Reserved;
  }

  /** A ':'-target that names nothing on the network is not minted: the id returned is the network's own
      server row, and no row with the asked-for name appears. */
  lemma StrayColonGetsServerRow(lower: string -> string, db: Tables, network: nat, target: string, ignored: bool, now: int)
    requires network in db.networks
    requires Reserved(target) && target != SYSTEM_TARGET && target != ServerTarget(network)
    requires Find(db, Address(lower, db, OwnName(db, network, target))).None?
    ensures var after := Minted(lower, db, network, target, ignored, now);
            && MintedId(lower, db, network, target, ignored, now) == Find(after, SlotOf(ServerRow(db.networks[network].owner, network)))
            && (forall id <- after.rows | after.rows[id].target == target :: id in db.rows)
  {
    hide Find, Address, FoldFor, SYSTEM_TARGET, ServerTarget, MintsClosed;
  }

  /** Importing an archive row a second time changes nothing. */
  lemma ImportTwice(lower: string -> string, db: Tables, op: Op)
    requires PlainFixed(lower) && Inv(lower, db) && op.ImportRow?
    ensures Apply(lower, Apply(lower, db, op), op) == Apply(lower, db, op)
  {
    var s := Address(lower, db, op.name);
    var after := Apply(lower, db, op);
    var c := Imported(op.open, op.autojoin, op.value, op.closedAt);
    StepExtends(lower, db, op);
    assert Address(lower, after, op.name) == s;
    hide FoldFor, PlainFixed, Inv, Extends, Address, NewRow;
    if Find(db, s).Some? {
      assert Holds(after, s, Find(db, s).value);
      UpdateTwice(db, s, c);
    } else if KnownNetwork(db, op.name.network) {
      assert Holds(after, s, db.nextId);
      ImportedAsIs(lower, db, op);
    }
  }

  lemma UpdateTwice(db: Tables, s: Slot, c: Change)
    requires c.Imported?
    ensures Update(Update(db, s, c), s, c) == Update(db, s, c)
  {
    EditKeepsSlots(db, s, c);
    forall r: Row ensures Changed(c, Changed(c, r)) == Changed(c, r) {
    }
    hide Changed, SlotOf;
    assert Update(Update(db, s, c), s, c).rows == Update(db, s, c).rows;
  }

  /** A row just imported is what importing it makes of it. */
  lemma ImportedAsIs(lower: string -> string, db: Tables, op: Op)
    requires op.ImportRow? && Find(db, Address(lower, db, op.name)).None? && KnownNetwork(db, op.name.network)
    ensures var after := Apply(lower, db, op);
            Update(after, Address(lower, db, op.name), Imported(op.open, op.autojoin, op.value, op.closedAt)) == after
  {
    var s := Address(lower, db, op.name);
    var after := Apply(lower, db, op);
    forall id <- db.rows ensures SlotOf(db.rows[id]) != s || id == db.nextId {
      assert !Holds(db, s, id);
    }
    hide FoldFor, Find;
    assert Update(after, s, Imported(op.open, op.autojoin, op.value, op.closedAt)).rows == after.rows;
  }
}
