/** The buffer registry (server/db/buffers.ts, server/db/bufferResolve.ts): one row per user, network and
    folded name, and every reducer operation on it as a function of the tables. */
module Buffers {
  import opened Options
  import opened Casemapping

  datatype Kind = Channel | Dm | DccChat | Server | System

  /** Server and system rows are the permanent consoles. */
  predicate Permanent(k: Kind) { k.Server? || k.System? }

  predicate IsChannelTarget(t: string) { t != "" && t[0] in "#&+!" }

  function KindFor(t: string): Kind {
    if IsChannelTarget(t) then Channel else if t != "" && t[0] == '=' then DccChat else Dm
  }

  datatype Row = Row(
    user: nat, network: Option<nat>, target: string, folded: string, kind: Kind,
    open: bool, autojoin: bool, key: Option<string>, closedAt: Option<int>)

  datatype Network = Network(owner: nat, mapping: Option<Mapping>)

  /** `nextId` is the AUTOINCREMENT counter: ids are never handed out twice. */
  datatype Tables = Tables(rows: map<nat, Row>, nextId: nat, networks: map<nat, Network>)

  /** How a caller names a buffer. */
  datatype Name = Name(user: nat, network: Option<nat>, target: string)

  /** The unique key: (user_id, IFNULL(network_id, 0), target_folded). */
  datatype Slot = Slot(user: nat, scope: nat, folded: string)

  function OrZero(n: Option<nat>): nat { if n.Some? then n.value else 0 }

  function SlotOf(r: Row): Slot { Slot(r.user, OrZero(r.network), r.folded) }

  function MappingOf(networks: map<nat, Network>, id: nat): Option<Mapping> {
    if id in networks then networks[id].mapping else None
  }

  function FoldFor(lower: string -> string, networks: map<nat, Network>, network: Option<nat>, target: string): string {
    if network.None? then lower(target) else Fold(lower, MappingOf(networks, network.value), target)
  }

  function Address(lower: string -> string, db: Tables, n: Name): Slot {
    Slot(n.user, OrZero(n.network), FoldFor(lower, db.networks, n.network, n.target))
  }

  // ----- what statements do to a row -----

  /** undefined leaves the key alone; null and text write it. */
  datatype Patch = Leave | Put(value: Option<string>)

  function Patched(p: Patch, was: Option<string>): Option<string> { if p.Put? then p.value else was }

  datatype Change =
    | Flip
    | Shut(now: int)
    | Stamp(at: Option<int>)
    | Flag(autojoin: bool)
    | Rekey(key: Option<string>)
    | Ensured(join: Option<bool>, patch: Patch)
    | Seeded(patch: Patch)
    | Imported(open: bool, autojoin: bool, key: Option<string>, closedAt: Option<int>)

  function Flipped(r: Row): Row { if r.open then r else r.(open := true, closedAt := None) }

  function ClosedNow(r: Row, now: int): Row {
    if r.open && !Permanent(r.kind) then r.(open := false, closedAt := Some(now)) else r
  }

  /** An archive row landing on a stored one: closed wins and carries its time, onto a closed row too when
      it has one. */
  function Merged(r: Row, open: bool, autojoin: bool, key: Option<string>, closedAt: Option<int>): Row {
    var r := r.(autojoin := r.autojoin || autojoin, key := if r.key.None? then key else r.key);
    if !open && (r.open || closedAt.Some?) then r.(open := false, closedAt := closedAt) else r
  }

  function Changed(c: Change, r: Row): Row {
    match c
    case Flip => Flipped(r)
    case Shut(now) => ClosedNow(r, now)
    case Stamp(at) => r.(open := false, closedAt := at)
    case Flag(autojoin) => r.(autojoin := autojoin)
    case Rekey(key) => r.(key := key)
    case Ensured(join, patch) =>
      Flipped(r).(autojoin := if join.Some? then join.value else r.autojoin, key := Patched(patch, r.key))
    case Seeded(patch) => r.(autojoin := true, key := Patched(patch, r.key))
    case Imported(open, autojoin, key, closedAt) => Merged(r, open, autojoin, key, closedAt)
  }

  // ----- statements -----

  ghost predicate Holds(db: Tables, s: Slot, id: nat) {
    id in db.rows && SlotOf(db.rows[id]) == s
  }

  ghost function Find(db: Tables, s: Slot): (id: Option<nat>)
    ensures id.Some? ==> Holds(db, s, id.value)
    ensures id.None? ==> forall i :: !Holds(db, s, i)
  {
    if i: nat :| Holds(db, s, i) then Some(i) else None
  }

  function Update(db: Tables, s: Slot, c: Change): Tables {
    db.(rows := map id | id in db.rows :: if SlotOf(db.rows[id]) == s then Changed(c, db.rows[id]) else db.rows[id])
  }

  function Insert(db: Tables, r: Row): Tables {
    db.(rows := db.rows[db.nextId := r], nextId := db.nextId + 1)
  }

  function Delete(db: Tables, s: Slot): Tables {
    db.(rows := map id | id in db.rows && !(SlotOf(db.rows[id]) == s && !Permanent(db.rows[id].kind)) :: db.rows[id])
  }

  /** The foreign key of an inserted row. */
  predicate KnownNetwork(db: Tables, network: Option<nat>) {
    network.Some? ==> network.value in db.networks
  }

  // ----- the permanent rows -----

  function Digits(n: nat): string {
    if n < 10 then [('0' as int + n) as char] else Digits(n / 10) + [('0' as int + n % 10) as char]
  }

  const SYSTEM_TARGET := ":system:"

  function ServerTarget(network: nat): string { ":server:" + Digits(network) }

  predicate Reserved(t: string) { t != "" && t[0] == ':' }

  ghost function InsertOrIgnore(db: Tables, r: Row): Tables {
    if Find(db, SlotOf(r)).Some? then db else Insert(db, r)
  }

  function ServerRow(owner: nat, network: nat): Row {
    Row(owner, Some(network), ServerTarget(network), ServerTarget(network), Server, true, false, None, None)
  }

  function SystemRow(user: nat): Row {
    Row(user, None, SYSTEM_TARGET, SYSTEM_TARGET, System, true, false, None, None)
  }

  ghost function WithServer(db: Tables, network: nat): Tables {
    if network in db.networks then InsertOrIgnore(db, ServerRow(db.networks[network].owner, network)) else db
  }

  ghost function WithSystem(db: Tables, user: nat): Tables {
    InsertOrIgnore(db, SystemRow(user))
  }

  /** Where a ':'-target leads: the user's system row, or the network's own server row whatever the rest
      of the target says. */
  ghost function WithPermanent(db: Tables, n: Name): Tables {
    if n.target == SYSTEM_TARGET || n.network.None? then WithSystem(db, n.user) else WithServer(db, n.network.value)
  }

  ghost function PermanentSlot(db: Tables, n: Name): Slot {
    if n.target == SYSTEM_TARGET || n.network.None? then SlotOf(SystemRow(n.user))
    else if n.network.value in db.networks then SlotOf(ServerRow(db.networks[n.network.value].owner, n.network.value))
    else Slot(0, n.network.value, "")
  }

  // ----- the reducer -----

  datatype Op =
    | EnsureServer(network: nat)
    | EnsureSystem(user: nat)
    | EnsureOpen(name: Name, kind: Option<Kind>, join: Option<bool>, key: Patch)
    | EnsureExists(name: Name, kind: Option<Kind>, closed: bool, now: int)
    | Reopen(name: Name)
    | Close(name: Name, now: int)
    | SetAutojoin(name: Name, autojoin: bool)
    | SetKey(name: Name, value: Option<string>)
    | SeedAutojoin(name: Name, key: Patch)
    | ImportRow(name: Name, kind: Option<Kind>, open: bool, autojoin: bool, value: Option<string>, closedAt: Option<int>)
    | DeleteBuffer(name: Name)
    | ResolveOrMint(net: nat, target: string, ignored: bool, now: int)

  function NewRow(lower: string -> string, db: Tables, n: Name, kind: Kind, open: bool, autojoin: bool,
                  key: Option<string>, closedAt: Option<int>): Row {
    Row(n.user, n.network, n.target, FoldFor(lower, db.networks, n.network, n.target), kind, open, autojoin, key, closedAt)
  }

  function KindOr(kind: Option<Kind>, target: string): Kind {
    if kind.Some? then kind.value else KindFor(target)
  }

  ghost function Existing(lower: string -> string, db: Tables, n: Name, kind: Option<Kind>, closed: bool, now: int): Tables {
    if Reserved(n.target) then WithPermanent(db, n)
    else if Find(db, Address(lower, db, n)).Some? || !KnownNetwork(db, n.network) then db
    else
      var r := NewRow(lower, db, n, KindOr(kind, n.target), true, false, None, None);
      Insert(db, if closed then ClosedNow(r, now) else r)
  }

  ghost function OwnName(db: Tables, network: nat, target: string): Name
    requires network in db.networks
  {
    Name(db.networks[network].owner, Some(network), target)
  }

  /** Only a line from an ignored sender opens a new direct message closed. */
  predicate MintsClosed(target: string, ignored: bool) {
    ignored && !Reserved(target) && KindFor(target).Dm?
  }

  ghost function Minted(lower: string -> string, db: Tables, network: nat, target: string, ignored: bool, now: int): Tables {
    if network !in db.networks then db
    else
      var n := OwnName(db, network, target);
      if Find(db, Address(lower, db, n)).Some? then db
      else if target == ServerTarget(network) then WithServer(db, network)
      else Existing(lower, db, n, if Reserved(target) then Some(Server) else None, MintsClosed(target, ignored), now)
  }

  ghost function Apply(lower: string -> string, db: Tables, op: Op): Tables {
    match op
    case EnsureServer(network) => WithServer(db, network)
    case EnsureSystem(user) => WithSystem(db, user)
    case EnsureOpen(n, kind, join, key) =>
      var s := Address(lower, db, n);
      if Reserved(n.target) then WithPermanent(db, n)
      else if Find(db, s).Some? then Update(db, s, Ensured(join, key))
      else if !KnownNetwork(db, n.network) then db
      else Insert(db, NewRow(lower, db, n, KindOr(kind, n.target), true, join == Some(true), Patched(key, None), None))
    case EnsureExists(n, kind, closed, now) => Existing(lower, db, n, kind, closed, now)
    case Reopen(n) => Update(db, Address(lower, db, n), Flip)
    case Close(n, now) => Update(db, Address(lower, db, n), Shut(now))
    case SetAutojoin(n, flag) => Update(db, Address(lower, db, n), Flag(flag))
    case SetKey(n, value) => Update(db, Address(lower, db, n), Rekey(value))
    case SeedAutojoin(n, key) =>
      var s := Address(lower, db, n);
      if Find(db, s).Some? then Update(db, s, Seeded(key))
      else if !KnownNetwork(db, n.network) then db
      else Insert(db, NewRow(lower, db, n, Channel, false, true, Patched(key, None), None))
    case ImportRow(n, kind, open, autojoin, value, closedAt) =>
      var s := Address(lower, db, n);
      if Find(db, s).Some? then Update(db, s, Imported(open, autojoin, value, closedAt))
      else if !KnownNetwork(db, n.network) then db
      else Insert(db, NewRow(lower, db, n, KindOr(kind, n.target), open, autojoin, value, if open then None else closedAt))
    case DeleteBuffer(n) => Delete(db, Address(lower, db, n))
    case ResolveOrMint(network, target, ignored, now) => Minted(lower, db, network, target, ignored, now)
  }

  // ----- what holds of the tables -----

  ghost predicate UniqueSlots(db: Tables) {
    forall a <- db.rows, b <- db.rows | SlotOf(db.rows[a]) == SlotOf(db.rows[b]) :: a == b
  }

  ghost predicate Inv(lower: string -> string, db: Tables) {
    && 0 !in db.networks
    && (forall id <- db.rows :: id < db.nextId)
    && (forall id <- db.rows :: KnownNetwork(db, db.rows[id].network))
    && (forall id <- db.rows :: db.rows[id].folded == FoldFor(lower, db.networks, db.rows[id].network, db.rows[id].target))
    && UniqueSlots(db)
  }

  /** Lower-casing leaves ASCII lower-case letters, digits and ':' alone. */
  ghost predicate PlainFixed(lower: string -> string) {
    forall t: string :: (forall c <- t :: PlainChar(c)) ==> lower(t) == t
  }

  predicate PlainChar(c: char) { 'a' <= c <= 'z' || '0' <= c <= '9' || c == ':' }
}
