/** The case-fold repair of forked buffers (server/db/foldBufferCase.ts): every target-keyed table is
    rewritten onto one canonical spelling per network and folded name. */
module FoldRepair {
  import opened Options
  import opened CaseFold

  datatype Scope = Channels | All

  /** Which targets are considered; the ':'-virtual buffers never are. */
  predicate InScope(scope: Scope, target: string) {
    if scope == All then !(target != "" && target[0] == ':') else target != "" && target[0] == '#'
  }

  /** An id-keyed row: messages and input history. */
  datatype Message = Message(network: nat, target: string)

  /** The key of a per-target row. The channels table has no user and uses 0; only read pointers can
      have no network. */
  datatype Key = Key(user: nat, network: Option<nat>, target: string)

  datatype Channel = Channel(joined: bool, created: int, key: Option<string>)

  datatype Read = Read(lastRead: nat, updated: int, clearedBefore: Option<nat>, clearedAt: Option<int>)

  datatype Tables<D> = Tables(
    messages: seq<Message>, history: seq<Message>, channels: map<Key, Channel>, readMarks: map<Key, Read>,
    closed: map<Key, bool>, pins: map<Key, int>, drafts: map<Key, D>)

  // ----- the canonical spelling -----

  type Group = (nat, string)

  function GroupOf(m: Message): Group {
    (m.network, Lower(m.target))
  }

  function Count(messages: seq<Message>, m: Message): nat {
    multiset(messages)[m]
  }

  /** More messages first; ties by binary order. */
  predicate Beats(messages: seq<Message>, a: Message, b: Message) {
    || Count(messages, a) > Count(messages, b)
    || (Count(messages, a) == Count(messages, b) && TextBefore(a.target, b.target))
  }

  /** The winner of a group among the first n messages. */
  function Best(messages: seq<Message>, scope: Scope, g: Group, n: nat): Option<Message>
    requires n <= |messages|
  {
    if n == 0 then None
    else
      var before, m := Best(messages, scope, g, n - 1), messages[n - 1];
      if !InScope(scope, m.target) || GroupOf(m) != g then before
      else if before.None? || Beats(messages, m, before.value) then Some(m)
      else before
  }

  type Canon = map<Group, string>

  /** The temporary table: one canonical target per group that has messages. */
  function CanonTable(messages: seq<Message>, scope: Scope): Canon {
    map g | g in (set m | m in messages :: GroupOf(m)) && Best(messages, scope, g, |messages|).Some?
      :: Best(messages, scope, g, |messages|).value.target
  }

  function Folded(canon: Canon, scope: Scope, network: Option<nat>, target: string): string {
    if network.None? || !InScope(scope, target) || (network.value, Lower(target)) !in canon then target
    else canon[(network.value, Lower(target))]
  }

  /** A row that has a canonical spelling other than its own. */
  predicate OffCase(canon: Canon, scope: Scope, k: Key) {
    Folded(canon, scope, k.network, k.target) != k.target
  }

  function FoldKey(canon: Canon, scope: Scope, k: Key): Key {
    k.(target := Folded(canon, scope, k.network, k.target))
  }

  function FoldMessages(canon: Canon, scope: Scope, rows: seq<Message>): (r: seq<Message>)
    ensures |r| == |rows|
  {
    seq(|rows|, i requires 0 <= i < |rows| => rows[i].(target := Folded(canon, scope, Some(rows[i].network), rows[i].target)))
  }

  // ----- per-target tables -----

  function Upsert<V>(t: map<Key, V>, k: Key, v: V, merge: (V, V) -> V): map<Key, V> {
    t[k := if k in t then merge(t[k], v) else v]
  }

  /** Insert every off-case row of `rows`, in scan order, under its canonical key. */
  function Absorb<V>(t: map<Key, V>, rows: map<Key, V>, order: seq<Key>, canon: Canon, scope: Scope, merge: (V, V) -> V): map<Key, V>
    decreases |order|
  {
    if order == [] then t
    else if order[0] in rows && OffCase(canon, scope, order[0])
      then Absorb(Upsert(t, FoldKey(canon, scope, order[0]), rows[order[0]], merge), rows, order[1..], canon, scope, merge)
    else Absorb(t, rows, order[1..], canon, scope, merge)
  }

  function DropOffCase<V>(t: map<Key, V>, canon: Canon, scope: Scope): map<Key, V> {
    map k | k in t && !OffCase(canon, scope, k) :: t[k]
  }

  function Repair<V>(t: map<Key, V>, order: seq<Key>, canon: Canon, scope: Scope, merge: (V, V) -> V): map<Key, V> {
    DropOffCase(Absorb(t, t, order, canon, scope, merge), canon, scope)
  }

  function Max(a: int, b: int): int { if a < b then b else a }
  function Min(a: int, b: int): int { if a < b then a else b }

  function MergeChannel(mine: Channel, other: Channel): Channel {
    Channel(mine.joined || other.joined, Min(mine.created, other.created), if mine.key.Some? then mine.key else other.key)
  }

  function OrZero(m: Option<nat>): nat { if m.Some? then m.value else 0 }
  function NullIfZero(m: nat): Option<nat> { if m == 0 then None else Some(m) }

  function MergeRead(mine: Read, other: Read): Read {
    Read(Max(mine.lastRead, other.lastRead), Max(mine.updated, other.updated),
         NullIfZero(Max(OrZero(mine.clearedBefore), OrZero(other.clearedBefore))),
         if OrZero(other.clearedBefore) > OrZero(mine.clearedBefore) then other.clearedAt else mine.clearedAt)
  }

  /** UPDATE OR IGNORE: a row that is there already wins. */
  function KeepMine<V>(mine: V, other: V): V { mine }

  // ----- pin positions -----

  predicate SameList(a: Key, b: Key) {
    a.user == b.user && a.network == b.network
  }

  /** Position first, then target. */
  predicate PinBefore(pins: map<Key, int>, a: Key, b: Key) {
    && a in pins && b in pins && SameList(a, b)
    && (pins[a] < pins[b] || (pins[a] == pins[b] && TextBefore(a.target, b.target)))
  }

  function PinsBefore(pins: map<Key, int>, k: Key): set<Key> {
    set a | a in pins && PinBefore(pins, a, k)
  }

  function Renumber(pins: map<Key, int>): map<Key, int> {
    map k | k in pins :: |PinsBefore(pins, k)|
  }

  // ----- the whole repair -----

  /** The order each table's rows are scanned in; a scan meets every row. */
  datatype Orders = Orders(channels: seq<Key>, readMarks: seq<Key>, pins: seq<Key>, drafts: seq<Key>)

  predicate ScanOf<V>(order: seq<Key>, t: map<Key, V>) {
    forall k <- t :: k in order
  }

  function FoldAll<D>(db: Tables<D>, scope: Scope, orders: Orders): Tables<D> {
    var canon := CanonTable(db.messages, scope);
    Tables(
      FoldMessages(canon, scope, db.messages),
      FoldMessages(canon, scope, db.history),
      Repair(db.channels, orders.channels, canon, scope, MergeChannel),
      Repair(db.readMarks, orders.readMarks, canon, scope, MergeRead),
      DropOffCase(db.closed, canon, scope),
      Renumber(Repair(db.pins, orders.pins, canon, scope, KeepMine)),
      Repair(db.drafts, orders.drafts, canon, scope, KeepMine))
  }

  class Database<D> {
    var db: Tables<D>

    constructor (tables: Tables<D>)
      ensures db == tables
    {
      db := tables;
    }

    /** One upsert per off-case row, in scan order. */
    static method UpsertRows<V>(t: map<Key, V>, order: seq<Key>, canon: Canon, scope: Scope, merge: (V, V) -> V)
      returns (t': map<Key, V>)
      ensures t' == Absorb(t, t, order, canon, scope, merge)
    {
      t' := t;
      assert order[0..] == order;
      for i := 0 to |order|
        invariant Absorb(t', t, order[i..], canon, scope, merge) == Absorb(t, t, order, canon, scope, merge)
      {
        assert order[i..][0] == order[i] && order[i..][1..] == order[i + 1..];
        if order[i] in t && OffCase(canon, scope, order[i]) {
          var to := FoldKey(canon, scope, order[i]);
          t' := t'[to := if to in t' then merge(t'[to], t[order[i]]) else t[order[i]]];
        }
      }
      assert order[|order|..] == [];
    }

    /** The repair, statement by statement, in one transaction; a dry run changes nothing. */
    method FoldBufferCase(scope: Scope, dryRun: bool, orders: Orders)
      modifies this
      ensures db == if dryRun then old(db) else FoldAll(old(db), scope, orders)
    {
      if dryRun { return; }
      var canon := CanonTable(db.messages, scope);
      db := db.(messages := FoldMessages(canon, scope, db.messages));
      db := db.(history := FoldMessages(canon, scope, db.history));
      var channels := UpsertRows(db.channels, orders.channels, canon, scope, MergeChannel);
      db := db.(channels := DropOffCase(channels, canon, scope));
      var readMarks := UpsertRows(db.readMarks, orders.readMarks, canon, scope, MergeRead);
      db := db.(readMarks := DropOffCase(readMarks, canon, scope));
      db := db.(closed := DropOffCase(db.closed, canon, scope));
      var pins := UpsertRows(db.pins, orders.pins, canon, scope, KeepMine);
      db := db.(pins := DropOffCase(pins, canon, scope));
      var drafts := UpsertRows(db.drafts, orders.drafts, canon, scope, KeepMine);
      db := db.(drafts := DropOffCase(drafts, canon, scope));
      db := db.(pins := Renumber(db.pins));
    }
  }
}
