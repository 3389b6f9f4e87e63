/** The registry in place: rows change statement by statement, and every fold goes through the cache of
    declared mappings. Each method is proved against its operation on the tables. */
module BufferRegistry {
  import opened Options
  import opened Casemapping
  import opened Buffers
  import opened BufferRuns

  class Registry {
    const lower: string -> string
    var rows: map<nat, Row>
    var nextId: nat
    var networks: map<nat, Network>
    var cache: map<nat, Option<Mapping>>

    ghost function Db(): Tables
      reads this
    {
      Tables(rows, nextId, networks)
    }

    /** No cached mapping lies, and the key is unique. */
    ghost predicate Valid()
      reads this
    {
      && (forall n <- cache :: cache[n] == MappingOf(networks, n))
      && UniqueSlots(Db())
      && (forall id <- rows :: id < nextId)
    }

    constructor (lower: string -> string, networks: map<nat, Network>)
      ensures Valid() && Db() == Tables(map[], 0, networks) && this.lower == lower
    {
      this.lower, this.networks := lower, networks;
      rows, nextId, cache := map[], 0, map[];
    }

    method NetworkCasemapping(network: nat) returns (m: Option<Mapping>)
      requires Valid()
      modifies this`cache
      ensures Valid() && m == MappingOf(networks, network)
    {
      if network in cache {
        return cache[network];
      }
      m := if network in networks then networks[network].mapping else None;
      cache := cache[network := m];
    }

    method FoldTargetFor(network: Option<nat>, raw: string) returns (folded: string)
      requires Valid()
      modifies this`cache
      ensures Valid() && folded == FoldFor(lower, networks, network, raw)
    {
      if network.None? {
        return lower(raw);
      }
      var m := NetworkCasemapping(network.value);
      folded := FoldTargetWith(lower, m, raw);
    }

    method SlotFor(n: Name) returns (s: Slot)
      requires Valid()
      modifies this`cache
      ensures Valid() && s == Address(lower, Db(), n)
    {
      var folded := FoldTargetFor(n.network, n.target);
      s := Slot(n.user, OrZero(n.network), folded);
    }

    method Select(s: Slot) returns (id: Option<nat>)
      requires Valid()
      ensures id == Find(Db(), s)
    {
      var found := set i | i in rows && SlotOf(rows[i]) == s;
      if found == {} {
        assert forall i :: Holds(Db(), s, i) ==> i in found;
        return None;
      }
      var i := First(found);
      assert Holds(Db(), s, i);
      return Some(i);
    }

    /** Insert unless the foreign key refuses it. */
    method InsertRow(r: Row) returns (ok: bool)
      requires Valid() && Find(Db(), SlotOf(r)).None?
      modifies this`rows, this`nextId
      ensures Valid() && ok == KnownNetwork(Db(), r.network)
      ensures Db() == if ok then Insert(old(Db()), r) else old(Db())
    {
      if r.network.Some? && r.network.value !in networks {
        return false;
      }
      forall i <- rows ensures SlotOf(rows[i]) != SlotOf(r) {
        assert !Holds(Db(), SlotOf(r), i);
      }
      rows, nextId := rows[nextId := r], nextId + 1;
      return true;
    }

    /** UPDATE ... WHERE the key matches; true when the row of the slot changed. */
    method UpdateRow(s: Slot, c: Change) returns (changed: bool)
      requires Valid()
      modifies this`rows
      ensures Valid() && Db() == Update(old(Db()), s, c)
      ensures forall id :: Holds(Db(), s, id) <==> Holds(old(Db()), s, id)
      ensures changed == (exists id <- old(rows) :: SlotOf(old(rows)[id]) == s && Changed(c, old(rows)[id]) != old(rows)[id])
    {
      EditKeepsSlots(Db(), s, c);
      hide Changed;
      changed := exists id <- rows :: SlotOf(rows[id]) == s && Changed(c, rows[id]) != rows[id];
      rows := Update(Tables(rows, nextId, networks), s, c).rows;
    }

    /** ON CONFLICT DO NOTHING; then the row in the slot is read back. */
    method EnsureRow(r: Row) returns (id: nat)
      requires Valid() && KnownNetwork(Db(), r.network)
      modifies this`rows, this`nextId
      ensures Valid() && Db() == InsertOrIgnore(old(Db()), r) && Find(Db(), SlotOf(r)) == Some(id)
    {
      var found := Select(SlotOf(r));
      if found.None? {
        var ok := InsertRow(r);
        assert Holds(Db(), SlotOf(r), old(nextId));
      }
      var again := Select(SlotOf(r));
      id := again.value;
    }

    /** None for an unknown network. */
    method EnsureServerBuffer(network: nat) returns (id: Option<nat>)
      requires Valid()
      modifies this`rows, this`nextId
      ensures Valid() && Db() == Apply(lower, old(Db()), EnsureServer(network))
      ensures id.Some? <==> network in networks
      ensures id.Some? ==> Find(Db(), SlotOf(ServerRow(networks[network].owner, network))) == id
    {
      if network !in networks {
        return None;
      }
      var made := EnsureRow(ServerRow(networks[network].owner, network));
      id := Some(made);
    }

    method EnsureSystemBuffer(user: nat) returns (id: nat)
      requires Valid()
      modifies this`rows, this`nextId
      ensures Valid() && Db() == Apply(lower, old(Db()), EnsureSystem(user))
      ensures Find(Db(), SlotOf(SystemRow(user))) == Some(id)
    {
      id := EnsureRow(SystemRow(user));
    }

    /** Route a ':'-target to its permanent row; None is the thrown unknown network. */
    method EnsureSentinel(n: Name) returns (id: Option<nat>)
      requires Valid()
      modifies this`rows, this`nextId
      ensures Valid() && Db() == WithPermanent(old(Db()), n)
      ensures id.Some? ==> Find(Db(), PermanentSlot(Db(), n)) == id
      ensures id.None? <==> n.target != SYSTEM_TARGET && n.network.Some? && n.network.value !in networks
    {
      if n.target == SYSTEM_TARGET || n.network.None? {
        var made := EnsureSystemBuffer(n.user);
        return Some(made);
      }
      id := EnsureServerBuffer(n.network.value);
    }

    /** None when the network is unknown and the insert throws. */
    method EnsureOpenBuffer(n: Name, kind: Option<Kind>, join: Option<bool>, key: Patch)
      returns (id: Option<nat>, created: bool, reopened: bool)
      requires Valid()
      modifies this`rows, this`nextId, this`cache
      ensures Valid() && Db() == Apply(lower, old(Db()), EnsureOpen(n, kind, join, key))
      ensures !Reserved(n.target) ==> id == Find(Db(), Address(lower, Db(), n))
      ensures Reserved(n.target) && id.Some? ==> id == Find(Db(), PermanentSlot(Db(), n))
      ensures created <==> !Reserved(n.target) && id.Some? && id.value !in old(rows)
      ensures reopened <==> !Reserved(n.target) && id.Some? && id.value in old(rows) && !old(rows)[id.value].open
    {
      hide FoldFor, KindOr, Reserved, PermanentSlot, WithPermanent, Update, Changed;
      created, reopened := false, false;
      if Reserved(n.target) {
        id := EnsureSentinel(n);
        return;
      }
      var s := SlotFor(n);
      id := Select(s);
      if id.None? {
        created := InsertRow(NewRow(lower, Tables(rows, nextId, networks), n, KindOr(kind, n.target), true,
                                    join.Some? && join.value, Patched(key, None), None));
        if created {
          assert Holds(Db(), s, old(nextId));
        }
        id := Select(s);
        return;
      }
      reopened := !rows[id.value].open;
      OnlyRow(Db(), s, id.value, Ensured(join, key));
      var changed := UpdateRow(s, Ensured(join, key));
      assert Holds(Db(), s, id.value);
    }

    method EnsureExistsBuffer(n: Name, kind: Option<Kind>, closed: bool, now: int) returns (id: Option<nat>, created: bool)
      requires Valid()
      modifies this`rows, this`nextId, this`cache
      ensures Valid() && Db() == Apply(lower, old(Db()), EnsureExists(n, kind, closed, now))
      ensures id == Find(Db(), if Reserved(n.target) then PermanentSlot(Db(), n) else Address(lower, Db(), n)) || id.None?
      ensures id.None? ==> n.network.Some? && n.network.value !in networks
      ensures created <==> !Reserved(n.target) && id.Some? && id.value !in old(rows)
    {
      hide FoldFor, KindOr, Reserved, PermanentSlot, WithPermanent, SYSTEM_TARGET, Update, ClosedNow;
      created := false;
      if Reserved(n.target) {
        id := EnsureSentinel(n);
        return;
      }
      var s := SlotFor(n);
      id := Select(s);
      if id.None? {
        var r := NewRow(lower, Tables(rows, nextId, networks), n, KindOr(kind, n.target), true, false, None, None);
        created := InsertRow(r);
        if !created {
          return;
        }
        assert Holds(Db(), s, old(nextId));
        if closed {
          InsertedClosed(old(Db()), r, now);
          var shut := UpdateRow(s, Shut(now));
        }
        id := Select(s);
      }
    }

    /** True when a row flipped. */
    method ReopenBuffer(n: Name) returns (flipped: bool)
      requires Valid()
      modifies this`rows, this`cache
      ensures Valid() && Db() == Apply(lower, old(Db()), Reopen(n))
      ensures flipped <==> exists id <- old(rows) :: SlotOf(old(rows)[id]) == Address(lower, old(Db()), n) && !old(rows)[id].open
    {
      var s := SlotFor(n);
      flipped := UpdateRow(s, Flip);
    }

    method CloseBuffer(n: Name, now: int) returns (flipped: bool)
      requires Valid()
      modifies this`rows, this`cache
      ensures Valid() && Db() == Apply(lower, old(Db()), Close(n, now))
      ensures flipped <==> exists id <- old(rows) :: SlotOf(old(rows)[id]) == Address(lower, old(Db()), n)
                                                     && old(rows)[id].open && !Permanent(old(rows)[id].kind)
    {
      var s := SlotFor(n);
      flipped := UpdateRow(s, Shut(now));
    }

    method SetAutojoinFlag(n: Name, flag: bool)
      requires Valid()
      modifies this`rows, this`cache
      ensures Valid() && Db() == Apply(lower, old(Db()), SetAutojoin(n, flag))
    {
      var s := SlotFor(n);
      var changed := UpdateRow(s, Flag(flag));
    }

    method SetChannelKey(n: Name, value: Option<string>)
      requires Valid()
      modifies this`rows, this`cache
      ensures Valid() && Db() == Apply(lower, old(Db()), SetKey(n, value))
    {
      var s := SlotFor(n);
      var changed := UpdateRow(s, Rekey(value));
    }

    method SeedAutojoinChannel(n: Name, key: Patch)
      requires Valid()
      modifies this`rows, this`nextId, this`cache
      ensures Valid() && Db() == Apply(lower, old(Db()), SeedAutojoin(n, key))
    {
      var s := SlotFor(n);
      hide FoldFor, KindOr;
      var id := Select(s);
      if id.None? {
        var ok := InsertRow(NewRow(lower, Tables(rows, nextId, networks), n, Channel, false, true, Patched(key, None), None));
        return;
      }
      var changed := UpdateRow(s, Seeded(key));
    }

    method ImportArchiveRow(op: Op)
      requires Valid() && op.ImportRow?
      modifies this`rows, this`nextId, this`cache
      ensures Valid() && Db() == Apply(lower, old(Db()), op)
    {
      var s := SlotFor(op.name);
      hide FoldFor, KindOr;
      var id := Select(s);
      if id.None? {
        var ok := InsertRow(NewRow(lower, Tables(rows, nextId, networks), op.name, KindOr(op.kind, op.name.target), op.open,
                                   op.autojoin, op.value, if op.open then None else op.closedAt));
        return;
      }
      var changed := UpdateRow(s, Imported(op.open, op.autojoin, op.value, op.closedAt));
    }

    method DeleteRow(n: Name) returns (gone: bool)
      requires Valid()
      modifies this`rows, this`cache
      ensures Valid() && Db() == Apply(lower, old(Db()), DeleteBuffer(n))
      ensures gone <==> exists id <- old(rows) :: SlotOf(old(rows)[id]) == Address(lower, old(Db()), n) && !Permanent(old(rows)[id].kind)
      ensures gone <==> exists id :: id in old(rows) && id !in rows
    {
      var s := SlotFor(n);
      gone := exists id <- rows :: SlotOf(rows[id]) == s && !Permanent(rows[id].kind);
      rows := Delete(Tables(rows, nextId, networks), s).rows;
    }

    method ResolveBuffer(n: Name) returns (id: Option<nat>)
      requires Valid()
      modifies this`cache
      ensures Valid() && id == Find(Db(), Address(lower, Db(), n))
    {
      var s := SlotFor(n);
      id := Select(s);
    }

    /** The messages layer has no user: the network's owner is looked up. */
    method ResolveBufferIdByNetwork(network: nat, target: string) returns (id: Option<nat>)
      requires Valid()
      modifies this`cache
      ensures Valid()
      ensures id == if network in networks then Find(Db(), Address(lower, Db(), OwnName(Db(), network, target))) else None
    {
      if network !in networks {
        return None;
      }
      id := ResolveBuffer(Name(networks[network].owner, Some(network), target));
    }

    method ResolveOrMintForInsert(network: nat, target: string, ignored: bool, now: int) returns (id: Option<nat>)
      requires Valid()
      modifies this`rows, this`nextId, this`cache
      ensures Valid() && Db() == Apply(lower, old(Db()), ResolveOrMint(network, target, ignored, now))
      ensures id == MintedId(lower, old(Db()), network, target, ignored, now)
    {
      id := ResolveBufferIdByNetwork(network, target);
      if id.Some? {
        return;
      }
      if target == ServerTarget(network) {
        id := EnsureServerBuffer(network);
        return;
      }
      if network !in networks {
        return None;
      }
      var kind := if Reserved(target) then Some(Server) else None;
      var closed := ignored && kind.None? && KindFor(target).Dm?;
      var n := Name(networks[network].owner, Some(network), target);
      var made;
      id, made := EnsureExistsBuffer(n, kind, closed, now);
    }
  }

  function When(cond: bool, c: Change, r: Row): Row { if cond then Changed(c, r) else r }

  /** The statements ensureOpen runs one after the other on a row it found are one change. */
  lemma OpenStatements(r: Row, join: Option<bool>, key: Patch)
    ensures var flipped := When(!r.open, Flip, r);
            var flagged := When(join.Some? && r.autojoin != join.value, Flag(join.Some? && join.value), flipped);
            When(key.Put?, Rekey(Patched(key, None)), flagged) == Changed(Ensured(join, key), r)
  {
  }

  /** Likewise importRow's. */
  lemma ImportStatements(r: Row, open: bool, autojoin: bool, key: Option<string>, closedAt: Option<int>)
    ensures var flagged := When(autojoin && !r.autojoin, Flag(true), r);
            var keyed := When(key.Some? && r.key.None?, Rekey(key), flagged);
            When(!open && (r.open || closedAt.Some?), Stamp(closedAt), keyed) == Changed(Imported(open, autojoin, key, closedAt), r)
  {
  }

  /** Inserted open and shut at once is inserted closed. */
  lemma InsertedClosed(db: Tables, r: Row, now: int)
    requires Find(db, SlotOf(r)).None?
    ensures Update(Insert(db, r), SlotOf(r), Shut(now)) == Insert(db, ClosedNow(r, now))
  {
    forall id | id in db.rows ensures SlotOf(db.rows[id]) != SlotOf(r) {
      assert !Holds(db, SlotOf(r), id);
    }
  }

  /** The key is unique, so an UPDATE by key touches one row. */
  lemma OnlyRow(db: Tables, s: Slot, id: nat, c: Change)
    requires UniqueSlots(db) && Holds(db, s, id)
    ensures Update(db, s, c) == db.(rows := db.rows[id := Changed(c, db.rows[id])])
  {
    hide Changed;
  }

  method First(s: set<nat>) returns (x: nat)
    requires s != {}
    ensures x in s
  {
    var i: nat :| i in s;
    x := i;
  }
}
