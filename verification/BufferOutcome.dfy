/** What each operation on the buffer registry does to the row it names, field by field, and that it does
    nothing else (server/db/buffers.ts, server/db/bufferResolve.ts). */
module BufferOutcome {
  import opened Options
  import opened Casemapping
  import opened Buffers

  /** The name's fold, under its network's mapping. */
  function FoldOf(lower: string -> string, db: Tables, n: Name): string {
    if n.network.None? then lower(n.target)
    else Fold(lower, if n.network.value in db.networks then db.networks[n.network.value].mapping else None, n.target)
  }

  function ReadNumber(s: string): int {
    if s == "" then 0 else ReadNumber(s[..|s| - 1]) * 10 + (s[|s| - 1] as int - '0' as int)
  }

  /** Digits writes a number in decimal, without leading zeros. */
  lemma {:induction false} DigitsRead(n: nat)
    ensures forall c <- Digits(n) :: '0' <= c <= '9'
    ensures Digits(n) != "" && ReadNumber(Digits(n)) == n && (|Digits(n)| > 1 ==> Digits(n)[0] != '0')
  {
    if n >= 10 {
      DigitsRead(n / 10);
      assert Digits(n)[..|Digits(n)| - 1] == Digits(n / 10);
      assert n / 10 < 10 ==> Digits(n / 10) == [('0' as int + n / 10) as char];
    }
  }

  /** The row the name stands for: its user's, on its network or on none, with its fold. */
  predicate Named(lower: string -> string, db: Tables, n: Name, r: Row) {
    && r.user == n.user && r.folded == FoldOf(lower, db, n)
    && (match r.network case Some(id) => id case None => 0) == (match n.network case Some(id) => id case None => 0)
  }

  lemma NamedIsSlot(lower: string -> string, db: Tables, n: Name, r: Row)
    ensures Named(lower, db, n, r) <==> SlotOf(r) == Address(lower, db, n)
  {
    hide Fold;
  }

  /** A server or system row. */
  predicate Console(r: Row) { r.kind == Server || r.kind == System }

  function KindOf(target: string): Kind {
    if "#" <= target || "&" <= target || "+" <= target || "!" <= target then Channel else if "=" <= target then DccChat else Dm
  }

  lemma KindIs(kind: Option<Kind>, target: string)
    ensures KindOr(kind, target) == match kind case Some(k) => k case None => KindOf(target)
  {
  }

  ghost predicate HasRow(lower: string -> string, db: Tables, n: Name) {
    exists id <- db.rows :: Named(lower, db, n, db.rows[id])
  }

  lemma FoundIsHasRow(lower: string -> string, db: Tables, n: Name)
    ensures Find(db, Address(lower, db, n)).Some? <==> HasRow(lower, db, n)
  {
    forall r ensures Named(lower, db, n, r) <==> SlotOf(r) == Address(lower, db, n) {
      NamedIsSlot(lower, db, n, r);
    }
    hide Named, Address;
    if id :| id in db.rows && Named(lower, db, n, db.rows[id]) {
      assert Holds(db, Address(lower, db, n), id);
    }
  }

  /** The named row becomes f of it; nothing else changes. */
  ghost predicate Edits(lower: string -> string, db: Tables, n: Name, f: Row -> Row, after: Tables) {
    && after == db.(rows := after.rows) && after.rows.Keys == db.rows.Keys
    && forall id <- db.rows :: after.rows[id] == if Named(lower, db, n, db.rows[id]) then f(db.rows[id]) else db.rows[id]
  }

  lemma UpdateEdits(lower: string -> string, db: Tables, n: Name, c: Change, f: Row -> Row)
    requires forall r :: Changed(c, r) == f(r)
    ensures Edits(lower, db, n, f, Update(db, Address(lower, db, n), c))
  {
    hide Changed, Named, Address, SlotOf;
    forall r ensures Named(lower, db, n, r) <==> SlotOf(r) == Address(lower, db, n) {
      NamedIsSlot(lower, db, n, r);
    }
  }

  /** One row more, under a new id; nothing else changes. */
  predicate Adds(db: Tables, r: Row, after: Tables) {
    after == Tables(db.rows[db.nextId := r], db.nextId + 1, db.networks)
  }

  // ----- one row -----

  /** Reopening opens a closed row and forgets when it was closed. */
  lemma ReopenOutcome(lower: string -> string, db: Tables, n: Name)
    ensures Edits(lower, db, n, (r: Row) => if r.open then r else r.(open := true, closedAt := None), Apply(lower, db, Reopen(n)))
  {
    UpdateEdits(lower, db, n, Flip, (r: Row) => if r.open then r else r.(open := true, closedAt := None));
    hide Update;
  }

  /** Closing closes an open row that is no console, as of now. */
  lemma CloseOutcome(lower: string -> string, db: Tables, n: Name, now: int)
    ensures Edits(lower, db, n, (r: Row) => if r.open && !Console(r) then r.(open := false, closedAt := Some(now)) else r,
                  Apply(lower, db, Close(n, now)))
  {
    UpdateEdits(lower, db, n, Shut(now), (r: Row) => if r.open && !Console(r) then r.(open := false, closedAt := Some(now)) else r);
    hide Update;
  }

  lemma AutojoinOutcome(lower: string -> string, db: Tables, n: Name, flag: bool)
    ensures Edits(lower, db, n, (r: Row) => r.(autojoin := flag), Apply(lower, db, SetAutojoin(n, flag)))
  {
    UpdateEdits(lower, db, n, Flag(flag), (r: Row) => r.(autojoin := flag));
    hide Update;
  }

  lemma KeyOutcome(lower: string -> string, db: Tables, n: Name, key: Option<string>)
    ensures Edits(lower, db, n, (r: Row) => r.(key := key), Apply(lower, db, SetKey(n, key)))
  {
    UpdateEdits(lower, db, n, Rekey(key), (r: Row) => r.(key := key));
    hide Update;
  }

  /** Deleting takes exactly the named row, unless it is a console. */
  lemma DeleteOutcome(lower: string -> string, db: Tables, n: Name)
    ensures var after := Apply(lower, db, DeleteBuffer(n));
      && after == db.(rows := after.rows)
      && (forall id <- after.rows :: id in db.rows && after.rows[id] == db.rows[id])
      && (forall id <- db.rows :: id in after.rows <==> !Named(lower, db, n, db.rows[id]) || Console(db.rows[id]))
  {
    forall r ensures Named(lower, db, n, r) <==> SlotOf(r) == Address(lower, db, n) {
      NamedIsSlot(lower, db, n, r);
    }
    hide Named, Address, SlotOf;
  }

  // ----- find or create -----

  /** What a seed or an ensureOpen is told about the key. */
  function KeyOr(patch: Patch, was: Option<string>): Option<string> {
    match patch case Put(key) => key case Leave => was
  }

  function Opened(r: Row, join: Option<bool>, key: Patch): Row {
    Row(r.user, r.network, r.target, r.folded, r.kind, true, match join case Some(j) => j case None => r.autojoin,
        KeyOr(key, r.key), if r.open then r.closedAt else None)
  }

  /** ensureOpen on an ordinary name: the row there is opened and told what the caller knows; else a new,
      open one is made, on a network there is. */
  lemma EnsureOpenOutcome(lower: string -> string, db: Tables, n: Name, kind: Option<Kind>, join: Option<bool>, key: Patch)
    requires !(":" <= n.target)
    ensures var after := Apply(lower, db, EnsureOpen(n, kind, join, key));
      if HasRow(lower, db, n) then Edits(lower, db, n, (r: Row) => Opened(r, join, key), after)
      else if n.network.Some? && n.network.value !in db.networks then after == db
      else Adds(db, Row(n.user, n.network, n.target, FoldOf(lower, db, n), match kind case Some(k) => k case None => KindOf(n.target),
                        true, join == Some(true), KeyOr(key, None), None), after)
  {
    FoundIsHasRow(lower, db, n);
    KindIs(kind, n.target);
    UpdateEdits(lower, db, n, Ensured(join, key), (r: Row) => Opened(r, join, key));
    hide Update, HasRow, Find, KindOr, KindOf, Address, Fold;
  }

  /** A ':'-name leads to a console: the user's own, or the network's, made if it is not there. */
  lemma ConsoleOutcome(lower: string -> string, db: Tables, n: Name, kind: Option<Kind>, join: Option<bool>, key: Patch, closed: bool, now: int)
    requires ":" <= n.target
    ensures var after := Apply(lower, db, EnsureOpen(n, kind, join, key));
      && Apply(lower, db, EnsureExists(n, kind, closed, now)) == after
      && after == (if n.target == ":system:" || n.network.None? then Apply(lower, db, EnsureSystem(n.user))
                   else Apply(lower, db, EnsureServer(n.network.value)))
  {
    hide Find;
  }

  lemma SystemOutcome(lower: string -> string, db: Tables, user: nat)
    ensures var after := Apply(lower, db, EnsureSystem(user));
      if exists id <- db.rows :: SystemRowOf(user, db.rows[id]) then after == db
      else Adds(db, Row(user, None, ":system:", ":system:", System, true, false, None, None), after)
  {
    hide Find;
    SlotIs(db, SystemRow(user));
    assert forall r :: SystemRowOf(user, r) <==> SlotOf(r) == SlotOf(SystemRow(user));
  }

  predicate SystemRowOf(user: nat, r: Row) {
    r.user == user && (r.network.None? || r.network == Some(0)) && r.folded == ":system:"
  }

  lemma ServerOutcome(lower: string -> string, db: Tables, network: nat)
    requires 0 !in db.networks
    ensures var after := Apply(lower, db, EnsureServer(network));
      if network !in db.networks || exists id <- db.rows :: ServerRowOf(db.networks[network].owner, network, db.rows[id]) then after == db
      else Adds(db, Row(db.networks[network].owner, Some(network), ":server:" + Digits(network), ":server:" + Digits(network), Server,
                        true, false, None, None), after)
  {
    hide Find, Digits;
    if network in db.networks {
      SlotIs(db, ServerRow(db.networks[network].owner, network));
      assert forall r :: ServerRowOf(db.networks[network].owner, network, r) <==> SlotOf(r) == SlotOf(ServerRow(db.networks[network].owner, network));
    }
  }

  predicate ServerRowOf(owner: nat, network: nat, r: Row) {
    r.user == owner && r.network == Some(network) && r.folded == ":server:" + Digits(network)
  }

  lemma SlotIs(db: Tables, row: Row)
    ensures Find(db, SlotOf(row)).Some? <==> exists id <- db.rows :: SlotOf(db.rows[id]) == SlotOf(row)
  {
    if id :| id in db.rows && SlotOf(db.rows[id]) == SlotOf(row) {
      assert Holds(db, SlotOf(row), id);
    }
  }

  /** ensureExists on an ordinary name: nothing happens to a row that is there; else one is made, open, or
      closed as of now when asked, but a console never closed. */
  lemma EnsureExistsOutcome(lower: string -> string, db: Tables, n: Name, kind: Option<Kind>, closed: bool, now: int)
    requires !(":" <= n.target)
    ensures var after := Apply(lower, db, EnsureExists(n, kind, closed, now));
      var k := match kind case Some(k) => k case None => KindOf(n.target);
      var shut := closed && k != Server && k != System;
      if HasRow(lower, db, n) || (n.network.Some? && n.network.value !in db.networks) then after == db
      else Adds(db, Row(n.user, n.network, n.target, FoldOf(lower, db, n), k, !shut, false, None, if shut then Some(now) else None), after)
  {
    FoundIsHasRow(lower, db, n);
    KindIs(kind, n.target);
    hide HasRow, Find, KindOr, KindOf, Address, Fold;
  }

  /** A seeded channel autojoins, with the key if one is given; a new one waits closed, with no closing time. */
  lemma SeedOutcome(lower: string -> string, db: Tables, n: Name, key: Patch)
    ensures var after := Apply(lower, db, SeedAutojoin(n, key));
      if HasRow(lower, db, n) then Edits(lower, db, n, (r: Row) => r.(autojoin := true, key := KeyOr(key, r.key)), after)
      else if n.network.Some? && n.network.value !in db.networks then after == db
      else Adds(db, Row(n.user, n.network, n.target, FoldOf(lower, db, n), Channel, false, true, KeyOr(key, None), None), after)
  {
    FoundIsHasRow(lower, db, n);
    UpdateEdits(lower, db, n, Seeded(key), (r: Row) => r.(autojoin := true, key := KeyOr(key, r.key)));
    hide Update, HasRow, Find, Address, Fold;
  }

  /** What an archive row does to the row it lands on: autojoin if either does, the first key there is, open
      only if both are, and the archive's closing time when it does the closing or brings one. */
  function Landed(r: Row, open: bool, autojoin: bool, key: Option<string>, closedAt: Option<int>): Row {
    var closes := !open && (r.open || closedAt != None);
    Row(r.user, r.network, r.target, r.folded, r.kind, r.open && open, r.autojoin || autojoin,
        match r.key case Some(k) => Some(k) case None => key, if closes then closedAt else r.closedAt)
  }

  lemma ImportOutcome(lower: string -> string, db: Tables, n: Name, kind: Option<Kind>, open: bool, autojoin: bool, key: Option<string>,
                      closedAt: Option<int>)
    ensures var after := Apply(lower, db, ImportRow(n, kind, open, autojoin, key, closedAt));
      if HasRow(lower, db, n) then Edits(lower, db, n, (r: Row) => Landed(r, open, autojoin, key, closedAt), after)
      else if n.network.Some? && n.network.value !in db.networks then after == db
      else Adds(db, Row(n.user, n.network, n.target, FoldOf(lower, db, n), match kind case Some(k) => k case None => KindOf(n.target),
                        open, autojoin, key, if open then None else closedAt), after)
  {
    FoundIsHasRow(lower, db, n);
    if HasRow(lower, db, n) {
      LandedEdits(lower, db, n, open, autojoin, key, closedAt);
      hide *;
    } else {
      KindIs(kind, n.target);
      hide HasRow, Find, KindOr, KindOf, Address, Fold, Edits, Update, Merged, Changed;
    }
  }

  lemma LandedEdits(lower: string -> string, db: Tables, n: Name, open: bool, autojoin: bool, key: Option<string>, closedAt: Option<int>)
    ensures Edits(lower, db, n, (r: Row) => Landed(r, open, autojoin, key, closedAt),
                  Update(db, Address(lower, db, n), Imported(open, autojoin, key, closedAt)))
  {
    UpdateEdits(lower, db, n, Imported(open, autojoin, key, closedAt), (r: Row) => Landed(r, open, autojoin, key, closedAt));
    hide Update, Address, Landed, Changed, Named;
  }

  /** An inserted line finds its row or makes one, for the network's owner: open, unless it is a direct
      message whose sender is ignored. A ':'-target leads to the network's console or the user's. */
  lemma MintOutcome(lower: string -> string, db: Tables, network: nat, target: string, ignored: bool, now: int)
    ensures var after := Apply(lower, db, ResolveOrMint(network, target, ignored, now));
      if network !in db.networks then after == db
      else
        var n := Name(db.networks[network].owner, Some(network), target);
        if HasRow(lower, db, n) then after == db
        else if ":" <= target then
          after == if target == ":system:" then Apply(lower, db, EnsureSystem(n.user)) else Apply(lower, db, EnsureServer(network))
        else
          var shut := ignored && KindOf(target) == Dm;
          Adds(db, Row(n.user, n.network, target, FoldOf(lower, db, n), KindOf(target), !shut, false, None, if shut then Some(now) else None),
               after)
  {
    if network in db.networks {
      var n := Name(db.networks[network].owner, Some(network), target);
      FoundIsHasRow(lower, db, n);
      KindIs(None, target);
      ServerNameIsColon(network);
      hide HasRow, Find, Address, Fold, KindOf;
    }
  }

  lemma ServerNameIsColon(network: nat)
    ensures ":" <= ServerTarget(network) && ServerTarget(network) != ":system:"
  {
    var s := ServerTarget(network);
    assert s[2] == 'e';
  }
}
