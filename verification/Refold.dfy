/** Refolding a network's registry under a newly declared mapping (server/db/refoldBuffers.ts): rows that
    now fold together are merged, then the stored folds are rewritten one row at a time. */
module Refold {
  import opened Options
  import opened Casemapping
  import opened Buffers

  /** One pass: the rows, the scan order of the network's own rows, and each one's last message id. */
  datatype Pass = Pass(lower: string -> string, mapping: Mapping, user: nat, network: nat, rows: map<nat, Row>,
                       order: seq<nat>, last: nat -> nat)

  /** Permanent rows are never refolded. */
  predicate Considered(p: Pass, id: nat) {
    && id in p.rows && p.rows[id].user == p.user && p.rows[id].network == Some(p.network)
    && !Permanent(p.rows[id].kind)
  }

  function NewFold(p: Pass, id: nat): string {
    if id in p.rows then Fold(p.lower, Some(p.mapping), p.rows[id].target) else ""
  }

  // ----- groups and survivors -----

  /** The folds in the order of their first row. */
  function Folds(p: Pass, n: nat): seq<string>
    requires n <= |p.order|
  {
    if n == 0 then []
    else
      var before, f := Folds(p, n - 1), NewFold(p, p.order[n - 1]);
      if f in before then before else before + [f]
  }

  function AllFolds(p: Pass): seq<string> { Folds(p, |p.order|) }

  /** The rows of one fold, in scan order. */
  function Members(p: Pass, f: string, ids: seq<nat>): seq<nat> {
    if ids == [] then [] else (if NewFold(p, ids[0]) == f then [ids[0]] else []) + Members(p, f, ids[1..])
  }

  function Group(p: Pass, f: string): seq<nat> { Members(p, f, p.order) }

  predicate Open(p: Pass, id: nat) { id in p.rows && p.rows[id].open }

  /** An open row first, then the latest message, then the older row. */
  predicate Better(p: Pass, a: nat, b: nat) {
    if Open(p, a) != Open(p, b) then Open(p, a)
    else if p.last(a) != p.last(b) then p.last(a) > p.last(b)
    else a < b
  }

  function Best(p: Pass, ids: seq<nat>): (b: nat)
    requires ids != []
    ensures b in ids
  {
    if |ids| == 1 then ids[0]
    else
      var rest := Best(p, ids[1..]);
      if Better(p, rest, ids[0]) then rest else ids[0]
  }

  function Except(ids: seq<nat>, id: nat): (r: seq<nat>)
    ensures forall i :: i in r <==> i in ids && i != id
    ensures |r| <= |ids| && (id in ids ==> |r| < |ids|)
  {
    if ids == [] then [] else (if ids[0] == id then [] else [ids[0]]) + Except(ids[1..], id)
  }

  /** Sorted by rank. */
  function Ranked(p: Pass, ids: seq<nat>): (r: seq<nat>)
    ensures forall i :: i in r <==> i in ids
    ensures ids != [] ==> r != [] && r[0] == Best(p, ids)
    decreases |ids|
  {
    if ids == [] then [] else [Best(p, ids)] + Ranked(p, Except(ids, Best(p, ids)))
  }

  function Survivor(p: Pass, f: string): nat {
    if Group(p, f) == [] then 0 else Best(p, Group(p, f))
  }

  // ----- absorbing -----

  /** autojoin and visibility are unions, the key the first there is. */
  function Union(a: Row, b: Row): Row {
    a.(autojoin := a.autojoin || b.autojoin, key := if a.key.Some? then a.key else b.key,
       open := a.open || b.open, closedAt := if b.open && !a.open then None else a.closedAt)
  }

  function AbsorbAll(p: Pass, r: Row, ids: seq<nat>): (m: Row)
    ensures m.user == r.user && m.network == r.network && m.target == r.target && m.folded == r.folded && m.kind == r.kind
    decreases |ids|
  {
    if ids == [] then r
    else AbsorbAll(p, if ids[0] in p.rows then Union(r, p.rows[ids[0]]) else r, ids[1..])
  }

  /** The survivor's row after the others of its group, best first, were absorbed. */
  function MergedRow(p: Pass, id: nat): Row
    requires id in p.rows
  {
    var ranked := Ranked(p, Group(p, NewFold(p, id)));
    AbsorbAll(p, p.rows[id], if ranked == [] then [] else ranked[1..])
  }

  predicate Survives(p: Pass, id: nat) { Survivor(p, NewFold(p, id)) == id }

  /** After the merges: groups are disjoint, so each survivor's row has its own group's union. */
  function Merged(p: Pass): map<nat, Row> {
    map id | id in p.rows && (Considered(p, id) ==> Survives(p, id)) ::
      if Considered(p, id) then MergedRow(p, id) else p.rows[id]
  }

  // ----- rewriting the folds -----

  /** How many folds there are, the n-th, and the row the n-th step writes. */
  function Count(p: Pass): nat { |AllFolds(p)| }

  function FoldAt(p: Pass, n: nat): string { if n < |AllFolds(p)| then AllFolds(p)[n] else "" }

  function Writer(p: Pass, n: nat): nat { Survivor(p, FoldAt(p, n)) }

  /** Another row already holds the key (user, network, fold). */
  predicate Taken(p: Pass, rows: map<nat, Row>, id: nat, f: string) {
    exists other <- rows :: other != id && SlotOf(rows[other]) == Slot(p.user, p.network, f)
  }

  /** The rewriting loop over the survivors from fold n on; None is the constraint violation, which rolls
      the pass back. */
  function Rewrite(p: Pass, rows: map<nat, Row>, n: nat): Option<map<nat, Row>>
    decreases Count(p) - n
  {
    if n >= Count(p) then Some(rows)
    else
      var f, id := FoldAt(p, n), Writer(p, n);
      if id !in rows || rows[id].folded == f then Rewrite(p, rows, n + 1)
      else if Taken(p, rows, id, f) then None
      else Rewrite(p, rows[id := rows[id].(folded := f)], n + 1)
  }

  /** The networks with the new mapping stored. */
  function Declared(p: Pass, db: Tables): map<nat, Network>
    requires p.network in db.networks
  {
    db.networks[p.network := db.networks[p.network].(mapping := Some(p.mapping))]
  }

  /** The mapping is stored in the same transaction. */
  function RefoldTables(p: Pass, db: Tables): Option<Tables>
    requires p.network in db.networks
  {
    var done := Rewrite(p, Merged(p), 0);
    if done.None? then None
    else Some(Tables(done.value, db.nextId, Declared(p, db)))
  }

  // ----- what the pass is run on -----

  ghost predicate Scanned(p: Pass) {
    forall id :: id in p.order <==> Considered(p, id)
  }

  /** A registry, its network's declared new mapping, and a scan of exactly the network's own rows. */
  ghost predicate Ready(p: Pass, db: Tables) {
    && Inv(p.lower, db) && p.rows == db.rows && p.network in db.networks && db.networks[p.network].owner == p.user
    && Scanned(p)
    && (forall id <- db.rows | db.rows[id].network == Some(p.network) :: db.rows[id].user == p.user)
    && PermanentApart(p)
  }

  /** No row refolds onto a permanent one, whose own fold is the same under every mapping. */
  ghost predicate PermanentApart(p: Pass) {
    forall id <- p.rows, c <- p.rows | Permanent(p.rows[id].kind) && p.rows[id].network == Some(p.network) ::
      && p.rows[id].folded == NewFold(p, id)
      && (Considered(p, c) ==> NewFold(p, c) != p.rows[id].folded)
  }

  function Stored(p: Pass, id: nat): string { if id in p.rows then p.rows[id].folded else "" }

  /** A survivor's new fold is what a survivor further on still has stored. */
  ghost predicate Trips(p: Pass) {
    exists i: nat, j: nat :: i < j < Count(p) && FoldAt(p, i) == Stored(p, Writer(p, j))
  }

  // ----- groups -----

  lemma {:induction false} FoldsAreFirsts(p: Pass, n: nat)
    requires n <= |p.order|
    ensures forall f :: f in Folds(p, n) <==> exists i :: 0 <= i < n && NewFold(p, p.order[i]) == f
    ensures forall i, j | 0 <= i < j < |Folds(p, n)| :: Folds(p, n)[i] != Folds(p, n)[j]
  {
    if n > 0 {
      FoldsAreFirsts(p, n - 1);
      var before, f := Folds(p, n - 1), NewFold(p, p.order[n - 1]);
      forall g ensures g in Folds(p, n) <==> exists i :: 0 <= i < n && NewFold(p, p.order[i]) == g {
        if g in Folds(p, n) && g != f {
          assert g in before;
        }
      }
    }
  }

  lemma {:induction false} MembersAre(p: Pass, f: string, ids: seq<nat>)
    ensures forall id :: id in Members(p, f, ids) <==> id in ids && NewFold(p, id) == f
  {
    if ids != [] {
      MembersAre(p, f, ids[1..]);
    }
  }

  /** The survivor of a considered row's group is considered and has its fold. */
  lemma SurvivorOf(p: Pass, id: nat)
    requires Scanned(p) && Considered(p, id)
    ensures var s := Survivor(p, NewFold(p, id));
            Considered(p, s) && NewFold(p, s) == NewFold(p, id) && Survives(p, s)
  {
    MembersAre(p, NewFold(p, id), p.order);
    assert id in Group(p, NewFold(p, id));
  }

  lemma FoldsDiffer(p: Pass, i: nat, j: nat)
    requires i < j < Count(p)
    ensures FoldAt(p, i) != FoldAt(p, j)
  {
    FoldsAreFirsts(p, |p.order|);
  }

  lemma WriterIsConsidered(p: Pass, n: nat)
    requires Scanned(p) && n < Count(p)
    ensures Considered(p, Writer(p, n)) && NewFold(p, Writer(p, n)) == FoldAt(p, n) && Survives(p, Writer(p, n))
  {
    FoldsAreFirsts(p, |p.order|);
    assert FoldAt(p, n) in AllFolds(p);
    var i :| 0 <= i < |p.order| && NewFold(p, p.order[i]) == FoldAt(p, n);
    assert p.order[i] in p.order;
    hide Folds, Survivor, NewFold;
    SurvivorOf(p, p.order[i]);
  }

  lemma FoldIndex(p: Pass, id: nat) returns (j: nat)
    requires Scanned(p) && Considered(p, id)
    ensures j < Count(p) && FoldAt(p, j) == NewFold(p, id)
  {
    FoldsAreFirsts(p, |p.order|);
    var i :| 0 <= i < |p.order| && p.order[i] == id;
    assert NewFold(p, p.order[i]) == NewFold(p, id);
    assert NewFold(p, id) in AllFolds(p);
    var k :| 0 <= k < |AllFolds(p)| && AllFolds(p)[k] == NewFold(p, id);
    j := k;
  }

  // ----- when the rewriting trips -----

  ghost predicate Written(p: Pass, n: nat, id: nat) {
    Considered(p, id) && exists k: nat :: k < n && k < Count(p) && FoldAt(p, k) == NewFold(p, id)
  }

  /** The rows once the first n folds are written. */
  ghost function RowsAt(p: Pass, n: nat): map<nat, Row> {
    map id | id in Merged(p) :: if Written(p, n, id) then Merged(p)[id].(folded := NewFold(p, id)) else Merged(p)[id]
  }

  /** A row's fold then. */
  lemma FoldThen(p: Pass, n: nat, id: nat)
    requires id in RowsAt(p, n)
    ensures id in p.rows && SlotOf(RowsAt(p, n)[id]) == SlotOf(p.rows[id]).(folded := if Written(p, n, id) then NewFold(p, id) else Stored(p, id))
    ensures Considered(p, id) ==> Survives(p, id)
  {
    hide NewFold, Written, Survivor;
  }

  lemma SurvivorsStay(p: Pass, n: nat, id: nat)
    requires Considered(p, id) && Survives(p, id)
    ensures id in RowsAt(p, n)
  {
    hide NewFold, Written, Survivor;
  }

  /** The n-th step writes the survivor of fold n, still under its old fold, and no other row. */
  lemma StepWrites(p: Pass, n: nat)
    requires Scanned(p) && n < Count(p)
    ensures !Written(p, n, Writer(p, n)) && Written(p, n + 1, Writer(p, n))
    ensures forall id | Survives(p, id) && id != Writer(p, n) :: Written(p, n + 1, id) == Written(p, n, id)
  {
    WriterIsConsidered(p, n);
    forall k: nat | k < n ensures FoldAt(p, k) != FoldAt(p, n) {
      FoldsDiffer(p, k, n);
    }
    hide Survivor, AllFolds, NewFold, Considered, FoldAt, Scanned;
  }

  lemma RowsStep(p: Pass, n: nat)
    requires Scanned(p) && n < Count(p)
    ensures Writer(p, n) in RowsAt(p, n) && RowsAt(p, n)[Writer(p, n)].folded == Stored(p, Writer(p, n))
    ensures RowsAt(p, n + 1) == RowsAt(p, n)[Writer(p, n) := RowsAt(p, n)[Writer(p, n)].(folded := FoldAt(p, n))]
  {
    StepWrites(p, n);
    WriterIsConsidered(p, n);
    SurvivorsStay(p, n, Writer(p, n));
    FoldThen(p, n, Writer(p, n));
    hide Survivor, NewFold, FoldAt, Scanned, Written, Writer, AllFolds, MergedRow, Survives;
  }

  ghost predicate TripsAt(p: Pass, n: nat) {
    exists j: nat :: n < j < Count(p) && FoldAt(p, n) == Stored(p, Writer(p, j))
  }

  /** A survivor further on is still under its old fold. */
  lemma LaterSurvivorHolds(p: Pass, n: nat, j: nat)
    requires Scanned(p) && n < j < Count(p) && FoldAt(p, n) == Stored(p, Writer(p, j))
    ensures Taken(p, RowsAt(p, n), Writer(p, n), FoldAt(p, n))
  {
    WriterIsConsidered(p, n);
    WriterIsConsidered(p, j);
    FoldsDiffer(p, n, j);
    forall k: nat | k < n ensures FoldAt(p, k) != FoldAt(p, j) {
      FoldsDiffer(p, k, j);
    }
    assert !Written(p, n, Writer(p, j));
    SurvivorsStay(p, n, Writer(p, j));
    FoldThen(p, n, Writer(p, j));
    hide Survivor, NewFold, FoldAt, Scanned, Written, Writer, AllFolds, RowsAt;
  }

  /** Nobody but such a survivor can hold the key. */
  lemma HolderIsLater(p: Pass, db: Tables, n: nat, other: nat)
    requires Ready(p, db) && n < Count(p) && other in RowsAt(p, n) && other != Writer(p, n)
    requires SlotOf(RowsAt(p, n)[other]) == Slot(p.user, p.network, FoldAt(p, n))
    ensures TripsAt(p, n)
  {
    HolderIsConsidered(p, db, n, other);
    FoldThen(p, n, other);
    ReadyIsScanned(p, db);
    var folded := RowsAt(p, n)[other].folded;
    hide Ready, RowsAt;
    HolderComesAfter(p, n, other);
  }

  lemma HolderComesAfter(p: Pass, n: nat, other: nat)
    requires Scanned(p) && n < Count(p) && Considered(p, other) && Survives(p, other) && other != Writer(p, n)
    requires FoldAt(p, n) == if Written(p, n, other) then NewFold(p, other) else Stored(p, other)
    ensures TripsAt(p, n)
  {
    var j := FoldIndex(p, other);
    assert Writer(p, j) == other;
    forall k: nat | k < n ensures FoldAt(p, k) != FoldAt(p, n) {
      FoldsDiffer(p, k, n);
    }
    hide Survivor, NewFold, AllFolds, FoldAt, Scanned;
    assert j >= n;
  }

  lemma HolderIsConsidered(p: Pass, db: Tables, n: nat, other: nat)
    requires Ready(p, db) && n < Count(p) && other in RowsAt(p, n)
    requires SlotOf(RowsAt(p, n)[other]) == Slot(p.user, p.network, FoldAt(p, n))
    ensures Considered(p, other)
  {
    ReadyIsScanned(p, db);
    FoldThen(p, n, other);
    WriterIsConsidered(p, n);
    hide Survivor, NewFold, AllFolds, RowsAt, FoldAt, Writer, Scanned, Ready, Survives;
    if !Considered(p, other) {
      PermanentElsewhere(p, db, Writer(p, n), other);
    }
  }

  /** A row with a key of this user and network is the network's. */
  lemma KeyOfNetwork(p: Pass, db: Tables, id: nat)
    requires Ready(p, db) && id in p.rows && OrZero(p.rows[id].network) == p.network
    ensures p.rows[id].network == Some(p.network)
  {
    assert p.network != 0;
  }

  lemma TakenIffTripsAt(p: Pass, db: Tables, n: nat)
    requires Ready(p, db) && n < Count(p)
    ensures Taken(p, RowsAt(p, n), Writer(p, n), FoldAt(p, n)) <==> TripsAt(p, n)
  {
    hide FoldAt, NewFold, Survivor, Writer, Inv, RowsAt, Stored;
    if TripsAt(p, n) {
      var j: nat :| n < j < Count(p) && FoldAt(p, n) == Stored(p, Writer(p, j));
      LaterSurvivorHolds(p, n, j);
    } else if Taken(p, RowsAt(p, n), Writer(p, n), FoldAt(p, n)) {
      var other :| other in RowsAt(p, n) && other != Writer(p, n) && SlotOf(RowsAt(p, n)[other]) == Slot(p.user, p.network, FoldAt(p, n));
      HolderIsLater(p, db, n, other);
    }
  }

  /** A survivor already under its new fold is skipped, and nobody else has that fold stored. */
  lemma SettledNeverTrips(p: Pass, db: Tables, n: nat)
    requires Ready(p, db) && n < Count(p) && Stored(p, Writer(p, n)) == FoldAt(p, n)
    ensures !TripsAt(p, n)
  {
    assert UniqueSlots(db);
    WriterIsConsidered(p, n);
    hide Survivor, NewFold, Inv, FoldAt, Writer, PermanentApart, Scanned;
    forall j: nat | n < j < Count(p) ensures FoldAt(p, n) != Stored(p, Writer(p, j)) {
      WriterIsConsidered(p, j);
      FoldsDiffer(p, n, j);
      StoredDiffer(p, db, Writer(p, n), Writer(p, j));
    }
  }

  lemma StoredDiffer(p: Pass, db: Tables, a: nat, b: nat)
    requires Ready(p, db) && Considered(p, a) && Considered(p, b)
    ensures a != b ==> Stored(p, a) != Stored(p, b)
  {
    assert UniqueSlots(db);
    hide Inv, Scanned, PermanentApart;
  }

  ghost predicate TripsFrom(p: Pass, n: nat) {
    exists i: nat :: n <= i < Count(p) && TripsAt(p, i)
  }

  lemma {:induction false} RewriteOutcome(p: Pass, db: Tables, n: nat)
    requires Ready(p, db) && n <= Count(p)
    ensures Rewrite(p, RowsAt(p, n), n) == if TripsFrom(p, n) then None else Some(RowsAt(p, Count(p)))
    decreases Count(p) - n
  {
    hide TripsAt, RowsAt, Taken, Survivor, Ready, FoldAt, Writer, Considered, Count, Stored;
    if n < Count(p) {
      assert Scanned(p) by {
        ReadyIsScanned(p, db);
      }
      RowsStep(p, n);
      TakenIffTripsAt(p, db, n);
      RewriteOutcome(p, db, n + 1);
      if Stored(p, Writer(p, n)) == FoldAt(p, n) {
        SettledNeverTrips(p, db, n);
        assert RowsAt(p, n + 1) == RowsAt(p, n);
      }
    }
  }

  lemma ReadyIsScanned(p: Pass, db: Tables)
    requires Ready(p, db)
    ensures Scanned(p)
  {
  }

  /** The pass commits exactly when no survivor's new fold is what a survivor after it still has stored;
      otherwise the unique key throws and the pass is rolled back. */
  lemma RefoldCommitsIff(p: Pass, db: Tables)
    requires Ready(p, db)
    ensures RefoldTables(p, db).Some? <==> !Trips(p)
    ensures RefoldTables(p, db).Some? ==> RefoldTables(p, db).value.rows == RowsAt(p, Count(p))
  {
    assert RowsAt(p, 0) == Merged(p);
    RewriteOutcome(p, db, 0);
    TripsOrNot(p);
    hide FoldAt, Writer, Ready, RowsAt, Merged, Stored, Count, Rewrite, Trips, TripsFrom;
  }

  lemma TripsOrNot(p: Pass)
    ensures Trips(p) <==> TripsFrom(p, 0)
  {
    hide FoldAt, Writer, Stored, Count;
    if Trips(p) {
      var i: nat, j: nat :| i < j < Count(p) && FoldAt(p, i) == Stored(p, Writer(p, j));
      assert TripsAt(p, i);
    }
  }

  // ----- what the pass leaves -----

  /** After a committed pass the registry is sound under the new mapping: each stored fold is the fold of
      its target, and no two rows share one. */
  lemma RefoldKeepsInv(p: Pass, db: Tables)
    requires Ready(p, db) && RefoldTables(p, db).Some?
    ensures Inv(p.lower, RefoldTables(p, db).value)
  {
    RefoldCommitsIff(p, db);
    var after := RefoldTables(p, db).value;
    hide RefoldTables, RowsAt, Scanned;
    forall id <- after.rows
      ensures id < after.nextId && KnownNetwork(after, after.rows[id].network)
      ensures after.rows[id].folded == FoldFor(p.lower, after.networks, after.rows[id].network, after.rows[id].target)
    {
      FinalRow(p, db, id);
    }
    forall a <- after.rows, b <- after.rows | SlotOf(after.rows[a]) == SlotOf(after.rows[b]) ensures a == b {
      FinalSlots(p, db, a, b);
    }
  }

  lemma AllWritten(p: Pass, id: nat)
    requires Scanned(p) && Considered(p, id)
    ensures Written(p, Count(p), id)
  {
    var j := FoldIndex(p, id);
  }

  lemma FinalRow(p: Pass, db: Tables, id: nat)
    requires Ready(p, db) && id in RowsAt(p, Count(p))
    ensures var r := RowsAt(p, Count(p))[id];
            && id < db.nextId && (r.network.Some? ==> r.network.value in Declared(p, db))
            && r.folded == FoldFor(p.lower, Declared(p, db), r.network, r.target)
  {
    FoldThen(p, Count(p), id);
    RowKeepsName(p, Count(p), id);
    if Considered(p, id) {
      ReadyIsScanned(p, db);
      AllWritten(p, id);
    }
    FinalFold(p, db, id);
    hide Survivor, AllFolds, FoldAt, Ready, RowsAt, Count, NewFold, FoldFor, Declared;
  }

  lemma FinalFold(p: Pass, db: Tables, id: nat)
    requires Ready(p, db) && id in p.rows
    ensures var r := p.rows[id];
            && id < db.nextId && (r.network.Some? ==> r.network.value in Declared(p, db))
            && FoldFor(p.lower, Declared(p, db), r.network, r.target) == if Considered(p, id) then NewFold(p, id) else Stored(p, id)
  {
    assert KnownNetwork(db, db.rows[id].network);
    hide Fold, Scanned, UniqueSlots;
    if p.rows[id].network == Some(p.network) && !Considered(p, id) {
      assert p.rows[id].folded == NewFold(p, id);
    }
  }

  lemma RowKeepsName(p: Pass, n: nat, id: nat)
    requires id in RowsAt(p, n)
    ensures id in p.rows && RowsAt(p, n)[id].target == p.rows[id].target && RowsAt(p, n)[id].network == p.rows[id].network
  {
    hide NewFold, Written, Survivor;
  }

  lemma FinalSlots(p: Pass, db: Tables, a: nat, b: nat)
    requires Ready(p, db) && a in RowsAt(p, Count(p)) && b in RowsAt(p, Count(p))
    requires SlotOf(RowsAt(p, Count(p))[a]) == SlotOf(RowsAt(p, Count(p))[b])
    ensures a == b
  {
    FoldThen(p, Count(p), a);
    FoldThen(p, Count(p), b);
    if Considered(p, a) && Considered(p, b) {
      AllWritten(p, a);
      AllWritten(p, b);
    } else if Considered(p, a) {
      AllWritten(p, a);
      hide RowsAt, Survivor, AllFolds, Inv, Scanned, NewFold;
      PermanentElsewhere(p, db, a, b);
    } else if Considered(p, b) {
      AllWritten(p, b);
      hide RowsAt, Survivor, AllFolds, Inv, Scanned, NewFold;
      PermanentElsewhere(p, db, b, a);
    } else {
      assert UniqueSlots(db);
      hide RowsAt, Survivor, AllFolds, Inv, Scanned, NewFold;
    }
  }

  lemma PermanentElsewhere(p: Pass, db: Tables, a: nat, b: nat)
    requires Ready(p, db) && Considered(p, a) && b in p.rows && !Considered(p, b)
    ensures Slot(p.user, p.network, NewFold(p, a)) != SlotOf(p.rows[b])
  {
    hide NewFold, Inv, Scanned;
    if OrZero(p.rows[b].network) == p.network && p.rows[b].user == p.user {
      KeyOfNetwork(p, db, b);
      assert Permanent(p.rows[b].kind);
      assert NewFold(p, a) != p.rows[b].folded;
    }
  }

  function KeyOf(p: Pass, id: nat): Option<string> { if id in p.rows then p.rows[id].key else None }

  /** The key of the best-ranked row that has one. */
  function FirstKey(p: Pass, ids: seq<nat>): Option<string> {
    if ids == [] then None else if KeyOf(p, ids[0]).Some? then KeyOf(p, ids[0]) else FirstKey(p, ids[1..])
  }

  lemma {:induction false} AbsorbedUnion(p: Pass, r: Row, ids: seq<nat>)
    ensures var m := AbsorbAll(p, r, ids);
            && (m.open <==> r.open || exists id <- ids :: Open(p, id))
            && (m.autojoin <==> r.autojoin || exists id <- ids :: id in p.rows && p.rows[id].autojoin)
            && m.key == if r.key.Some? then r.key else FirstKey(p, ids)
    decreases |ids|
  {
    if ids != [] {
      AbsorbedUnion(p, if ids[0] in p.rows then Union(r, p.rows[ids[0]]) else r, ids[1..]);
      OpenCons(p, ids);
      JoinCons(p, ids);
    }
  }

  lemma OpenCons(p: Pass, ids: seq<nat>)
    requires ids != []
    ensures (exists id <- ids :: Open(p, id)) <==> Open(p, ids[0]) || exists id <- ids[1..] :: Open(p, id)
  {
    assert forall id :: id in ids <==> id == ids[0] || id in ids[1..];
  }

  lemma JoinCons(p: Pass, ids: seq<nat>)
    requires ids != []
    ensures (exists id <- ids :: id in p.rows && p.rows[id].autojoin)
        <==> (ids[0] in p.rows && p.rows[ids[0]].autojoin) || exists id <- ids[1..] :: id in p.rows && p.rows[id].autojoin
  {
    assert forall id :: id in ids <==> id == ids[0] || id in ids[1..];
  }

  /** What the survivor of a row's group is once the pass commits. */
  lemma SurvivorIsUnion(p: Pass, id: nat)
    requires Scanned(p) && Considered(p, id)
    ensures var s := Survivor(p, NewFold(p, id)); var group := Group(p, NewFold(p, id));
            && s in p.rows && (forall i :: i in group <==> Considered(p, i) && NewFold(p, i) == NewFold(p, id))
            && (MergedRow(p, s).open <==> exists i <- group :: Open(p, i))
            && (MergedRow(p, s).autojoin <==> exists i <- group :: p.rows[i].autojoin)
            && MergedRow(p, s).key == FirstKey(p, Ranked(p, group))
  {
    SurvivorOf(p, id);
    MembersAre(p, NewFold(p, id), p.order);
    var s, group := Survivor(p, NewFold(p, id)), Group(p, NewFold(p, id));
    assert id in group;
    var ranked := Ranked(p, group);
    assert ranked[0] == s && forall i :: i in ranked <==> i == s || i in ranked[1..];
    AbsorbedUnion(p, p.rows[s], ranked[1..]);
    assert MergedRow(p, s) == AbsorbAll(p, p.rows[s], ranked[1..]);
    hide Survivor, NewFold, Ranked, AbsorbAll, MergedRow, Group, Scanned;
  }

  /** Every name that led to one of the network's buffers still leads to its group's survivor, which is open
      if any of them was, autojoins if any did, and has the best-ranked key; the mapping is the new one. */
  lemma RefoldKeepsBuffers(p: Pass, db: Tables, id: nat)
    requires Ready(p, db) && RefoldTables(p, db).Some? && Considered(p, id)
    ensures var after := RefoldTables(p, db).value;
            var s := Survivor(p, NewFold(p, id));
            && s in p.rows && Find(after, Address(p.lower, after, Name(p.user, Some(p.network), p.rows[id].target))) == Some(s)
            && after.rows[s] == MergedRow(p, s).(folded := NewFold(p, id))
            && MappingOf(after.networks, p.network) == Some(p.mapping)
  {
    var after := RefoldTables(p, db).value;
    var s := Survivor(p, NewFold(p, id));
    RefoldCommitsIff(p, db);
    RefoldKeepsInv(p, db);
    SurvivorOf(p, id);
    AllWritten(p, s);
    SurvivorsStay(p, Count(p), s);
    FoldThen(p, Count(p), s);
    var slot := Address(p.lower, after, Name(p.user, Some(p.network), p.rows[id].target));
    assert slot == Slot(p.user, p.network, NewFold(p, id));
    assert UniqueSlots(after) && after.rows[s] == MergedRow(p, s).(folded := NewFold(p, id));
    hide Survivor, NewFold, RefoldTables, RowsAt, MergedRow, Ready, Inv, Address, Scanned, AllFolds;
    assert Holds(after, slot, s);
  }

  /** Rows of other networks, and permanent ones, are not touched. */
  lemma RefoldLeavesOthers(p: Pass, db: Tables, id: nat)
    requires Ready(p, db) && RefoldTables(p, db).Some? && id in db.rows && !Considered(p, id)
    ensures id in RefoldTables(p, db).value.rows && RefoldTables(p, db).value.rows[id] == db.rows[id]
  {
    RefoldCommitsIff(p, db);
    hide RefoldTables, Ready, AllFolds, Survivor, NewFold;
    assert p.rows == db.rows;
  }

  // ----- which mappings can trip -----

  /** One mapping folds what the other has folded to the same as the name itself. */
  ghost predicate Coarser(lower: string -> string, fine: Option<Mapping>, coarse: Option<Mapping>) {
    forall t :: Fold(lower, coarse, Fold(lower, fine, t)) == Fold(lower, coarse, t)
  }

  /** When either mapping is the coarser, the pass always commits: two rows that would trip either folded
      together before, or fold together now. */
  lemma ComparableMappingsCommit(p: Pass, db: Tables)
    requires Ready(p, db)
    requires var was := MappingOf(db.networks, p.network);
             Coarser(p.lower, was, Some(p.mapping)) || Coarser(p.lower, Some(p.mapping), was)
    requires forall t :: Fold(p.lower, Some(p.mapping), Fold(p.lower, Some(p.mapping), t)) == Fold(p.lower, Some(p.mapping), t)
    requires forall t :: Fold(p.lower, MappingOf(db.networks, p.network), Fold(p.lower, MappingOf(db.networks, p.network), t))
                         == Fold(p.lower, MappingOf(db.networks, p.network), t)
    ensures RefoldTables(p, db).Some?
  {
    RefoldCommitsIff(p, db);
    forall i: nat, j: nat | i < j < Count(p) ensures FoldAt(p, i) != Stored(p, Writer(p, j)) {
      NoTripBetween(p, db, i, j);
    }
    hide Ready, Coarser, FoldAt, Stored, Writer, Count, RefoldTables, RowsAt;
  }

  lemma NoTripBetween(p: Pass, db: Tables, i: nat, j: nat)
    requires Ready(p, db) && i < j < Count(p)
    requires var was := MappingOf(db.networks, p.network);
             Coarser(p.lower, was, Some(p.mapping)) || Coarser(p.lower, Some(p.mapping), was)
    requires forall t :: Fold(p.lower, Some(p.mapping), Fold(p.lower, Some(p.mapping), t)) == Fold(p.lower, Some(p.mapping), t)
    requires forall t :: Fold(p.lower, MappingOf(db.networks, p.network), Fold(p.lower, MappingOf(db.networks, p.network), t))
                         == Fold(p.lower, MappingOf(db.networks, p.network), t)
    ensures FoldAt(p, i) != Stored(p, Writer(p, j))
  {
    var was, now := MappingOf(db.networks, p.network), Some(p.mapping);
    var a, b := Writer(p, i), Writer(p, j);
    WriterIsConsidered(p, i);
    WriterIsConsidered(p, j);
    FoldsDiffer(p, i, j);
    StoredDiffer(p, db, a, b);
    var ta, tb := p.rows[a].target, p.rows[b].target;
    assert Stored(p, a) == Fold(p.lower, was, ta) && Stored(p, b) == Fold(p.lower, was, tb);
    assert FoldAt(p, i) == Fold(p.lower, now, ta) && FoldAt(p, j) == Fold(p.lower, now, tb);
    hide Ready, FoldAt, Stored, Writer, Fold, Scanned, Considered, NewFold, Survives, AllFolds;
    var x, y := FoldAt(p, i), Stored(p, b);
    assert Fold(p.lower, now, x) == x && Fold(p.lower, was, y) == y;
    if Coarser(p.lower, was, now) {
      assert Fold(p.lower, now, y) == Fold(p.lower, now, tb);
    } else {
      assert Fold(p.lower, was, x) == Fold(p.lower, was, ta);
    }
  }

  /** What is assumed of Unicode lower-casing: twice is once, and ASCII-folding a name first changes
      nothing. */
  ghost predicate LowerSound(lower: string -> string) {
    forall t :: lower(lower(t)) == lower(t) && lower(Fold(lower, Some(Ascii), t)) == lower(t)
  }

  predicate Bounded(m: Option<Mapping>) { !Legacy(m) }

  lemma FoldsTwice(lower: string -> string, m: Option<Mapping>)
    requires LowerSound(lower)
    ensures forall t :: Fold(lower, m, Fold(lower, m, t)) == Fold(lower, m, t)
  {
    forall t ensures Fold(lower, m, Fold(lower, m, t)) == Fold(lower, m, t) {
      FoldTwice(lower, m, t);
    }
  }

  lemma BoundedAreComparable(lower: string -> string, fine: Mapping, coarse: Mapping)
    requires Bounded(Some(fine)) && Bounded(Some(coarse)) && UpperBound(fine) <= UpperBound(coarse)
    ensures Coarser(lower, Some(fine), Some(coarse))
  {
    forall t ensures Fold(lower, Some(coarse), Fold(lower, Some(fine), t)) == Fold(lower, Some(coarse), t) {
      forall i | 0 <= i < |t| ensures FoldChar(coarse, FoldChar(fine, t[i])) == FoldChar(coarse, t[i]) {
        assert 'Z' as int == 90 && ']' as int == 93 && '^' as int == 94 && 'A' as int == 65;
      }
    }
  }

  /** The two families that cannot be compared. */
  predicate Crosses(a: Option<Mapping>, b: Option<Mapping>) {
    Legacy(a) && b.Some? && (b.value.Rfc1459? || b.value.Rfc1459Strict?)
  }

  /** A change of mapping that does not cross between lower-casing and the two rfc1459 mappings always
      commits, whatever the rows and the scan order. */
  lemma UncrossedChangesCommit(p: Pass, db: Tables)
    requires Ready(p, db) && LowerSound(p.lower)
    requires var was := MappingOf(db.networks, p.network); !Crosses(was, Some(p.mapping)) && !Crosses(Some(p.mapping), was)
    ensures RefoldTables(p, db).Some?
  {
    var was, now := MappingOf(db.networks, p.network), Some(p.mapping);
    FoldsTwice(p.lower, was);
    FoldsTwice(p.lower, now);
    hide Ready;
    if Bounded(was) && Bounded(now) {
      if UpperBound(was.value) <= UpperBound(now.value) {
        BoundedAreComparable(p.lower, was.value, now.value);
      } else {
        BoundedAreComparable(p.lower, now.value, was.value);
      }
    } else if Legacy(was) {
      assert Coarser(p.lower, now, was);
    } else {
      assert Coarser(p.lower, was, now);
    }
    ComparableMappingsCommit(p, db);
  }

  const A_SMALL := 0xe4 as char
  const A_LARGE := 0xc4 as char

  function ForkRow(target: string, folded: string): Row {
    Row(7, Some(3), target, folded, Channel, true, false, None, None)
  }

  /** Two channels of a network that has declared no mapping yet, apart by an umlaut's case and a bracket. */
  function ForkTables(): Tables {
    Tables(map[1 := ForkRow(['#', A_SMALL, '['], ['#', A_SMALL, '[']), 2 := ForkRow(['#', A_LARGE, '{'], ['#', A_SMALL, '{'])],
           3, map[3 := Network(7, None)])
  }

  function ForkPass(lower: string -> string): Pass {
    Pass(lower, Rfc1459, 7, 3, ForkTables().rows, [1, 2], id => 0)
  }

  /** Crossing over can fail, though the two end up apart: the first one's new fold is what the second
      still has stored, so the key throws and the declared mapping is never stored. */
  lemma CrossingCanFail(lower: string -> string)
    requires lower(['#', A_SMALL, '[']) == ['#', A_SMALL, '['] && lower(['#', A_LARGE, '{']) == ['#', A_SMALL, '{']
    ensures Ready(ForkPass(lower), ForkTables()) && RefoldTables(ForkPass(lower), ForkTables()).None?
    ensures NewFold(ForkPass(lower), 1) != NewFold(ForkPass(lower), 2)
  {
    var p, db := ForkPass(lower), ForkTables();
    ForkFolds(lower);
    ForkReady(lower);
    ForkSurvivors(lower);
    RefoldCommitsIff(p, db);
    hide Ready, RefoldTables, NewFold, Survivor, AllFolds, ForkPass, ForkTables, RowsAt;
    assert FoldAt(p, 0) == Stored(p, Writer(p, 1));
  }

  lemma ForkFolds(lower: string -> string)
    ensures NewFold(ForkPass(lower), 1) == ['#', A_SMALL, '{'] && NewFold(ForkPass(lower), 2) == ['#', A_LARGE, '{']
    ensures ['#', A_SMALL, '{'] != ['#', A_LARGE, '{']
  {
    var p := ForkPass(lower);
    assert '[' as int == 91 && '{' as int == 123 && '#' as int == 35 && '^' as int == 94 && 'A' as int == 65;
    assert '[' + 32 as char == '{';
    assert A_SMALL as int == 228 && A_LARGE as int == 196;
    assert NewFold(p, 1) == ['#', A_SMALL, '{'];
    assert NewFold(p, 2) == ['#', A_LARGE, '{'];
    assert ['#', A_SMALL, '{'][1] != ['#', A_LARGE, '{'][1];
  }

  lemma ForkReady(lower: string -> string)
    requires lower(['#', A_SMALL, '[']) == ['#', A_SMALL, '['] && lower(['#', A_LARGE, '{']) == ['#', A_SMALL, '{']
    ensures Ready(ForkPass(lower), ForkTables())
  {
    var p, db := ForkPass(lower), ForkTables();
    assert db.rows[1].folded[2] == '[' && db.rows[2].folded[2] == '{';
    assert SlotOf(db.rows[1]) != SlotOf(db.rows[2]);
    assert p.order[0] == 1 && p.order[1] == 2;
    hide Fold, NewFold;
  }

  lemma ForkSurvivors(lower: string -> string)
    ensures var p := ForkPass(lower);
            Count(p) == 2 && FoldAt(p, 0) == ['#', A_SMALL, '{'] && Stored(p, Writer(p, 1)) == ['#', A_SMALL, '{']
  {
    var p := ForkPass(lower);
    ForkFolds(lower);
    hide NewFold, Best;
    assert Folds(p, 0) == [];
    assert Folds(p, 1) == [NewFold(p, 1)];
    assert Folds(p, 2) == [NewFold(p, 1), NewFold(p, 2)];
    assert p.order[1..] == [2] && p.order[1..][1..] == [];
    assert Members(p, NewFold(p, 2), [2]) == [2] + Members(p, NewFold(p, 2), []);
    assert Group(p, NewFold(p, 2)) == [2];
  }

  /** The survivor: an open row if there is one, then the one with the latest message, then the oldest. */
  lemma {:induction false} BestOutranks(p: Pass, ids: seq<nat>, i: nat)
    requires i in ids
    ensures var s := Best(p, ids);
            && (Open(p, i) ==> Open(p, s))
            && (Open(p, i) == Open(p, s) ==> p.last(i) <= p.last(s))
            && (Open(p, i) == Open(p, s) && p.last(i) == p.last(s) ==> s <= i)
    decreases |ids|
  {
    if |ids| > 1 {
      if i in ids[1..] {
        BestOutranks(p, ids[1..], i);
      }
      hide Open;
    }
  }
}
