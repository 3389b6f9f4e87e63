/** Favorite buffers (server/db/favoriteBuffers.ts): one global order per user, kept in a position column
    that is rewritten in place. */
module Favorites {
  import opened Options
  import IntSets

  /** One row per user and buffer; the value is its position. */
  type Rows = map<(nat, nat), int>

  /** One user's favorites: buffer id to position. */
  function Of(rows: Rows, user: nat): map<nat, int> {
    map k | k in rows && k.0 == user :: k.1 := rows[k]
  }

  lemma OfRows(rows: Rows, user: nat)
    ensures forall id :: id in Of(rows, user) <==> (user, id) in rows
    ensures forall id <- Of(rows, user) :: Of(rows, user)[id] == rows[(user, id)]
  {
    forall id ensures id in Of(rows, user) <==> (user, id) in rows {
      if (user, id) in rows {
        var k := (user, id);
        assert k in rows && k.0 == user && k.1 == id;
      }
    }
  }

  ghost predicate Distinct(p: map<nat, int>) {
    forall a <- p, b <- p | p[a] == p[b] :: a == b
  }

  ghost predicate NoDups(ids: seq<nat>) {
    forall i, j | 0 <= i < j < |ids| :: ids[i] != ids[j]
  }

  /** The ids in position order. */
  ghost predicate IsOrder(p: map<nat, int>, ids: seq<nat>) {
    && (forall id :: id in ids <==> id in p)
    && (forall i, j | 0 <= i < j < |ids| :: p[ids[i]] < p[ids[j]])
  }

  /** Positions 0, 1, 2, ... in this order. */
  ghost predicate Dense(p: map<nat, int>, ids: seq<nat>) {
    && (forall id :: id in ids <==> id in p)
    && (forall i | 0 <= i < |ids| :: p[ids[i]] == i)
  }

  lemma DenseIsOrder(p: map<nat, int>, ids: seq<nat>)
    requires Dense(p, ids)
    ensures IsOrder(p, ids) && Distinct(p) && NoDups(ids)
  {
    forall a <- p, b <- p | p[a] == p[b] ensures a == b {
      var i :| 0 <= i < |ids| && ids[i] == a;
      var j :| 0 <= j < |ids| && ids[j] == b;
    }
  }

  /** There is only one order. */
  lemma {:induction false} OrderIsUnique(p: map<nat, int>, a: seq<nat>, b: seq<nat>)
    requires IsOrder(p, a) && IsOrder(p, b)
    ensures a == b
    decreases |a|
  {
    if a == [] {
      assert forall id :: id !in p;
      if b != [] {
        NonEmptyOrder(p, b);
      }
    } else {
      SameFirst(p, a, b);
      var q := p - {a[0]};
      TailOrder(p, a);
      TailOrder(p, b);
      hide IsOrder;
      OrderIsUnique(q, a[1..], b[1..]);
      assert a == [a[0]] + a[1..] && b == [b[0]] + b[1..];
    }
  }

  lemma SameFirst(p: map<nat, int>, a: seq<nat>, b: seq<nat>)
    requires IsOrder(p, a) && IsOrder(p, b) && a != []
    ensures b != [] && a[0] == b[0]
  {
    assert a[0] in p;
    var j :| 0 <= j < |b| && b[j] == a[0];
    assert b[0] in p;
    var i :| 0 <= i < |a| && a[i] == b[0];
  }

  lemma NonEmptyOrder(p: map<nat, int>, ids: seq<nat>)
    requires IsOrder(p, ids) && ids != []
    ensures p.Keys != {}
  {
    assert ids[0] in ids && ids[0] in p;
  }

  lemma TailOrder(p: map<nat, int>, a: seq<nat>)
    requires IsOrder(p, a) && a != []
    ensures IsOrder(p - {a[0]}, a[1..])
  {
    forall id ensures id in a[1..] <==> id in p - {a[0]} {
      if id in p && id != a[0] {
        var k :| 0 <= k < |a| && a[k] == id;
        assert a[1..][k - 1] == id;
      }
      if id in a[1..] {
        var k :| 0 <= k < |a| - 1 && a[1..][k] == id;
        assert a[k + 1] == id && p[a[0]] < p[a[k + 1]];
      }
    }
  }

  lemma {:induction false} OrderExists(p: map<nat, int>)
    requires Distinct(p)
    ensures exists ids :: IsOrder(p, ids)
    decreases |p|
  {
    if |p| == 0 {
      assert IsOrder(p, []);
    } else {
      var first := Least(p);
      assert p.Keys == (p - {first}).Keys + {first};
      OrderExists(p - {first});
      var rest :| IsOrder(p - {first}, rest);
      ConsOrder(p, first, rest);
    }
  }

  lemma ConsOrder(p: map<nat, int>, first: nat, rest: seq<nat>)
    requires first in p && IsOrder(p - {first}, rest)
    requires forall k <- p | k != first :: p[first] < p[k]
    ensures IsOrder(p, [first] + rest)
  {
    var ids := [first] + rest;
    forall i, j | 0 <= i < j < |ids| ensures ids[i] in p && ids[j] in p && p[ids[i]] < p[ids[j]] {
      assert ids[j] == rest[j - 1] && rest[j - 1] in rest;
      if i > 0 {
        assert ids[i] == rest[i - 1] && rest[i - 1] in rest;
      }
    }
  }

  lemma Least(p: map<nat, int>) returns (id: nat)
    requires |p| > 0
    ensures id in p && forall k <- p :: p[id] <= p[k]
  {
    var values := set k | k in p :: p[k];
    var any := IntSets.Pick(p.Keys);
    assert p[any] in values;
    var m := IntSets.Min(values);
    id :| id in p && p[id] == m;
    assert forall k <- p :: p[k] in values;
  }

  ghost function Order(p: map<nat, int>): (ids: seq<nat>)
    requires Distinct(p)
    ensures IsOrder(p, ids)
  {
    OrderExists(p);
    var ids :| IsOrder(p, ids);
    ids
  }

  lemma OrderHolds(p: map<nat, int>)
    requires Distinct(p)
    ensures forall id :: id in Order(p) <==> id in p
  {
  }

  function Ids(ids: seq<nat>): set<nat> { set id | id in ids }

  function Without(ids: seq<nat>, gone: set<nat>): seq<nat> {
    if ids == [] then [] else (if ids[0] in gone then [] else [ids[0]]) + Without(ids[1..], gone)
  }

  lemma {:induction false} WithoutKeepsOrder(p: map<nat, int>, ids: seq<nat>, gone: set<nat>)
    requires IsOrder(p, ids)
    ensures IsOrder(p - gone, Without(ids, gone))
    decreases |ids|
  {
    if ids == [] {
      assert p - gone == p;
    } else {
      TailOrder(p, ids);
      FirstIsLeast(p, ids);
      WithoutStep(ids, gone);
      WithoutKeepsOrder(p - {ids[0]}, ids[1..], gone);
      DropTwice(p, ids[0], gone);
      hide IsOrder, Without;
      if ids[0] in gone {
        assert [] + Without(ids[1..], gone) == Without(ids[1..], gone);
      } else {
        ConsOrder(p - gone, ids[0], Without(ids[1..], gone));
      }
    }
  }

  lemma DropTwice(p: map<nat, int>, id: nat, gone: set<nat>)
    ensures p - {id} - gone == p - gone - {id}
    ensures id in gone ==> p - {id} - gone == p - gone
  {
  }

  lemma FirstIsLeast(p: map<nat, int>, ids: seq<nat>)
    requires IsOrder(p, ids) && ids != []
    ensures ids[0] in p && forall k <- p | k != ids[0] :: p[ids[0]] < p[k]
  {
    assert ids[0] in ids;
    forall k <- p | k != ids[0] ensures p[ids[0]] < p[k] {
      var n :| 0 <= n < |ids| && ids[n] == k;
    }
  }

  // ----- the operations on one user's favorites -----

  function Positions(p: map<nat, int>): set<int> { set k | k in p :: p[k] }

  /** COALESCE(MAX(position), -1) + 1. */
  function Next(p: map<nat, int>): int {
    if Positions(p) == {} then 0 else IntSets.Max(Positions(p)) + 1
  }

  lemma NextIsLast(p: map<nat, int>)
    ensures forall k <- p :: p[k] < Next(p)
  {
    assert forall k <- p :: p[k] in Positions(p);
  }

  function Favorite(p: map<nat, int>, id: nat): map<nat, int> {
    if id in p then p else p[id := Next(p)]
  }

  /** A new favorite stands right behind the last position, the first one at 0; the others stay where they are. */
  lemma FavoritePosition(p: map<nat, int>, id: nat)
    ensures id in p ==> Favorite(p, id) == p
    ensures id !in p ==>
      && Favorite(p, id).Keys == p.Keys + {id} && (forall k <- p :: Favorite(p, id)[k] == p[k])
      && (p == map[] ==> Favorite(p, id)[id] == 0)
      && (forall k <- p :: p[k] < Favorite(p, id)[id])
      && (p != map[] ==> exists k <- p :: p[k] + 1 == Favorite(p, id)[id])
  {
    if p != map[] {
      assert exists k :: k in p;
      var k :| k in p;
      assert p[k] in Positions(p);
      assert IntSets.Max(Positions(p)) in Positions(p);
    }
    forall k | k in p ensures p[k] in Positions(p) {}
  }

  /** A buffer that goes takes its favorite; one absorbed by another leaves its place to a survivor that has
      none. */
  lemma AbsorbedPlace(p: map<nat, int>, survivor: nat, absorbed: nat, id: nat)
    requires Distinct(p) && survivor != absorbed
    ensures id in Apply(p, BufferGone(absorbed)) <==> id in p && id != absorbed
    ensures var after := Apply(p, Absorb(survivor, absorbed));
      && absorbed !in after
      && (id in p && id != absorbed ==> id in after && after[id] == p[id])
      && (absorbed in p && survivor !in p ==> survivor in after && after[survivor] == p[absorbed])
      && (id in after && id !in p ==> id == survivor && absorbed in p)
  {
  }

  /** A favorite goes to the end; one that is there keeps its place. */
  lemma FavoriteAppends(p: map<nat, int>, id: nat)
    requires Distinct(p)
    ensures Distinct(Favorite(p, id))
    ensures Order(Favorite(p, id)) == if id in p then Order(p) else Order(p) + [id]
  {
    NextIsLast(p);
    hide Next;
    if id !in p {
      var q, ids := Favorite(p, id), Order(p) + [id];
      forall i, j | 0 <= i < j < |ids| ensures q[ids[i]] < q[ids[j]] {
        assert ids[i] in p && (j < |ids| - 1 ==> ids[j] in p);
      }
      OrderIsUnique(q, Order(q), ids);
    }
  }

  /** Renumbered in this order. */
  ghost function Numbered(ids: seq<nat>): map<nat, int> {
    map id | id in ids :: PlaceOf(ids, id)
  }

  ghost function PlaceOf(ids: seq<nat>, id: nat): nat
    requires id in ids
    ensures PlaceOf(ids, id) < |ids| && ids[PlaceOf(ids, id)] == id
  {
    var i: nat :| i < |ids| && ids[i] == id;
    i
  }

  lemma NumberedIsDense(ids: seq<nat>)
    requires NoDups(ids)
    ensures Dense(Numbered(ids), ids) && Distinct(Numbered(ids)) && Order(Numbered(ids)) == ids
    ensures forall p | Dense(p, ids) :: p == Numbered(ids)
  {
    var p := Numbered(ids);
    forall i | 0 <= i < |ids| ensures p[ids[i]] == i {
      assert PlaceOf(ids, ids[i]) == i;
    }
    DenseIsOrder(p, ids);
    OrderIsUnique(p, Order(p), ids);
    forall q | Dense(q, ids) ensures q == p {
      forall id ensures id in q <==> id in p {
      }
      forall id <- q ensures q[id] == p[id] {
        assert q[ids[PlaceOf(ids, id)]] == PlaceOf(ids, id);
      }
    }
  }

  ghost function Renumbered(p: map<nat, int>): map<nat, int>
    requires Distinct(p)
  {
    Numbered(Order(p))
  }

  lemma OrderHasNoDups(p: map<nat, int>)
    requires Distinct(p)
    ensures NoDups(Order(p))
  {
    var ids := Order(p);
    forall i, j | 0 <= i < j < |ids| ensures ids[i] != ids[j] {
      assert p[ids[i]] < p[ids[j]];
    }
  }

  /** Renumbering makes positions 0..n-1 and changes no order; once dense it changes nothing. */
  lemma RenumberKeepsOrder(p: map<nat, int>)
    requires Distinct(p)
    ensures var q := Renumbered(p);
            Distinct(q) && Order(q) == Order(p) && Dense(q, Order(p)) && Renumbered(q) == q
  {
    OrderHasNoDups(p);
    NumberedIsDense(Order(p));
  }

  ghost function Unfavorite(p: map<nat, int>, id: nat): map<nat, int>
    requires Distinct(p)
  {
    if id in p then Renumbered(p - {id}) else p
  }

  /** Unfavoriting takes exactly that one out of the order. */
  lemma UnfavoriteRemoves(p: map<nat, int>, id: nat)
    requires Distinct(p)
    ensures Distinct(Unfavorite(p, id)) && Order(Unfavorite(p, id)) == Without(Order(p), {id})
    ensures id in p ==> Dense(Unfavorite(p, id), Without(Order(p), {id}))
  {
    WithoutKeepsOrder(p, Order(p), {id});
    OrderIsUnique(p - {id}, Order(p - {id}), Without(Order(p), {id}));
    RenumberKeepsOrder(p - {id});
    if id !in p {
      assert p - {id} == p;
    }
  }

  /** A list a reorder accepts: favorites only, none twice. */
  ghost predicate Accepted(p: map<nat, int>, ids: seq<nat>) {
    NoDups(ids) && forall id <- ids :: id in p
  }

  /** The named ones in front, the others after them as they were. */
  ghost function Reordered(p: map<nat, int>, ids: seq<nat>): seq<nat>
    requires Distinct(p)
  {
    ids + Without(Order(p), Ids(ids))
  }

  lemma {:induction false} WithoutIn(ids: seq<nat>, gone: set<nat>)
    ensures forall id :: id in Without(ids, gone) <==> id in ids && id !in gone
    ensures NoDups(ids) ==> NoDups(Without(ids, gone))
    decreases |ids|
  {
    if ids != [] {
      WithoutIn(ids[1..], gone);
      assert forall id :: id in ids <==> id == ids[0] || id in ids[1..];
      if NoDups(ids) {
        assert forall k | 0 <= k < |ids| - 1 :: ids[1..][k] == ids[k + 1] && ids[k + 1] != ids[0];
        assert NoDups(ids[1..]);
      }
    }
  }

  /** An accepted reorder is a permutation of the favorites, in the asked-for order in front and the old
      order behind, with dense positions. */
  lemma ReorderPermutes(p: map<nat, int>, ids: seq<nat>)
    requires Distinct(p) && Accepted(p, ids)
    ensures var next := Reordered(p, ids);
            && NoDups(next) && (forall id :: id in next <==> id in p)
            && Distinct(Numbered(next)) && Order(Numbered(next)) == next && Dense(Numbered(next), next)
  {
    OrderHasNoDups(p);
    var named := Ids(ids);
    WithoutIn(Order(p), named);
    var rest, next := Without(Order(p), named), Reordered(p, ids);
    forall i, j | 0 <= i < j < |next| ensures next[i] != next[j] {
      if i < |ids| <= j {
        assert next[i] in named && next[j] == rest[j - |ids|] && rest[j - |ids|] in rest;
      } else if |ids| <= i {
        assert next[i] == rest[i - |ids|] && next[j] == rest[j - |ids|];
      }
    }
    forall id ensures id in next <==> id in p {
      assert id in next <==> id in ids || id in rest;
      assert id in ids ==> id in named;
      assert id in named ==> id in ids;
    }
    NumberedIsDense(next);
  }

  // ----- runs -----

  /** What happens to a user's favorites; a buffer deleted with its network takes its row along and leaves
      a hole, a merge hands an absorbed buffer's place to a survivor that has none. */
  datatype Op =
    | AddFavorite(id: nat)
    | DropFavorite(id: nat)
    | Renumber
    | Reorder(ids: seq<nat>)
    | BufferGone(id: nat)
    | Absorb(survivor: nat, absorbed: nat)

  ghost function Apply(p: map<nat, int>, op: Op): map<nat, int>
    requires Distinct(p)
  {
    match op
    case AddFavorite(id) => Favorite(p, id)
    case DropFavorite(id) => Unfavorite(p, id)
    case Renumber => Renumbered(p)
    case Reorder(ids) => if Accepted(p, ids) then Numbered(Reordered(p, ids)) else p
    case BufferGone(id) => p - {id}
    case Absorb(survivor, absorbed) =>
      if absorbed in p && survivor !in p then (p - {absorbed})[survivor := p[absorbed]] else p - {absorbed}
  }

  lemma StepKeepsDistinct(p: map<nat, int>, op: Op)
    requires Distinct(p)
    ensures Distinct(Apply(p, op))
  {
    match op
    case AddFavorite(id) => FavoriteAppends(p, id);
    case DropFavorite(id) => UnfavoriteRemoves(p, id);
    case Renumber => RenumberKeepsOrder(p);
    case Reorder(ids) => if Accepted(p, ids) { ReorderPermutes(p, ids); }
    case BufferGone(id) =>
    case Absorb(survivor, absorbed) =>
  }

  /** A reorder is taken exactly when it names favorites, none of them twice; then those named stand at the
      front as named, and the others behind them in the order they had. Otherwise nothing changes. */
  lemma ReorderStep(p: map<nat, int>, ids: seq<nat>)
    requires Distinct(p)
    ensures var after := Apply(p, Reorder(ids));
      if (forall i | 0 <= i < |ids| :: ids[i] in p) && (forall i, j | 0 <= i < j < |ids| :: ids[i] != ids[j])
      then && after.Keys == p.Keys
           && (forall i | 0 <= i < |ids| :: after[ids[i]] == i)
           && (forall id <- p | id !in ids :: |ids| <= after[id] < |p|)
           && (forall a <- p, b <- p | a !in ids && b !in ids :: after[a] < after[b] <==> p[a] < p[b])
      else after == p
  {
    if Accepted(p, ids) {
      var next, rest := Reordered(p, ids), Without(Order(p), Ids(ids));
      assert next == ids + rest;
      ReorderPermutes(p, ids);
      OrderCounts(p, next);
      WithoutRises(p, Order(p), Ids(ids));
      hide Reordered, Ids, Without, Accepted, Numbered, Distinct, NoDups, IsOrder;
      PlacesAre(p, ids, rest, Numbered(next));
    }
  }

  lemma PlacesAre(p: map<nat, int>, ids: seq<nat>, rest: seq<nat>, after: map<nat, int>)
    requires Dense(after, ids + rest) && |ids + rest| == |p| && forall id :: id in ids + rest <==> id in p
    requires forall i, j | 0 <= i < j < |rest| :: rest[i] in p && rest[j] in p && p[rest[i]] < p[rest[j]]
    ensures after.Keys == p.Keys
    ensures forall i | 0 <= i < |ids| :: after[ids[i]] == i
    ensures forall id <- p | id !in ids :: |ids| <= after[id] < |p|
    ensures forall a <- p, b <- p | a !in ids && b !in ids :: after[a] < after[b] <==> p[a] < p[b]
  {
    var next := ids + rest;
    forall i | 0 <= i < |ids| ensures after[ids[i]] == i {
      assert next[i] == ids[i];
    }
    forall id | id in p && id !in ids ensures |ids| <= after[id] < |p| && rest[after[id] - |ids|] == id {
      var i :| 0 <= i < |next| && next[i] == id;
      assert i < |ids| ==> next[i] == ids[i];
    }
  }

  /** Taking some out leaves the others in order. */
  lemma {:induction false} WithoutRises(p: map<nat, int>, order: seq<nat>, gone: set<nat>)
    requires (forall id <- order :: id in p) && forall i, j | 0 <= i < j < |order| :: p[order[i]] < p[order[j]]
    ensures forall id <- Without(order, gone) :: id in order && id in p
    ensures forall i, j | 0 <= i < j < |Without(order, gone)| :: p[Without(order, gone)[i]] < p[Without(order, gone)[j]]
  {
    if order != [] {
      WithoutRises(p, order[1..], gone);
      var rest := Without(order[1..], gone);
      forall id | id in rest ensures p[order[0]] < p[id] {
        assert id in order[1..];
      }
    }
  }

  lemma OrderCounts(p: map<nat, int>, ids: seq<nat>)
    requires NoDups(ids) && forall id :: id in ids <==> id in p
    ensures |ids| == |p|
  {
    SetOfNoDups(ids);
    assert p.Keys == Ids(ids);
  }

  lemma {:induction false} SetOfNoDups(ids: seq<nat>)
    requires NoDups(ids)
    ensures |Ids(ids)| == |ids|
  {
    if ids == [] {
      assert Ids(ids) == {};
    } else {
      var tail := Ids(ids[1..]);
      SetOfNoDups(ids[1..]);
      assert ids[0] !in tail;
      assert Ids(ids) == tail + {ids[0]};
    }
  }

  /** What a run leaves of one user's favorites, none at first: no two ever share a position. */
  ghost function After(ops: seq<Op>): (p: map<nat, int>)
    ensures Distinct(p)
    decreases |ops|
  {
    if ops == [] then map[]
    else
      var before := After(ops[..|ops| - 1]);
      StepKeepsDistinct(before, ops[|ops| - 1]);
      Apply(before, ops[|ops| - 1])
  }

  // ----- the table in place -----

  /** A resolved buffer. */
  datatype Buffer = Buffer(id: nat, open: bool)

  class FavoriteStore {
    var rows: Rows

    constructor ()
      ensures rows == map[]
    {
      rows := map[];
    }

    /** Other users' rows are as they were. */
    twostate predicate OthersUntouched(user: nat)
      reads this
    {
      forall k: (nat, nat) | k.0 != user :: (k in rows <==> k in old(rows)) && (k in rows ==> rows[k] == old(rows)[k])
    }

    method SetPosition(position: int, user: nat, id: nat)
      requires (user, id) in rows
      modifies this
      ensures rows == old(rows)[(user, id) := position]
    {
      rows := rows[(user, id) := position];
    }

    method RenumberFavorites(user: nat)
      requires Distinct(Of(rows, user))
      modifies this
      ensures Of(rows, user) == Renumbered(old(Of(rows, user))) && OthersUntouched(user)
    {
      var remaining := SelectOrdered(Of(rows, user));
      OrderHasNoDups(Of(rows, user));
      hide Of, NoDups, Distinct, Numbered;
      SetPositions(user, remaining);
    }

    /** Each row gets its place in the order. */
    method SetPositions(user: nat, order: seq<nat>)
      requires NoDups(order) && forall id :: id in order <==> id in Of(rows, user)
      modifies this
      ensures Of(rows, user) == Numbered(order) && OthersUntouched(user)
    {
      ghost var before := rows;
      OfRows(rows, user);
      hide Of;
      for i := 0 to |order|
        invariant rows.Keys == before.Keys
        invariant forall k <- rows | k.0 != user :: rows[k] == before[k]
        invariant forall n | 0 <= n < |order| :: (user, order[n]) in rows
        invariant forall n | 0 <= n < i :: rows[(user, order[n])] == n
      {
        assert forall n | 0 <= n < i :: order[n] != order[i];
        if rows[(user, order[i])] != i {
          SetPosition(i, user, order[i]);
        }
      }
      hide NoDups;
      OfRows(rows, user);
      assert Dense(Of(rows, user), order);
      hide Dense, Numbered, Distinct;
      NumberedIsDense(order);
    }

    /** True when a row was added. */
    method FavoriteBuffer(user: nat, found: Option<Buffer>) returns (added: bool)
      requires Distinct(Of(rows, user))
      modifies this
      ensures Of(rows, user) == if found.Some? && found.value.open then Favorite(old(Of(rows, user)), found.value.id) else old(Of(rows, user))
      ensures added <==> found.Some? && found.value.open && found.value.id !in old(Of(rows, user))
      ensures OthersUntouched(user)
    {
      if found.None? || !found.value.open {
        return false;
      }
      var next := Next(Of(rows, user));
      added := (user, found.value.id) !in rows;
      if added {
        rows := rows[(user, found.value.id) := next];
      }
    }

    method UnfavoriteBuffer(user: nat, found: Option<nat>) returns (removed: bool)
      requires Distinct(Of(rows, user))
      modifies this
      ensures Of(rows, user) == if found.Some? then Unfavorite(old(Of(rows, user)), found.value) else old(Of(rows, user))
      ensures removed <==> found.Some? && found.value in old(Of(rows, user))
      ensures OthersUntouched(user)
    {
      if found.None? {
        return false;
      }
      removed := (user, found.value) in rows;
      if removed {
        ghost var before := Of(rows, user);
        rows := rows - {(user, found.value)};
        assert Of(rows, user) == before - {found.value};
        RenumberFavorites(user);
      }
    }

    /** None refuses a list with an unknown or repeated id. */
    method ReorderFavorites(user: nat, bufferIds: seq<nat>) returns (next: Option<seq<nat>>)
      requires Distinct(Of(rows, user))
      modifies this
      ensures next.Some? <==> Accepted(old(Of(rows, user)), bufferIds)
      ensures next.None? ==> rows == old(rows)
      ensures next.Some? ==> next.value == Reordered(old(Of(rows, user)), bufferIds) && Of(rows, user) == Numbered(next.value)
      ensures OthersUntouched(user)
    {
      hide Of, Accepted, NoDups, Distinct, Numbered, Without, IsOrder, Ids;
      var currentIds := SelectOrdered(Of(rows, user));
      OrderHolds(Of(rows, user));
      var seen := Named(Of(rows, user), currentIds, bufferIds);
      if seen.None? {
        return None;
      }
      var others := Unnamed(currentIds, seen.value);
      var order := bufferIds + others;
      ReorderPermutes(Of(rows, user), bufferIds);
      assert order == Reordered(Of(rows, user), bufferIds);
      hide Reordered;
      SetPositions(user, order);
      next := Some(order);
    }
  }

  /** SELECT ... ORDER BY position. */
  method SelectOrdered(p: map<nat, int>) returns (ids: seq<nat>)
    requires Distinct(p)
    ensures ids == Order(p)
  {
    hide IsOrder, Distinct;
    var left := p;
    ghost var rest := Order(p);
    ids := [];
    while left.Keys != {}
      invariant IsOrder(left, rest) && Order(p) == ids + rest
      decreases |left.Keys|
    {
      ghost var least := Least(left);
      HasFirst(left, rest, least);
      var id: nat :| id in left && forall k <- left :: left[id] <= left[k];
      rest := DropFirst(left, rest, id);
      ids, left := ids + [id], left - {id};
    }
    if rest != [] {
      NonEmptyOrder(left, rest);
    }
  }

  lemma HasFirst(p: map<nat, int>, ids: seq<nat>, id: nat)
    requires IsOrder(p, ids) && id in p
    ensures ids != []
  {
    assert id in ids;
  }

  lemma DropFirst(p: map<nat, int>, ids: seq<nat>, id: nat) returns (rest: seq<nat>)
    requires IsOrder(p, ids) && ids != [] && id in p && forall k <- p :: p[id] <= p[k]
    ensures ids == [id] + rest && IsOrder(p - {id}, rest) && (p - {id}).Keys == p.Keys - {id}
  {
    hide IsOrder;
    FirstIsLeast(p, ids);
    TailOrder(p, ids);
    assert ids[0] == id && ids == [id] + ids[1..];
    rest := ids[1..];
  }

  /** The set of a list of current favorites; None for an unknown or repeated one. */
  method Named(ghost p: map<nat, int>, current: seq<nat>, ids: seq<nat>) returns (seen: Option<set<nat>>)
    requires forall id :: id in current <==> id in p
    ensures seen.Some? <==> Accepted(p, ids)
    ensures seen.Some? ==> seen.value == Ids(ids)
  {
    var found: set<nat> := {};
    for i := 0 to |ids|
      invariant found == Ids(ids[..i])
      invariant Accepted(p, ids[..i])
    {
      assert ids[..i + 1] == ids[..i] + [ids[i]];
      if ids[i] !in current || ids[i] in found {
        assert ids[i] in ids && (ids[i] in found ==> exists k | 0 <= k < i :: ids[..i][k] == ids[i]);
        return None;
      }
      found := found + {ids[i]};
    }
    assert ids[..|ids|] == ids;
    return Some(found);
  }

  method Unnamed(ids: seq<nat>, named: set<nat>) returns (others: seq<nat>)
    ensures others == Without(ids, named)
  {
    others := [];
    assert ids[0..] == ids;
    WithoutNone(ids[|ids|..], named);
    for i := 0 to |ids|
      invariant Without(ids, named) == others + Without(ids[i..], named)
    {
      assert ids[i..][0] == ids[i] && ids[i..][1..] == ids[i + 1..];
      WithoutStep(ids[i..], named);
      hide Without;
      if ids[i] !in named {
        others := others + [ids[i]];
      }
    }
  }

  lemma WithoutNone(ids: seq<nat>, gone: set<nat>)
    requires ids == []
    ensures Without(ids, gone) == []
  {
  }

  lemma WithoutStep(ids: seq<nat>, gone: set<nat>)
    requires ids != []
    ensures Without(ids, gone) == (if ids[0] in gone then [] else [ids[0]]) + Without(ids[1..], gone)
  {
  }
}
