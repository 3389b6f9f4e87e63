/** The case-fold repair is lossless and idempotent (server/db/foldBufferCase.ts). */
module FoldRepairProofs {
  import opened Options
  import opened CaseFold
  import opened FoldRepair

  // ----- the canonical choice -----

  predicate Candidate(messages: seq<Message>, scope: Scope, g: Group, m: Message) {
    m in messages && InScope(scope, m.target) && GroupOf(m) == g
  }

  lemma BeatsTransitive(messages: seq<Message>, a: Message, b: Message, c: Message)
    requires !Beats(messages, a, b) && Beats(messages, c, b)
    requires a.network == b.network == c.network
    ensures !Beats(messages, a, c)
  {
    TextOrderTotal(a.target, b.target);
    TextOrderTotal(a.target, c.target);
    if TextBefore(a.target, c.target) && TextBefore(c.target, b.target) {
      TextOrderTransitive(a.target, c.target, b.target);
    }
  }

  lemma {:induction false} BestBeatsAll(messages: seq<Message>, scope: Scope, g: Group, n: nat)
    requires n <= |messages|
    ensures var best := Best(messages, scope, g, n);
      && (best.Some? ==> Candidate(messages, scope, g, best.value))
      && (forall i | 0 <= i < n && Candidate(messages, scope, g, messages[i]) ::
            best.Some? && !Beats(messages, messages[i], best.value))
  {
    if n > 0 {
      BestBeatsAll(messages, scope, g, n - 1);
      var m, before := messages[n - 1], Best(messages, scope, g, n - 1);
      if Candidate(messages, scope, g, m) {
        TextOrderIrreflexive(m.target);
        if before.Some? && Beats(messages, m, before.value) {
          forall i | 0 <= i < n - 1 && Candidate(messages, scope, g, messages[i])
            ensures !Beats(messages, messages[i], m)
          {
            BeatsTransitive(messages, messages[i], before.value, m);
          }
        }
      }
    }
  }

  /** The canonical spelling of a name is the one most messages carry, the first in binary order among
      equals; a name no message carries has none. */
  lemma CanonIsMostUsed(messages: seq<Message>, scope: Scope, g: Group)
    ensures var canon := CanonTable(messages, scope);
      && (g in canon <==> exists m :: Candidate(messages, scope, g, m))
      && (g in canon ==>
            && Candidate(messages, scope, g, Message(g.0, canon[g]))
            && forall m :: Candidate(messages, scope, g, m) ==> !Beats(messages, m, Message(g.0, canon[g])))
  {
    BestBeatsAll(messages, scope, g, |messages|);
    var best := Best(messages, scope, g, |messages|);
    if best.Some? {
      assert best.value in messages && GroupOf(best.value) == g;
      assert best.value == Message(g.0, best.value.target);
    }
    forall m | Candidate(messages, scope, g, m) ensures best.Some? && !Beats(messages, m, best.value) {
      var i :| 0 <= i < |messages| && messages[i] == m;
    }
  }

  lemma LowerKeepsScope(scope: Scope, a: string, b: string)
    requires Lower(a) == Lower(b)
    ensures InScope(scope, a) <==> InScope(scope, b)
  {
    assert |Lower(a)| == |a| && |Lower(b)| == |b|;
    if a != "" {
      assert LowerChar(a[0]) == Lower(a)[0] == Lower(b)[0] == LowerChar(b[0]);
    }
  }

  /** A canonical table: what a group maps to is a spelling of that group. */
  ghost predicate CanonValid(canon: Canon, scope: Scope) {
    forall g <- canon :: Lower(canon[g]) == g.1 && InScope(scope, canon[g])
  }

  lemma CanonTableValid(messages: seq<Message>, scope: Scope)
    ensures CanonValid(CanonTable(messages, scope), scope)
  {
    forall g | g in CanonTable(messages, scope)
      ensures Lower(CanonTable(messages, scope)[g]) == g.1 && InScope(scope, CanonTable(messages, scope)[g])
    {
      CanonIsMostUsed(messages, scope, g);
    }
  }

  /** Folding keeps the folded name, and a folded name is folded for good. */
  lemma FoldedIsCanonical(canon: Canon, scope: Scope, network: Option<nat>, target: string)
    requires CanonValid(canon, scope)
    ensures var to := Folded(canon, scope, network, target);
            Lower(to) == Lower(target) && Folded(canon, scope, network, to) == to
  {
    var to := Folded(canon, scope, network, target);
    if to != target {
      LowerKeepsScope(scope, to, target);
    }
  }

  /** After the fold the table of canonical spellings is the same one. */
  lemma CanonIsStable(messages: seq<Message>, scope: Scope)
    ensures var canon := CanonTable(messages, scope);
            CanonTable(FoldMessages(canon, scope, messages), scope) == canon
  {
    var canon := CanonTable(messages, scope);
    var after := FoldMessages(canon, scope, messages);
    CanonTableValid(messages, scope);
    forall g ensures g in CanonTable(after, scope) <==> g in canon
             ensures g in canon ==> CanonTable(after, scope)[g] == canon[g]
    {
      CanonOfGroup(messages, scope, g);
    }
    assert CanonTable(after, scope).Keys == canon.Keys;
  }

  lemma FoldedMessage(messages: seq<Message>, scope: Scope, i: nat)
    requires i < |messages|
    ensures var canon := CanonTable(messages, scope);
      var m, m' := messages[i], FoldMessages(canon, scope, messages)[i];
      && m'.network == m.network && Lower(m'.target) == Lower(m.target)
      && (InScope(scope, m.target) <==> InScope(scope, m'.target))
      && (InScope(scope, m.target) ==> GroupOf(m) in canon && m'.target == canon[GroupOf(m)])
      && (!InScope(scope, m.target) ==> m' == m)
  {
    var canon, m := CanonTable(messages, scope), messages[i];
    CanonTableValid(messages, scope);
    FoldedIsCanonical(canon, scope, Some(m.network), m.target);
    LowerKeepsScope(scope, m.target, Folded(canon, scope, Some(m.network), m.target));
    if InScope(scope, m.target) {
      CanonIsMostUsed(messages, scope, GroupOf(m));
      assert Candidate(messages, scope, GroupOf(m), m);
    }
  }

  lemma CanonOfGroup(messages: seq<Message>, scope: Scope, g: Group)
    ensures var canon := CanonTable(messages, scope);
      var again := CanonTable(FoldMessages(canon, scope, messages), scope);
      (g in again <==> g in canon) && (g in canon ==> again[g] == canon[g])
  {
    hide CanonTable;
    var canon := CanonTable(messages, scope);
    var after := FoldMessages(canon, scope, messages);
    CanonIsMostUsed(messages, scope, g);
    CanonIsMostUsed(after, scope, g);
    if g in canon {
      var i :| 0 <= i < |messages| && messages[i] == Message(g.0, canon[g]);
      FoldedMessage(messages, scope, i);
      assert Candidate(after, scope, g, after[i]);
    }
    if g in CanonTable(after, scope) {
      var c := Message(g.0, CanonTable(after, scope)[g]);
      var i :| 0 <= i < |after| && after[i] == c;
      FoldedMessage(messages, scope, i);
      assert Candidate(messages, scope, g, messages[i]);
    }
  }

  // ----- messages and history -----

  /** Every message is kept, in its place, under a spelling of the same name; none is off-case. */
  lemma MessagesAreKept(messages: seq<Message>, scope: Scope, rows: seq<Message>, i: nat)
    requires i < |rows|
    ensures var canon := CanonTable(messages, scope);
      var rows' := FoldMessages(canon, scope, rows);
      && |rows'| == |rows|
      && GroupOf(rows'[i]) == GroupOf(rows[i])
      && Folded(canon, scope, Some(rows'[i].network), rows'[i].target) == rows'[i].target
  {
    CanonTableValid(messages, scope);
    FoldedIsCanonical(CanonTable(messages, scope), scope, Some(rows[i].network), rows[i].target);
  }

  // ----- merged rows -----

  lemma {:induction false} AbsorbKeys<V>(
      t: map<Key, V>, rows: map<Key, V>, order: seq<Key>, canon: Canon, scope: Scope, merge: (V, V) -> V, k: Key)
    ensures k in Absorb(t, rows, order, canon, scope, merge) <==>
            || k in t
            || exists o <- order :: o in rows && OffCase(canon, scope, o) && FoldKey(canon, scope, o) == k
    decreases |order|
  {
    hide OffCase, FoldKey;
    if order != [] {
      assert forall o :: o in order <==> o == order[0] || o in order[1..];
      if order[0] in rows && OffCase(canon, scope, order[0]) {
        AbsorbKeys(Upsert(t, FoldKey(canon, scope, order[0]), rows[order[0]], merge), rows, order[1..], canon, scope, merge, k);
      } else {
        AbsorbKeys(t, rows, order[1..], canon, scope, merge, k);
      }
    }
  }

  /** A measure the merge takes the maximum of ends up as the maximum over everything absorbed. */
  lemma {:induction false} AbsorbMax<V>(
      t: map<Key, V>, rows: map<Key, V>, order: seq<Key>, canon: Canon, scope: Scope, merge: (V, V) -> V, f: V -> int, k: Key)
    requires forall a, b :: f(merge(a, b)) == Max(f(a), f(b))
    requires k in Absorb(t, rows, order, canon, scope, merge)
    ensures var r := f(Absorb(t, rows, order, canon, scope, merge)[k]);
      && (k in t ==> f(t[k]) <= r)
      && (forall o <- order :: o in rows && OffCase(canon, scope, o) && FoldKey(canon, scope, o) == k ==> f(rows[o]) <= r)
      && ((k in t && f(t[k]) == r)
          || exists o <- order :: o in rows && OffCase(canon, scope, o) && FoldKey(canon, scope, o) == k && f(rows[o]) == r)
    decreases |order|
  {
    hide OffCase, FoldKey;
    if order != [] {
      assert forall o :: o in order <==> o == order[0] || o in order[1..];
      var t' := if order[0] in rows && OffCase(canon, scope, order[0])
                then Upsert(t, FoldKey(canon, scope, order[0]), rows[order[0]], merge) else t;
      AbsorbMax(t', rows, order[1..], canon, scope, merge, f, k);
    }
  }

  /** A row that is a spelling of k: k itself or an off-case variant of it. */
  predicate Variant<V>(t: map<Key, V>, canon: Canon, scope: Scope, k: Key, o: Key) {
    o in t && FoldKey(canon, scope, o) == k
  }

  /** Repair keeps a row for a canonical key exactly when some variant had one, and no off-case row. */
  lemma RepairKeys<V>(t: map<Key, V>, order: seq<Key>, canon: Canon, scope: Scope, merge: (V, V) -> V, k: Key)
    requires CanonValid(canon, scope) && ScanOf(order, t)
    ensures k in Repair(t, order, canon, scope, merge) <==> exists o :: Variant(t, canon, scope, k, o)
    ensures k in Repair(t, order, canon, scope, merge) ==> !OffCase(canon, scope, k)
  {
    AbsorbKeys(t, t, order, canon, scope, merge, k);
    if !OffCase(canon, scope, k) && k in t {
      assert Variant(t, canon, scope, k, k);
    }
    if o :| Variant(t, canon, scope, k, o) {
      FoldedIsCanonical(canon, scope, o.network, o.target);
      assert o in order;
    }
    if exists o <- order :: o in t && OffCase(canon, scope, o) && FoldKey(canon, scope, o) == k {
      var o :| o in order && o in t && OffCase(canon, scope, o) && FoldKey(canon, scope, o) == k;
      assert Variant(t, canon, scope, k, o);
      FoldedIsCanonical(canon, scope, o.network, o.target);
    }
  }

  /** Any measure the merge takes the maximum of is, on a repaired row, the maximum over all variants. */
  lemma RepairMax<V>(t: map<Key, V>, order: seq<Key>, canon: Canon, scope: Scope, merge: (V, V) -> V, f: V -> int, k: Key)
    requires CanonValid(canon, scope) && ScanOf(order, t)
    requires forall a, b :: f(merge(a, b)) == Max(f(a), f(b))
    requires k in Repair(t, order, canon, scope, merge)
    ensures var r := f(Repair(t, order, canon, scope, merge)[k]);
      && (forall o :: Variant(t, canon, scope, k, o) ==> f(t[o]) <= r)
      && (exists o :: Variant(t, canon, scope, k, o) && f(t[o]) == r)
  {
    RepairKeys(t, order, canon, scope, merge, k);
    AbsorbMax(t, t, order, canon, scope, merge, f, k);
    var r := f(Repair(t, order, canon, scope, merge)[k]);
    if k in t && f(t[k]) == r {
      assert Variant(t, canon, scope, k, k);
    } else {
      var o :| o in order && o in t && OffCase(canon, scope, o) && FoldKey(canon, scope, o) == k && f(t[o]) == r;
      assert Variant(t, canon, scope, k, o);
    }
    forall o | Variant(t, canon, scope, k, o) ensures f(t[o]) <= r {
      assert o == k || OffCase(canon, scope, o);
    }
  }

  /** Merged read pointers and clear markers are the maxima over all variants. */
  lemma ReadsAreMaxima(t: map<Key, Read>, order: seq<Key>, canon: Canon, scope: Scope, k: Key)
    requires CanonValid(canon, scope) && ScanOf(order, t) && k in Repair(t, order, canon, scope, MergeRead)
    ensures var r := Repair(t, order, canon, scope, MergeRead)[k];
      && (forall o :: Variant(t, canon, scope, k, o) ==>
            t[o].lastRead <= r.lastRead && OrZero(t[o].clearedBefore) <= OrZero(r.clearedBefore) && t[o].updated <= r.updated)
      && (exists o :: Variant(t, canon, scope, k, o) && t[o].lastRead == r.lastRead)
      && (exists o :: Variant(t, canon, scope, k, o) && OrZero(t[o].clearedBefore) == OrZero(r.clearedBefore))
  {
    RepairMax(t, order, canon, scope, MergeRead, (r: Read) => r.lastRead as int, k);
    RepairMax(t, order, canon, scope, MergeRead, (r: Read) => OrZero(r.clearedBefore) as int, k);
    RepairMax(t, order, canon, scope, MergeRead, (r: Read) => r.updated, k);
  }

  /** A joined flag, a key and the earliest creation survive from whichever variant had them. */
  lemma ChannelsSurvive(t: map<Key, Channel>, order: seq<Key>, canon: Canon, scope: Scope, k: Key)
    requires CanonValid(canon, scope) && ScanOf(order, t) && k in Repair(t, order, canon, scope, MergeChannel)
    ensures var r := Repair(t, order, canon, scope, MergeChannel)[k];
      && (r.joined <==> exists o :: Variant(t, canon, scope, k, o) && t[o].joined)
      && (r.key.Some? <==> exists o :: Variant(t, canon, scope, k, o) && t[o].key.Some?)
      && (forall o :: Variant(t, canon, scope, k, o) ==> r.created <= t[o].created)
      && (exists o :: Variant(t, canon, scope, k, o) && t[o].created == r.created)
  {
    hide Repair, Variant;
    ChannelJoined(t, order, canon, scope, k);
    ChannelKeyed(t, order, canon, scope, k);
    RepairMax(t, order, canon, scope, MergeChannel, (c: Channel) => -c.created, k);
  }

  lemma ChannelJoined(t: map<Key, Channel>, order: seq<Key>, canon: Canon, scope: Scope, k: Key)
    requires CanonValid(canon, scope) && ScanOf(order, t) && k in Repair(t, order, canon, scope, MergeChannel)
    ensures Repair(t, order, canon, scope, MergeChannel)[k].joined <==> exists o :: Variant(t, canon, scope, k, o) && t[o].joined
  {
    hide Repair;
    RepairMax(t, order, canon, scope, MergeChannel, (c: Channel) => if c.joined then 1 else 0, k);
  }

  lemma ChannelKeyed(t: map<Key, Channel>, order: seq<Key>, canon: Canon, scope: Scope, k: Key)
    requires CanonValid(canon, scope) && ScanOf(order, t) && k in Repair(t, order, canon, scope, MergeChannel)
    ensures Repair(t, order, canon, scope, MergeChannel)[k].key.Some? <==> exists o :: Variant(t, canon, scope, k, o) && t[o].key.Some?
  {
    hide Repair;
    RepairMax(t, order, canon, scope, MergeChannel, (c: Channel) => if c.key.Some? then 1 else 0, k);
  }

  /** What the merge picks from one of its two sides comes, on a repaired row, from one of the variants. */
  lemma {:induction false} AbsorbPicks<V, W>(
      t: map<Key, V>, rows: map<Key, V>, order: seq<Key>, canon: Canon, scope: Scope, merge: (V, V) -> V, g: V -> W, k: Key)
    requires forall a, b :: g(merge(a, b)) == g(a) || g(merge(a, b)) == g(b)
    requires k in Absorb(t, rows, order, canon, scope, merge)
    ensures var r := g(Absorb(t, rows, order, canon, scope, merge)[k]);
      || (k in t && g(t[k]) == r)
      || exists o <- order :: o in rows && OffCase(canon, scope, o) && FoldKey(canon, scope, o) == k && g(rows[o]) == r
    decreases |order|
  {
    hide OffCase, FoldKey;
    if order != [] {
      assert forall o :: o in order <==> o == order[0] || o in order[1..];
      var t' := if order[0] in rows && OffCase(canon, scope, order[0])
                then Upsert(t, FoldKey(canon, scope, order[0]), rows[order[0]], merge) else t;
      AbsorbPicks(t', rows, order[1..], canon, scope, merge, g, k);
    }
  }

  lemma RepairPicks<V, W>(t: map<Key, V>, order: seq<Key>, canon: Canon, scope: Scope, merge: (V, V) -> V, g: V -> W, k: Key)
    requires forall a, b :: g(merge(a, b)) == g(a) || g(merge(a, b)) == g(b)
    requires k in Repair(t, order, canon, scope, merge)
    ensures exists o :: Variant(t, canon, scope, k, o) && g(t[o]) == g(Repair(t, order, canon, scope, merge)[k])
  {
    AbsorbPicks(t, t, order, canon, scope, merge, g, k);
    var r := g(Repair(t, order, canon, scope, merge)[k]);
    if k in t && g(t[k]) == r {
      assert Variant(t, canon, scope, k, k);
    } else {
      var o :| o in order && o in t && OffCase(canon, scope, o) && FoldKey(canon, scope, o) == k && g(t[o]) == r;
      assert Variant(t, canon, scope, k, o);
    }
  }

  /** A clear marker keeps the time it was set: marker and time come from the same variant. */
  lemma ClearTimeMatches(t: map<Key, Read>, order: seq<Key>, canon: Canon, scope: Scope, k: Key)
    requires k in Repair(t, order, canon, scope, MergeRead)
    ensures var r := Repair(t, order, canon, scope, MergeRead)[k];
            exists o :: Variant(t, canon, scope, k, o)
                     && OrZero(t[o].clearedBefore) == OrZero(r.clearedBefore) && t[o].clearedAt == r.clearedAt
  {
    RepairPicks(t, order, canon, scope, MergeRead, (r: Read) => (OrZero(r.clearedBefore), r.clearedAt), k);
  }

  /** State that does not merge is kept from the canonical row if there is one, else from a variant. */
  lemma UnmergedStateSurvives<V>(t: map<Key, V>, order: seq<Key>, canon: Canon, scope: Scope, k: Key)
    requires CanonValid(canon, scope) && ScanOf(order, t) && k in Repair(t, order, canon, scope, KeepMine)
    ensures var r := Repair(t, order, canon, scope, KeepMine)[k];
      && (k in t ==> r == t[k])
      && (exists o :: Variant(t, canon, scope, k, o) && t[o] == r)
  {
    RepairPicks(t, order, canon, scope, KeepMine, (v: V) => v, k);
    if k in t {
      AbsorbKeepsMine(t, t, order, canon, scope, k);
    }
  }

  lemma {:induction false} AbsorbKeepsMine<V>(t: map<Key, V>, rows: map<Key, V>, order: seq<Key>, canon: Canon, scope: Scope, k: Key)
    requires k in t
    ensures var t' := Absorb(t, rows, order, canon, scope, KeepMine); k in t' && t'[k] == t[k]
    decreases |order|
  {
    hide OffCase, FoldKey;
    if order != [] {
      var t' := if order[0] in rows && OffCase(canon, scope, order[0])
                then Upsert(t, FoldKey(canon, scope, order[0]), rows[order[0]], KeepMine) else t;
      AbsorbKeepsMine(t', rows, order[1..], canon, scope, k);
    }
  }

  // ----- pins -----

  /** Within one list the order of pins is total. */
  lemma PinOrder(pins: map<Key, int>, a: Key, b: Key)
    requires a in pins && b in pins && SameList(a, b)
    ensures a == b || PinBefore(pins, a, b) || PinBefore(pins, b, a)
    ensures !(PinBefore(pins, a, b) && PinBefore(pins, b, a))
    ensures !PinBefore(pins, a, a)
  {
    TextOrderTotal(a.target, b.target);
    TextOrderIrreflexive(a.target);
  }

  lemma PinOrderTransitive(pins: map<Key, int>, a: Key, b: Key, c: Key)
    requires PinBefore(pins, a, b) && PinBefore(pins, b, c)
    ensures PinBefore(pins, a, c)
  {
    if TextBefore(a.target, b.target) && TextBefore(b.target, c.target) {
      TextOrderTransitive(a.target, b.target, c.target);
    }
  }

  lemma {:induction false} SmallerSet<T>(a: set<T>, b: set<T>)
    requires a <= b
    ensures |a| <= |b| && (a < b ==> |a| < |b|)
  {
    if a != {} {
      var x :| x in a;
      SmallerSet(a - {x}, b - {x});
    }
  }

  /** Renumbering keeps the order. */
  lemma RenumberOrders(pins: map<Key, int>, a: Key, b: Key)
    requires a in pins && b in pins && SameList(a, b)
    ensures Renumber(pins)[a] < Renumber(pins)[b] <==> PinBefore(pins, a, b)
    ensures Renumber(pins)[a] == Renumber(pins)[b] <==> a == b
  {
    PinOrder(pins, a, b);
    if PinBefore(pins, a, b) {
      RankRises(pins, a, b);
    } else if PinBefore(pins, b, a) {
      RankRises(pins, b, a);
    }
  }

  lemma RankRises(pins: map<Key, int>, a: Key, b: Key)
    requires PinBefore(pins, a, b)
    ensures |PinsBefore(pins, a)| < |PinsBefore(pins, b)|
  {
    PinOrder(pins, a, a);
    assert a in PinsBefore(pins, b) && a !in PinsBefore(pins, a);
    forall x | x in PinsBefore(pins, a) ensures x in PinsBefore(pins, b) {
      PinOrderTransitive(pins, x, a, b);
    }
    SmallerSet(PinsBefore(pins, a), PinsBefore(pins, b));
  }

  function ListOf(pins: map<Key, int>, k: Key): set<Key> {
    set a | a in pins && SameList(a, k)
  }

  /** Pins end dense: within each list the positions are pairwise distinct and below the list's length,
      so they are exactly 0 .. n-1. */
  lemma RenumberIsDense(pins: map<Key, int>, k: Key)
    requires k in pins
    ensures Renumber(pins).Keys == pins.Keys
    ensures 0 <= Renumber(pins)[k] < |ListOf(pins, k)|
    ensures forall a <- ListOf(pins, k) :: a != k ==> Renumber(pins)[a] != Renumber(pins)[k]
  {
    PinOrder(pins, k, k);
    assert k in ListOf(pins, k) && k !in PinsBefore(pins, k);
    SmallerSet(PinsBefore(pins, k), ListOf(pins, k));
    forall a | a in ListOf(pins, k) && a != k ensures Renumber(pins)[a] != Renumber(pins)[k] {
      RenumberOrders(pins, a, k);
    }
  }

  /** Renumbering twice is renumbering once. */
  lemma RenumberTwice(pins: map<Key, int>)
    ensures Renumber(Renumber(pins)) == Renumber(pins)
  {
    var once := Renumber(pins);
    forall k | k in pins ensures PinsBefore(once, k) == PinsBefore(pins, k) {
      forall a | a in pins && SameList(a, k) ensures PinBefore(once, a, k) <==> PinBefore(pins, a, k) {
        RenumberOrders(pins, a, k);
        TextOrderIrreflexive(k.target);
        PinOrder(pins, a, k);
      }
    }
  }

  // ----- the whole repair -----

  /** Nothing a second apply would rewrite. */
  ghost predicate Settled<V>(t: map<Key, V>, canon: Canon, scope: Scope) {
    forall k <- t :: !OffCase(canon, scope, k)
  }

  lemma {:induction false} AbsorbSettled<V>(t: map<Key, V>, order: seq<Key>, canon: Canon, scope: Scope, merge: (V, V) -> V)
    requires Settled(t, canon, scope)
    ensures Absorb(t, t, order, canon, scope, merge) == t
    decreases |order|
  {
    if order != [] {
      AbsorbSettled(t, order[1..], canon, scope, merge);
    }
  }

  lemma RepairSettled<V>(t: map<Key, V>, order: seq<Key>, canon: Canon, scope: Scope, merge: (V, V) -> V)
    requires Settled(t, canon, scope)
    ensures Repair(t, order, canon, scope, merge) == t
  {
    AbsorbSettled(t, order, canon, scope, merge);
  }

  lemma FoldMessagesTwice(canon: Canon, scope: Scope, rows: seq<Message>)
    requires CanonValid(canon, scope)
    ensures FoldMessages(canon, scope, FoldMessages(canon, scope, rows)) == FoldMessages(canon, scope, rows)
  {
    forall i | 0 <= i < |rows|
      ensures FoldMessages(canon, scope, FoldMessages(canon, scope, rows))[i] == FoldMessages(canon, scope, rows)[i]
    {
      FoldedIsCanonical(canon, scope, Some(rows[i].network), rows[i].target);
    }
  }

  /** The repair is lossless in counts and leaves no off-case row that has a canonical spelling. */
  lemma NoOffCaseLeft<D>(db: Tables<D>, scope: Scope, orders: Orders)
    ensures var canon, db' := CanonTable(db.messages, scope), FoldAll(db, scope, orders);
      && |db'.messages| == |db.messages| && |db'.history| == |db.history|
      && Settled(db'.channels, canon, scope) && Settled(db'.readMarks, canon, scope)
      && Settled(db'.closed, canon, scope) && Settled(db'.pins, canon, scope) && Settled(db'.drafts, canon, scope)
  {
  }

  /** A second apply changes nothing, whatever order its statements scan in. */
  lemma RepairIsIdempotent<D>(db: Tables<D>, scope: Scope, orders: Orders, again: Orders)
    ensures var once := FoldAll(db, scope, orders); FoldAll(once, scope, again) == once
  {
    var canon, once := CanonTable(db.messages, scope), FoldAll(db, scope, orders);
    CanonIsStable(db.messages, scope);
    CanonTableValid(db.messages, scope);
    NoOffCaseLeft(db, scope, orders);
    hide CanonTable;
    FoldMessagesTwice(canon, scope, db.messages);
    FoldMessagesTwice(canon, scope, db.history);
    RepairSettled(once.channels, again.channels, canon, scope, MergeChannel);
    RepairSettled(once.readMarks, again.readMarks, canon, scope, MergeRead);
    RepairSettled(once.pins, again.pins, canon, scope, KeepMine);
    RepairSettled(once.drafts, again.drafts, canon, scope, KeepMine);
    assert DropOffCase(once.closed, canon, scope) == once.closed;
    RenumberTwice(Repair(db.pins, orders.pins, canon, scope, KeepMine));
    hide Repair, FoldMessages, DropOffCase, Renumber, Settled;
  }
}
