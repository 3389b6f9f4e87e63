/** What the whole repair leaves in each table, read off the tables before it (server/db/foldBufferCase.ts). */
module FoldRepairResult {
  import opened Options
  import opened CaseFold
  import opened FoldRepair
  import opened FoldRepairProofs

  /** `o` is one of the spellings that `k` stands for after the repair: the canonical one of its name if
      messages carry the name, else its own. */
  predicate SpellingOf(canon: Canon, scope: Scope, k: Key, o: Key) {
    && o.user == k.user && o.network == k.network
    && if o.network.Some? && InScope(scope, o.target) && (o.network.value, Lower(o.target)) in canon
       then k.target == canon[(o.network.value, Lower(o.target))]
       else k.target == o.target
  }

  /** A row that the repaired row of `k` was made from. */
  predicate Source<V>(t: map<Key, V>, canon: Canon, scope: Scope, k: Key, o: Key) {
    o in t && SpellingOf(canon, scope, k, o)
  }

  lemma SourceIsVariant<V>(t: map<Key, V>, canon: Canon, scope: Scope, k: Key, o: Key)
    ensures Source(t, canon, scope, k, o) <==> Variant(t, canon, scope, k, o)
  {
  }

  lemma SourceIsThere<V>(t: map<Key, V>, canon: Canon, scope: Scope, k: Key, o: Key)
    requires Source(t, canon, scope, k, o)
    ensures o in t
  {
  }

  lemma SourcesAreVariants<V>(t: map<Key, V>, canon: Canon, scope: Scope, k: Key)
    ensures forall o :: Source(t, canon, scope, k, o) <==> Variant(t, canon, scope, k, o)
  {
    forall o ensures Source(t, canon, scope, k, o) <==> Variant(t, canon, scope, k, o) {
      SourceIsVariant(t, canon, scope, k, o);
    }
  }

  // ----- the canonical spelling -----

  /** SQLite's lower(): ASCII capitals and nothing else. */
  lemma LowerIs(s: string)
    ensures |Lower(s)| == |s|
    ensures forall i | 0 <= i < |s| :: Lower(s)[i] == if 'A' <= s[i] <= 'Z' then ('a' as int + s[i] as int - 'A' as int) as char else s[i]
  {
  }

  /** Binary order: the first difference decides, a text before its extensions. */
  lemma {:induction false} OrderIs(a: string, b: string)
    ensures TextBefore(a, b) <==>
              exists n :: 0 <= n <= |a| && n < |b| && a[..n] == b[..n] && (n == |a| || a[n] < b[n])
    decreases |a|
  {
    if a != "" && b != "" {
      OrderIs(a[1..], b[1..]);
      if n :| 0 <= n <= |a[1..]| && n < |b[1..]| && a[1..][..n] == b[1..][..n] && (n == |a[1..]| || a[1..][n] < b[1..][n]) {
        if a[0] == b[0] {
          assert a[..n + 1] == [a[0]] + a[1..][..n] && b[..n + 1] == [b[0]] + b[1..][..n];
        }
      }
      if n :| 0 <= n <= |a| && n < |b| && a[..n] == b[..n] && (n == |a| || a[n] < b[n]) {
        if n > 0 {
          assert a[0] == a[..n][0] == b[..n][0] == b[0];
          assert a[1..][..n - 1] == a[..n][1..] && b[1..][..n - 1] == b[..n][1..];
        }
      }
      if a[0] < b[0] {
        assert a[..0] == b[..0];
      }
    } else if b != "" {
      assert a[..0] == b[..0];
    }
  }

  /** Channels are the targets that begin with '#'; every target is considered but those that begin with ':'. */
  lemma ScopeIs(target: string)
    ensures InScope(Channels, target) <==> "#" <= target
    ensures InScope(All, target) <==> !(":" <= target)
  {
  }

  /** A spelling of the name, on the network, that some message in scope carries. */
  predicate Carried(messages: seq<Message>, scope: Scope, network: nat, folded: string, target: string) {
    Message(network, target) in messages && InScope(scope, target) && Lower(target) == folded
  }

  /** A name has a canonical spelling exactly when a message in scope carries it: the one most messages carry,
      and the first in binary order of those. */
  lemma CanonicalIs(messages: seq<Message>, scope: Scope, network: nat, folded: string)
    ensures var canon, g := CanonTable(messages, scope), (network, folded);
      && (g in canon <==> exists target :: Carried(messages, scope, network, folded, target))
      && (g in canon ==>
            && Carried(messages, scope, network, folded, canon[g])
            && forall other | Carried(messages, scope, network, folded, other) && other != canon[g] ::
                 || multiset(messages)[Message(network, other)] < multiset(messages)[Message(network, canon[g])]
                 || (multiset(messages)[Message(network, other)] == multiset(messages)[Message(network, canon[g])]
                     && TextBefore(canon[g], other)))
  {
    var canon, g := CanonTable(messages, scope), (network, folded);
    CanonIsMostUsed(messages, scope, g);
    forall target ensures Carried(messages, scope, network, folded, target) <==> Candidate(messages, scope, g, Message(network, target)) {
    }
    if m :| Candidate(messages, scope, g, m) {
      assert m == Message(network, m.target);
    }
    if g in canon {
      forall other | Carried(messages, scope, network, folded, other) && other != canon[g]
        ensures !Beats(messages, Message(network, other), Message(network, canon[g]))
        ensures TextBefore(canon[g], other) || TextBefore(other, canon[g])
      {
        TextOrderTotal(canon[g], other);
        assert Candidate(messages, scope, g, Message(network, other));
      }
    }
    hide CanonTable, Candidate, Carried;
  }

  // ----- rows without a key -----

  /** Messages and input history go to the canonical spelling one by one; nothing else of them changes. */
  lemma MessagesAfter<D>(db: Tables<D>, scope: Scope, orders: Orders)
    ensures var canon, after := CanonTable(db.messages, scope), FoldAll(db, scope, orders);
      && |after.messages| == |db.messages| && |after.history| == |db.history|
      && (forall i | 0 <= i < |db.messages| :: Moved(canon, scope, db.messages[i], after.messages[i]))
      && (forall i | 0 <= i < |db.history| :: Moved(canon, scope, db.history[i], after.history[i]))
  {
    hide CanonTable;
  }

  predicate Moved(canon: Canon, scope: Scope, m: Message, m': Message) {
    SpellingOf(canon, scope, Key(0, Some(m'.network), m'.target), Key(0, Some(m.network), m.target))
  }

  // ----- read pointers -----

  /** A read row is there exactly when a spelling had one. It has the furthest pointer, the latest stamp and
      the furthest clear marker of them all, with the time of that marker: the canonical row's own if its
      marker is the furthest, and none if there was none. */
  lemma ReadMarksAfter<D>(db: Tables<D>, scope: Scope, orders: Orders, k: Key)
    requires ScanOf(orders.readMarks, db.readMarks)
    ensures var canon, t, after := CanonTable(db.messages, scope), db.readMarks, FoldAll(db, scope, orders).readMarks;
      && (k in after <==> exists o :: Source(t, canon, scope, k, o))
      && (k in after ==>
            && (forall o :: Source(t, canon, scope, k, o) ==>
                  && t[o].lastRead <= after[k].lastRead && t[o].updated <= after[k].updated
                  && OrZero(t[o].clearedBefore) <= OrZero(after[k].clearedBefore))
            && (exists o :: Source(t, canon, scope, k, o) && t[o].lastRead == after[k].lastRead)
            && (exists o :: Source(t, canon, scope, k, o) && t[o].updated == after[k].updated)
            && (exists o :: Source(t, canon, scope, k, o)
                  && OrZero(t[o].clearedBefore) == OrZero(after[k].clearedBefore) && t[o].clearedAt == after[k].clearedAt)
            && (k in t && OrZero(t[k].clearedBefore) == OrZero(after[k].clearedBefore) ==> after[k].clearedAt == t[k].clearedAt))
  {
    var canon, t := CanonTable(db.messages, scope), db.readMarks;
    CanonTableValid(db.messages, scope);
    hide CanonTable;
    SourcesAreVariants(t, canon, scope, k);
    RepairKeys(t, orders.readMarks, canon, scope, MergeRead, k);
    if k in Repair(t, orders.readMarks, canon, scope, MergeRead) {
      ReadsAreMaxima(t, orders.readMarks, canon, scope, k);
      ClearTimeMatches(t, orders.readMarks, canon, scope, k);
      RepairMax(t, orders.readMarks, canon, scope, MergeRead, (r: Read) => r.updated, k);
      if k in t {
        AbsorbKeepsTime(t, t, orders.readMarks, canon, scope, k);
      }
    }
    hide Repair, Source, Variant;
  }

  /** A marker that stays the furthest keeps its time. */
  lemma {:induction false} AbsorbKeepsTime(t: map<Key, Read>, rows: map<Key, Read>, order: seq<Key>, canon: Canon, scope: Scope, k: Key)
    requires k in t
    ensures var t' := Absorb(t, rows, order, canon, scope, MergeRead);
            && k in t' && OrZero(t'[k].clearedBefore) >= OrZero(t[k].clearedBefore)
            && (OrZero(t'[k].clearedBefore) == OrZero(t[k].clearedBefore) ==> t'[k].clearedAt == t[k].clearedAt)
    decreases |order|
  {
    hide OffCase, FoldKey;
    if order != [] {
      var t' := if order[0] in rows && OffCase(canon, scope, order[0])
                then Upsert(t, FoldKey(canon, scope, order[0]), rows[order[0]], MergeRead) else t;
      AbsorbKeepsTime(t', rows, order[1..], canon, scope, k);
    }
  }

  ghost predicate NoZero(t: map<Key, Read>) {
    forall k | k in t :: t[k].clearedBefore != Some(0)
  }

  lemma {:induction false} AbsorbNoZero(t: map<Key, Read>, rows: map<Key, Read>, order: seq<Key>, canon: Canon, scope: Scope)
    requires NoZero(t) && NoZero(rows)
    ensures NoZero(Absorb(t, rows, order, canon, scope, MergeRead))
    decreases |order|
  {
    hide OffCase, FoldKey;
    if order != [] {
      var t' := if order[0] in rows && OffCase(canon, scope, order[0])
                then Upsert(t, FoldKey(canon, scope, order[0]), rows[order[0]], MergeRead) else t;
      AbsorbNoZero(t', rows, order[1..], canon, scope);
    }
  }

  /** No row ends with a marker unless a spelling had one: markers are message ids, which start at 1. */
  lemma MarkersAfter<D>(db: Tables<D>, scope: Scope, orders: Orders, k: Key)
    requires ScanOf(orders.readMarks, db.readMarks) && NoZero(db.readMarks)
    ensures var canon, t, after := CanonTable(db.messages, scope), db.readMarks, FoldAll(db, scope, orders).readMarks;
      k in after ==> exists o :: Source(t, canon, scope, k, o)
                       && t[o].clearedBefore == after[k].clearedBefore && t[o].clearedAt == after[k].clearedAt
  {
    ReadMarksAfter(db, scope, orders, k);
    hide CanonTable;
    var canon, t, after := CanonTable(db.messages, scope), db.readMarks, FoldAll(db, scope, orders).readMarks;
    AbsorbNoZero(t, t, orders.readMarks, canon, scope);
    hide Absorb;
    if k in after {
      assert after[k].clearedBefore != Some(0);
      hide FoldAll, Source;
      var o :| Source(t, canon, scope, k, o)
        && OrZero(t[o].clearedBefore) == OrZero(after[k].clearedBefore) && t[o].clearedAt == after[k].clearedAt;
      assert t[o].clearedBefore == after[k].clearedBefore by { SourceIsThere(t, canon, scope, k, o); }
    }
  }

  // ----- channels -----

  /** A channel row is there exactly when a spelling had one: joined if any was, created with the earliest,
      and with a key if any had one, the canonical row's own before any other. */
  lemma ChannelsAfter<D>(db: Tables<D>, scope: Scope, orders: Orders, k: Key)
    requires ScanOf(orders.channels, db.channels)
    ensures var canon, t, after := CanonTable(db.messages, scope), db.channels, FoldAll(db, scope, orders).channels;
      && (k in after <==> exists o :: Source(t, canon, scope, k, o))
      && (k in after ==>
            && (after[k].joined <==> exists o :: Source(t, canon, scope, k, o) && t[o].joined)
            && (forall o :: Source(t, canon, scope, k, o) ==> after[k].created <= t[o].created)
            && (exists o :: Source(t, canon, scope, k, o) && t[o].created == after[k].created)
            && (after[k].key.Some? <==> exists o :: Source(t, canon, scope, k, o) && t[o].key.Some?)
            && (exists o :: Source(t, canon, scope, k, o) && t[o].key == after[k].key)
            && (k in t && t[k].key.Some? ==> after[k].key == t[k].key))
  {
    var canon, t := CanonTable(db.messages, scope), db.channels;
    CanonTableValid(db.messages, scope);
    hide CanonTable;
    SourcesAreVariants(t, canon, scope, k);
    RepairKeys(t, orders.channels, canon, scope, MergeChannel, k);
    if k in Repair(t, orders.channels, canon, scope, MergeChannel) {
      ChannelsSurvive(t, orders.channels, canon, scope, k);
      RepairPicks(t, orders.channels, canon, scope, MergeChannel, (c: Channel) => c.key, k);
      if k in t && t[k].key.Some? {
        AbsorbKeepsKey(t, t, orders.channels, canon, scope, k);
      }
    }
    hide Absorb, Source, Variant;
  }

  lemma {:induction false} AbsorbKeepsKey(t: map<Key, Channel>, rows: map<Key, Channel>, order: seq<Key>, canon: Canon, scope: Scope, k: Key)
    requires k in t && t[k].key.Some?
    ensures var t' := Absorb(t, rows, order, canon, scope, MergeChannel); k in t' && t'[k].key == t[k].key
    decreases |order|
  {
    hide OffCase, FoldKey;
    if order != [] {
      var t' := if order[0] in rows && OffCase(canon, scope, order[0])
                then Upsert(t, FoldKey(canon, scope, order[0]), rows[order[0]], MergeChannel) else t;
      AbsorbKeepsKey(t', rows, order[1..], canon, scope, k);
    }
  }

  // ----- state that is not merged -----

  /** What is there after the repair of a table whose rows are not merged: the row under the canonical
      spelling if there was one, else one of the others. */
  ghost predicate Survivors<V>(before: map<Key, V>, canon: Canon, scope: Scope, after: map<Key, V>) {
    && (forall k :: k in after <==> exists o :: Source(before, canon, scope, k, o))
    && (forall k <- after :: exists o :: Source(before, canon, scope, k, o) && before[o] == after[k])
    && (forall k <- after :: k in before ==> after[k] == before[k])
  }

  lemma UnmergedSurvive<V>(t: map<Key, V>, order: seq<Key>, canon: Canon, scope: Scope)
    requires CanonValid(canon, scope) && ScanOf(order, t)
    ensures Survivors(t, canon, scope, Repair(t, order, canon, scope, KeepMine))
  {
    var after := Repair(t, order, canon, scope, KeepMine);
    forall k ensures k in after <==> exists o :: Source(t, canon, scope, k, o)
             ensures k in after ==> exists o :: Source(t, canon, scope, k, o) && t[o] == after[k]
             ensures k in after && k in t ==> after[k] == t[k]
    {
      SourcesAreVariants(t, canon, scope, k);
      RepairKeys(t, order, canon, scope, KeepMine, k);
      if k in after {
        UnmergedStateSurvives(t, order, canon, scope, k);
      }
      hide Source, Variant, Repair, ScanOf;
    }
  }

  /** A closed mark stays exactly when it was on a canonical spelling. */
  lemma ClosedAfter<D>(db: Tables<D>, scope: Scope, orders: Orders, k: Key)
    ensures var canon, after := CanonTable(db.messages, scope), FoldAll(db, scope, orders).closed;
      && (k in after <==> k in db.closed && SpellingOf(canon, scope, k, k))
      && (k in after ==> after[k] == db.closed[k])
  {
    hide CanonTable;
  }

  lemma DraftsAfter<D>(db: Tables<D>, scope: Scope, orders: Orders)
    requires ScanOf(orders.drafts, db.drafts)
    ensures Survivors(db.drafts, CanonTable(db.messages, scope), scope, FoldAll(db, scope, orders).drafts)
  {
    CanonTableValid(db.messages, scope);
    hide CanonTable;
    UnmergedSurvive(db.drafts, orders.drafts, CanonTable(db.messages, scope), scope);
    hide Survivors;
  }

  /** The surviving pins keep the order of their positions, then of their targets, and each list's
      positions are 0 up to its length. */
  lemma PinsAfter<D>(db: Tables<D>, scope: Scope, orders: Orders) returns (kept: map<Key, int>)
    requires ScanOf(orders.pins, db.pins)
    ensures Survivors(db.pins, CanonTable(db.messages, scope), scope, kept)
    ensures var after := FoldAll(db, scope, orders).pins;
      && after.Keys == kept.Keys
      && (forall a <- after, b <- after | a.user == b.user && a.network == b.network ::
            after[a] < after[b] <==> kept[a] < kept[b] || (kept[a] == kept[b] && TextBefore(a.target, b.target)))
      && (forall a <- after, b <- after | a.user == b.user && a.network == b.network :: after[a] == after[b] <==> a == b)
      && (forall a <- after :: 0 <= after[a] < |set b | b in after && b.user == a.user && b.network == a.network|)
  {
    var canon := CanonTable(db.messages, scope);
    CanonTableValid(db.messages, scope);
    kept := Repair(db.pins, orders.pins, canon, scope, KeepMine);
    assert FoldAll(db, scope, orders).pins == Renumber(kept);
    hide FoldAll, Repair, CanonTable;
    UnmergedSurvive(db.pins, orders.pins, canon, scope);
    Renumbered(kept);
    hide Survivors, Renumber;
  }

  lemma Renumbered(kept: map<Key, int>)
    ensures var after := Renumber(kept);
      && after.Keys == kept.Keys
      && (forall a <- after, b <- after | a.user == b.user && a.network == b.network ::
            after[a] < after[b] <==> kept[a] < kept[b] || (kept[a] == kept[b] && TextBefore(a.target, b.target)))
      && (forall a <- after, b <- after | a.user == b.user && a.network == b.network :: after[a] == after[b] <==> a == b)
      && (forall a <- after :: 0 <= after[a] < |set b | b in after && b.user == a.user && b.network == a.network|)
  {
    var after := Renumber(kept);
    forall a, b | a in kept && b in kept && a.user == b.user && a.network == b.network
      ensures after[a] < after[b] <==> kept[a] < kept[b] || (kept[a] == kept[b] && TextBefore(a.target, b.target))
      ensures after[a] == after[b] <==> a == b
    {
      RenumberOrders(kept, a, b);
    }
    forall a | a in kept ensures 0 <= after[a] < |set b | b in after && b.user == a.user && b.network == a.network| {
      RenumberIsDense(kept, a);
      assert ListOf(kept, a) == set b | b in after && b.user == a.user && b.network == a.network;
    }
  }

  // ----- which targets are considered -----

  /** A repair of channels leaves every row of another name as it was; the full one leaves the ':'-buffers. */
  lemma OutOfScopeStays(canon: Canon, scope: Scope, o: Key)
    requires if scope == Channels then o.target == "" || o.target[0] != '#' else o.target != "" && o.target[0] == ':'
    ensures forall k :: SpellingOf(canon, scope, k, o) <==> k == o
  {
  }

  /** One fork: a read row under each of two spellings. */
  lemma ForkIsJoined(user: nat, network: nat, at: int)
    ensures var mine, other := Key(user, Some(network), "#Chan"), Key(user, Some(network), "#chan");
            var m := Message(network, "#Chan");
            var marks := map[mine := Read(5, at, None, None), other := Read(9, at, Some(3), Some(at))];
            var db: Tables<int> := Tables([m], [], map[], marks, map[], map[], map[]);
            FoldAll(db, Channels, Orders([], [mine, other], [], [])).readMarks == map[mine := Read(9, at, Some(3), Some(at))]
  {
    var mine, other := Key(user, Some(network), "#Chan"), Key(user, Some(network), "#chan");
    var m := Message(network, "#Chan");
    var marks := map[mine := Read(5, at, None, None), other := Read(9, at, Some(3), Some(at))];
    var canon := CanonTable([m], Channels);
    var g := GroupOf(m);
    assert "#Chan"[1] != "#chan"[1];
    assert Lower("#Chan") == "#chan" == Lower("#chan");
    assert Best([m], Channels, g, 1) == Some(m);
    assert m in [m] && g in canon && canon[g] == "#Chan";
    assert !OffCase(canon, Channels, mine) && OffCase(canon, Channels, other) && FoldKey(canon, Channels, other) == mine;
    hide OffCase, FoldKey, CanonTable;
    var order := [mine, other];
    assert order[1..] == [other] && [other][1..] == [];
    var merged := marks[mine := Read(9, at, Some(3), Some(at))];
    assert MergeRead(marks[mine], marks[other]) == Read(9, at, Some(3), Some(at));
    assert Absorb(marks, marks, [other], canon, Channels, MergeRead) == Absorb(merged, marks, [], canon, Channels, MergeRead);
    assert Absorb(marks, marks, order, canon, Channels, MergeRead) == merged;
  }
}
