/** What a refold makes of the buffers that come to share a name, field by field
    (server/db/refoldBuffers.ts, server/db/renameBuffer.ts). */
module RefoldOutcome {
  import opened Options
  import opened Casemapping
  import opened Buffers
  import opened Refold

  /** The rows of the user on the network, consoles apart. */
  predicate Refolds(p: Pass, id: nat) {
    && id in p.rows && p.rows[id].user == p.user && p.rows[id].network == Some(p.network)
    && p.rows[id].kind != Server && p.rows[id].kind != System
  }

  /** Their name under the new mapping. */
  function NewName(p: Pass, id: nat): string
    requires id in p.rows
  {
    Fold(p.lower, Some(p.mapping), p.rows[id].target)
  }

  /** a outranks b: open before closed, then the later last message, then the lower id. */
  predicate Outranks(p: Pass, a: nat, b: nat) {
    && a in p.rows && b in p.rows
    && (|| (p.rows[a].open && !p.rows[b].open)
        || (p.rows[a].open == p.rows[b].open && (p.last(a) > p.last(b) || (p.last(a) == p.last(b) && a < b))))
  }

  /** Best first, and nobody twice. */
  lemma {:induction false} RankedInOrder(p: Pass, ids: seq<nat>)
    requires forall i <- ids :: i in p.rows
    ensures forall i, j | 0 <= i < j < |Ranked(p, ids)| :: Outranks(p, Ranked(p, ids)[i], Ranked(p, ids)[j])
    decreases |ids|
  {
    if ids != [] {
      var best := Best(p, ids);
      RankedInOrder(p, Except(ids, best));
      var rest := Ranked(p, Except(ids, best));
      forall i | i in rest ensures i in p.rows && Outranks(p, best, i) {
        assert i in ids && i != best;
        BestOutranks(p, ids, i);
      }
      assert Ranked(p, ids) == [best] + rest;
      hide Outranks, Best, Except, Ranked;
      forall i, j | 0 <= i < j < |[best] + rest| ensures Outranks(p, ([best] + rest)[i], ([best] + rest)[j]) {
        assert ([best] + rest)[j] == rest[j - 1] && rest[j - 1] in rest;
      }
    }
  }

  /** The key a group ends with: that of the best-ranked row that has one. */
  lemma {:induction false} KeyIsFirst(p: Pass, ids: seq<nat>)
    requires forall i <- ids :: i in p.rows
    ensures FirstKey(p, ids).None? ==> forall i <- ids :: p.rows[i].key.None?
    ensures FirstKey(p, ids).Some? ==>
              exists n :: 0 <= n < |ids| && p.rows[ids[n]].key == FirstKey(p, ids) && forall m | 0 <= m < n :: p.rows[ids[m]].key.None?
  {
    if ids != [] {
      KeyIsFirst(p, ids[1..]);
      if p.rows[ids[0]].key.None? {
        if n :| 0 <= n < |ids[1..]| && p.rows[ids[1..][n]].key == FirstKey(p, ids[1..]) && forall m | 0 <= m < n :: p.rows[ids[1..][m]].key.None? {
          assert ids[n + 1] == ids[1..][n];
          forall m | 0 <= m < n + 1 ensures p.rows[ids[m]].key.None? {
            assert m > 0 ==> ids[m] == ids[1..][m - 1];
          }
        }
      } else {
        assert p.rows[ids[0]].key == FirstKey(p, ids);
      }
    }
  }

  lemma {:induction false} AbsorbKeepsClosing(p: Pass, r: Row, ids: seq<nat>)
    requires r.open || forall i <- ids :: i in p.rows ==> !p.rows[i].open
    ensures AbsorbAll(p, r, ids).open == r.open && AbsorbAll(p, r, ids).closedAt == r.closedAt
    decreases |ids|
  {
    if ids != [] {
      AbsorbKeepsClosing(p, if ids[0] in p.rows then Union(r, p.rows[ids[0]]) else r, ids[1..]);
    }
  }

  /** The row a group is merged into: it outranks all the others of the group, keeps its own user, network,
      casing, kind and closing, autojoins if any of them does, and has the best-ranked key. */
  lemma MergedRowIs(p: Pass, id: nat) returns (ranked: seq<nat>)
    requires Scanned(p) && Refolds(p, id)
    ensures var s := Survivor(p, NewName(p, id));
      && (forall i :: i in ranked <==> Refolds(p, i) && NewName(p, i) == NewName(p, id))
      && (forall i, j | 0 <= i < j < |ranked| :: Outranks(p, ranked[i], ranked[j]))
      && ranked != [] && s == ranked[0] && s in p.rows && (forall i <- ranked :: i in p.rows)
      && var r := MergedRow(p, s);
         && r == p.rows[s].(autojoin := r.autojoin, key := r.key)
         && (r.autojoin <==> exists i <- ranked :: p.rows[i].autojoin)
         && (r.key.None? ==> forall i <- ranked :: p.rows[i].key.None?)
         && (r.key.Some? ==>
               exists n :: 0 <= n < |ranked| && p.rows[ranked[n]].key == r.key && forall m | 0 <= m < n :: p.rows[ranked[m]].key.None?)
  {
    var s := Survivor(p, NewName(p, id));
    ranked := RankedGroup(p, id);
    SurvivorIsUnion(p, id);
    hide Ranked, Survivor, MergedRow, FirstKey, Group, Outranks, Considered, Refolds, Scanned;
    KeyIsFirst(p, ranked);
    MergedKeepsItsOwn(p, id, ranked);
    hide NewName, NewFold;
  }

  /** The rows of one new name in rank order, the survivor first. */
  lemma RankedGroup(p: Pass, id: nat) returns (ranked: seq<nat>)
    requires Scanned(p) && Refolds(p, id)
    ensures Considered(p, id) && NewFold(p, id) == NewName(p, id)
    ensures var group := Group(p, NewFold(p, id));
      && ranked == Ranked(p, group) && (forall i :: i in ranked <==> i in group)
      && (forall i :: i in ranked <==> Refolds(p, i) && NewName(p, i) == NewName(p, id))
      && (forall i, j | 0 <= i < j < |ranked| :: Outranks(p, ranked[i], ranked[j]))
      && ranked != [] && Survivor(p, NewName(p, id)) == ranked[0] && ranked[0] in p.rows && (forall i <- ranked :: i in p.rows)
  {
    RefoldsAre(p, id, NewName(p, id));
    hide Refolds, Outranks, MergedRow, FirstKey, Ranked, Survivor, Group, Best, Considered, Open, Scanned, NewFold, NewName;
    SurvivorIsUnion(p, id);
    var f := NewFold(p, id);
    var group := Group(p, f);
    ranked := Ranked(p, group);
    forall i ensures i in ranked <==> Refolds(p, i) && NewName(p, i) == f {
      RefoldsAre(p, i, f);
    }
    assert id in group;
    RankedInOrder(p, group);
    SurvivorIsBest(p, f);
    assert ranked[0] in ranked;
  }

  lemma RefoldsAre(p: Pass, i: nat, f: string)
    ensures Refolds(p, i) && NewName(p, i) == f <==> Considered(p, i) && NewFold(p, i) == f
    ensures Refolds(p, i) ==> i in p.rows
  {
  }

  lemma SurvivorIsBest(p: Pass, f: string)
    ensures Group(p, f) != [] ==> Survivor(p, f) == Best(p, Group(p, f))
  {
  }

  /** A survivor that is closed has only closed rows behind it, so nothing but autojoin and key changes. */
  lemma MergedKeepsItsOwn(p: Pass, id: nat, ranked: seq<nat>)
    requires id in p.rows && ranked == Ranked(p, Group(p, NewFold(p, id))) && ranked != [] && ranked[0] in p.rows
    requires NewFold(p, ranked[0]) == NewFold(p, id)
    requires forall i, j | 0 <= i < j < |ranked| :: Outranks(p, ranked[i], ranked[j])
    ensures var s := ranked[0]; var r := MergedRow(p, s); r == p.rows[s].(autojoin := r.autojoin, key := r.key)
  {
    var s, rest := ranked[0], ranked[1..];
    forall i | i in rest && !p.rows[s].open ensures i in p.rows ==> !p.rows[i].open {
      var n :| 0 <= n < |rest| && rest[n] == i;
      assert ranked[n + 1] == i && Outranks(p, ranked[0], ranked[n + 1]);
    }
    AbsorbKeepsClosing(p, p.rows[s], rest);
    assert MergedRow(p, s) == AbsorbAll(p, p.rows[s], rest);
    hide AbsorbAll, Ranked, Outranks, MergedRow, Group;
  }
}
