/** The rule an auto-nick upsert leaves, field by field (server/db/highlightRules.ts). */
module AutoNickOutcome {
  import opened Options
  import opened AutoNickRules

  /** A manual rule covers the nick when it is the user's own, its pattern is the nick, and it matches any
      sender and case as text or as a glob. */
  predicate CoversNick(r: Rule, user: nat, nick: string) {
    && r.user == user && r.pattern == Some(nick) && r.mask == None && !r.auto && !r.caseSensitive
    && r.kind in {Full, Substr, Plain, Glob}
  }

  lemma CoveredWhen(db: Tables, user: nat, nick: string)
    ensures Covered(db, user, nick) <==> exists id <- db.rules :: CoversNick(db.rules[id], user, nick)
  {
    forall r: Rule ensures Covers(r, user, nick) <==> CoversNick(r, user, nick) {}
    hide Covers, CoversNick;
  }

  /** The user's auto rule for the nick. */
  predicate AutoFor(r: Rule, user: nat, nick: string) {
    r.user == user && r.auto && r.pattern == Some(nick)
  }

  /** Without a covering rule the network is attached to the user's auto rule for the nick, which is enabled
      and otherwise as it was; if there was none, to a new one: a whole-word, any-case rule without a mask. */
  lemma UpsertRuleIs(db: Tables, user: nat, network: nat, nick: string)
    requires Valid(db) && nick != "" && forall id <- db.rules :: !CoversNick(db.rules[id], user, nick)
    ensures var o := Upsert(db, user, network, nick);
      && o.ruleId.Some? && o.ruleId.value in o.db.rules && (o.ruleId.value, network) in o.db.links
      && (forall id <- db.rules | AutoFor(db.rules[id], user, nick) ::
            o.ruleId.value == id && o.db.rules[id] == db.rules[id].(enabled := true) && o.db.nextId == db.nextId)
      && ((forall id <- db.rules :: !AutoFor(db.rules[id], user, nick)) ==>
            && o.ruleId.value == db.nextId && o.db.nextId == db.nextId + 1
            && o.db.rules[db.nextId] == Rule(user, Some(nick), None, Full, false, true, true))
  {
    CoveredWhen(db, user, nick);
    var current := Attached(db, user, network);
    if current != {} && db.rules[Any(current)].pattern == Some(nick) {
      var id := Any(current);
      assert AutoFor(db.rules[id], user, nick) && (id, network) in db.links;
      OneAutoFor(db, user, nick, id);
      hide Valid;
    } else {
      var base := if current != {} then Detach(db, user, network) else db;
      RemapIs(base, user, network, nick);
      forall id | id in db.rules && AutoFor(db.rules[id], user, nick) ensures id in AutosFor(base, user, nick) {}
      forall id | id in AutosFor(base, user, nick) ensures id in db.rules && AutoFor(db.rules[id], user, nick) {
        OneAutoFor(db, user, nick, id);
      }
      assert base.rules == db.rules && base.nextId == db.nextId;
      hide Valid, Remapped, Attached;
      if AutosFor(base, user, nick) != {} {
        var id := Any(AutosFor(base, user, nick));
        OneAutoFor(db, user, nick, id);
      }
    }
  }

  lemma OneAutoFor(db: Tables, user: nat, nick: string, id: nat)
    requires Valid(db) && id in db.rules && AutoFor(db.rules[id], user, nick)
    ensures forall o <- db.rules | AutoFor(db.rules[o], user, nick) :: o == id
  {
    forall o | o in db.rules && AutoFor(db.rules[o], user, nick) ensures o == id {
      assert SameAuto(db.rules[o], db.rules[id]);
    }
  }

  lemma RemapIs(db: Tables, user: nat, network: nat, nick: string)
    requires forall id <- db.rules :: id < db.nextId
    ensures var found, o := AutosFor(db, user, nick), Remapped(db, user, network, nick);
      && o.ruleId.Some? && o.ruleId.value in o.db.rules && (o.ruleId.value, network) in o.db.links
      && (found != {} ==>
            var id := Any(found);
            o.ruleId.value == id && o.db.rules[id] == db.rules[id].(enabled := true) && o.db.nextId == db.nextId)
      && (found == {} ==>
            && o.ruleId.value == db.nextId && o.db.nextId == db.nextId + 1
            && o.db.rules[db.nextId] == Rule(user, Some(nick), None, Full, false, true, true))
  {
    var found := AutosFor(db, user, nick);
    var id := if found != {} then Any(found) else db.nextId;
    var ready := if found != {} then Enable(db, id) else InsertAuto(db, user, nick);
    var attached := Attach(ready, id, network);
    assert (id, network) in attached.links && id in attached.rules;
    assert network in Linked(attached, id);
    assert !Orphan(attached, user, id);
  }

  /** A covered nick leaves the network without an auto rule, and no other table entry but auto rules that
      nothing uses. */
  lemma CoveredOutcome(db: Tables, user: nat, network: nat, nick: string)
    requires Valid(db) && nick != "" && exists id <- db.rules :: CoversNick(db.rules[id], user, nick)
    ensures var o := Upsert(db, user, network, nick);
      && o.ruleId == None && o.db.nextId == db.nextId
      && (forall l :: l in o.db.links <==> l in db.links && !(l.1 == network && db.rules[l.0].user == user && db.rules[l.0].auto))
      && (forall id <- o.db.rules :: id in db.rules && o.db.rules[id] == db.rules[id])
      && (forall id <- db.rules | id !in o.db.rules ::
            db.rules[id].user == user && db.rules[id].auto && forall n :: (id, n) !in o.db.links)
  {
    CoveredWhen(db, user, nick);
    hide Covered;
    var o, current := Upsert(db, user, network, nick), Attached(db, user, network);
    if current == {} {
      assert forall l | l in db.links && l.1 == network && db.rules[l.0].user == user && db.rules[l.0].auto ::
          l == (l.0, network) && l.0 in current;
    } else {
      SweepTakes(Detach(db, user, network), user);
    }
  }

  lemma SweepTakes(db: Tables, user: nat)
    ensures var after := Sweep(db, user);
      && after == db.(rules := after.rules)
      && (forall id <- after.rules :: id in db.rules && after.rules[id] == db.rules[id])
      && (forall id <- db.rules | id !in after.rules ::
            db.rules[id].user == user && db.rules[id].auto && forall n :: (id, n) !in db.links)
  {
    forall id, n | (id, n) in db.links ensures n in Linked(db, id) {
    }
  }

  /** No other rule appears or changes, whatever the case; what goes is auto rules nothing uses. */
  lemma RulesAfter(db: Tables, user: nat, network: nat, nick: string, id: nat)
    requires Valid(db)
    ensures var o := Upsert(db, user, network, nick);
      && (id in o.db.rules && o.ruleId != Some(id) ==> id in db.rules && o.db.rules[id] == db.rules[id])
      && (id in db.rules && id !in o.db.rules ==>
            db.rules[id].user == user && db.rules[id].auto && forall n :: (id, n) !in o.db.links)
  {
    hide Valid, Covered, Attached, AutosFor, Sweep, Remapped;
    var current := Attached(db, user, network);
    var base := if current != {} then Detach(db, user, network) else db;
    SweepTakes(Detach(db, user, network), user);
    RemapRules(base, user, network, nick, id);
    assert base.rules == db.rules;
  }

  lemma OrphanWhen(db: Tables, user: nat, id: nat)
    ensures Orphan(db, user, id) <==>
              id in db.rules && db.rules[id].user == user && db.rules[id].auto && forall n :: (id, n) !in db.links
  {
    forall n | (id, n) in db.links ensures n in Linked(db, id) {
    }
    if n :| n in Linked(db, id) {
      assert (id, n) in db.links;
    }
  }

  /** No auto rule of the user is left without a network, if none was before. */
  lemma NoneUnused(db: Tables, user: nat, network: nat, nick: string, id: nat)
    requires Valid(db) && forall o <- db.rules | db.rules[o].user == user && db.rules[o].auto :: exists n :: (o, n) in db.links
    ensures var after := Upsert(db, user, network, nick).db;
            id in after.rules && after.rules[id].user == user && after.rules[id].auto ==> exists n :: (id, n) in after.links
  {
    forall o ensures !Orphan(db, user, o) {
      OrphanWhen(db, user, o);
    }
    UpsertLeavesNoOrphans(db, user, network, nick);
    OrphanWhen(Upsert(db, user, network, nick).db, user, id);
    hide Upsert, Valid;
    assert !Orphan(Upsert(db, user, network, nick).db, user, id);
  }

  /** Attachments change on that network only, and only those of the user's auto rules; and a rule another
      network uses stays, at most enabled. */
  lemma AttachmentsAfter(db: Tables, user: nat, network: nat, nick: string, id: nat, n: nat)
    requires Valid(db)
    ensures var after := Upsert(db, user, network, nick).db;
      && (n != network || (id in db.rules && !(db.rules[id].user == user && db.rules[id].auto)) ==>
            ((id, n) in after.links <==> (id, n) in db.links))
      && (n != network && (id, n) in db.links ==>
            id in after.rules && (after.rules[id] == db.rules[id] || after.rules[id] == db.rules[id].(enabled := true)))
  {
    UpsertKeepsOthers(db, user, network, nick);
    var after := Upsert(db, user, network, nick).db;
    assert OthersKept(db, after, user, network);
    assert n != network && (id, n) in db.links ==> (id, n).0 in db.rules;
    RulesAfter(db, user, network, nick, id);
    hide Upsert, Valid;
    if n != network && (id, n) in db.links {
      assert id in after.rules && after.rules[id].(enabled := true) == db.rules[id].(enabled := true);
      EnabledOnly(db, user, network, nick, id);
    }
  }

  lemma EnabledOnly(db: Tables, user: nat, network: nat, nick: string, id: nat)
    requires Valid(db) && id in db.rules && id in Upsert(db, user, network, nick).db.rules
    ensures var after := Upsert(db, user, network, nick).db;
            after.rules[id] == db.rules[id] || after.rules[id] == db.rules[id].(enabled := true)
  {
    RulesAfter(db, user, network, nick, id);
    var o := Upsert(db, user, network, nick);
    if nick != "" && o.ruleId == Some(id) {
      CoveredWhen(db, user, nick);
      if Covered(db, user, nick) {
        CoveredOutcome(db, user, network, nick);
      } else {
        UpsertRuleIs(db, user, network, nick);
        UpsertSetsNick(db, user, network, nick);
        hide Upsert, Valid, Covered;
      }
    }
  }

  /** What the user's own edits do: a rule of theirs is made, replaced or removed with its one attachment, auto
      rules are refused, and a network that goes takes its attachments. */
  lemma EditOutcome(db: Tables, op: Op)
    requires !op.Nick? && db.nextId !in db.rules
    ensures var after := Apply(db, op);
      && (forall id <- db.rules | db.rules[id].auto :: id in after.rules && after.rules[id] == db.rules[id])
      && match op
         case Create(rule, scope) =>
           && after.rules == db.rules[db.nextId := rule.(auto := false)] && after.nextId == db.nextId + 1
           && (forall l: (nat, nat) :: l in after.links <==> if l.0 == db.nextId then scope == Some(l.1) else l in db.links)
         case Edit(id, rule, scope) =>
           if id in db.rules && !db.rules[id].auto && rule.user == db.rules[id].user
           then && after.rules == db.rules[id := rule.(auto := false)] && after.nextId == db.nextId
                && (forall l: (nat, nat) :: l in after.links <==> if l.0 == id then scope == Some(l.1) else l in db.links)
           else after == db
         case Remove(id) =>
           if id in db.rules && !db.rules[id].auto
           then && after.rules == db.rules - {id} && after.nextId == db.nextId
                && (forall l: (nat, nat) :: l in after.links <==> l.0 != id && l in db.links)
           else after == db
         case DropNetwork(network) =>
           && after.rules == db.rules && after.nextId == db.nextId
           && (forall l: (nat, nat) :: l in after.links <==> l.1 != network && l in db.links)
         case _ => true
  {
  }

  lemma RemapRules(db: Tables, user: nat, network: nat, nick: string, id: nat)
    ensures var o := Remapped(db, user, network, nick);
      && (id in o.db.rules && o.ruleId != Some(id) ==> id in db.rules && o.db.rules[id] == db.rules[id])
      && (id in db.rules && id !in o.db.rules && o.ruleId != Some(id) ==>
            db.rules[id].user == user && db.rules[id].auto && forall n :: (id, n) !in o.db.links)
      && (o.ruleId == Some(id) ==> id in o.db.rules)
  {
    hide AutosFor;
    var found := AutosFor(db, user, nick);
    var rule := if found != {} then Any(found) else db.nextId;
    var ready := if found != {} then Enable(db, rule) else InsertAuto(db, user, nick);
    var attached := Attach(ready, rule, network);
    assert network in Linked(attached, rule);
    assert found != {} ==> rule in db.rules by { FoundIsThere(db, user, nick); }
    assert rule in Sweep(attached, user).rules;
    SweepTakes(attached, user);
    hide Sweep;
  }

  lemma FoundIsThere(db: Tables, user: nat, nick: string)
    ensures forall id <- AutosFor(db, user, nick) :: id in db.rules
  {
  }
}
