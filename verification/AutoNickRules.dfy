/** The auto-nick highlight rule (server/db/highlightRules.ts): one shared rule per nick, attached to every
    network that uses it and kept right by an upsert on each connect and nick change. */
module AutoNickRules {
  import opened Options

  datatype Kind = Full | Substr | Plain | Glob | Regex

  datatype Rule = Rule(user: nat, pattern: Option<string>, mask: Option<string>, kind: Kind, caseSensitive: bool,
                       enabled: bool, auto: bool)

  /** `links` is the junction table: which network a rule is attached to. */
  datatype Tables = Tables(rules: map<nat, Rule>, nextId: nat, links: set<(nat, nat)>)

  // ----- queries -----

  predicate AutoOf(db: Tables, user: nat, id: nat) {
    id in db.rules && db.rules[id].user == user && db.rules[id].auto
  }

  /** A manual rule that already highlights exactly this nick. */
  predicate Covers(r: Rule, user: nat, nick: string) {
    r.user == user && r.pattern == Some(nick) && r.mask.None? && !r.auto && !r.kind.Regex? && !r.caseSensitive
  }

  predicate Covered(db: Tables, user: nat, nick: string) {
    exists id <- db.rules :: Covers(db.rules[id], user, nick)
  }

  /** The user's auto rules attached to a network; the query takes one of them. */
  function Attached(db: Tables, user: nat, network: nat): set<nat> {
    set id | id in db.rules && AutoOf(db, user, id) && (id, network) in db.links
  }

  function AutosFor(db: Tables, user: nat, nick: string): set<nat> {
    set id | id in db.rules && AutoOf(db, user, id) && db.rules[id].pattern == Some(nick)
  }

  // ----- statements -----

  function Detach(db: Tables, user: nat, network: nat): Tables {
    db.(links := set l | l in db.links && !(l.1 == network && AutoOf(db, user, l.0)))
  }

  function Linked(db: Tables, id: nat): set<nat> { set l | l in db.links && l.0 == id :: l.1 }

  predicate Orphan(db: Tables, user: nat, id: nat) { AutoOf(db, user, id) && Linked(db, id) == {} }

  function Sweep(db: Tables, user: nat): Tables {
    db.(rules := map id | id in db.rules && !Orphan(db, user, id) :: db.rules[id])
  }

  function Enable(db: Tables, id: nat): Tables {
    if id in db.rules && db.rules[id].auto then db.(rules := db.rules[id := db.rules[id].(enabled := true)]) else db
  }

  function InsertAuto(db: Tables, user: nat, nick: string): Tables {
    db.(rules := db.rules[db.nextId := Rule(user, Some(nick), None, Full, false, true, true)], nextId := db.nextId + 1)
  }

  function Attach(db: Tables, id: nat, network: nat): Tables { db.(links := db.links + {(id, network)}) }

  // ----- the upsert -----

  datatype Outcome = Outcome(db: Tables, ruleId: Option<nat>, changed: bool)

  /** Keys are unique, so the one-row queries answer with the only row; these are any of them. */
  ghost function Any(s: set<nat>): (id: nat)
    requires s != {}
    ensures id in s
  {
    var id: nat :| id in s;
    id
  }

  ghost function Remapped(db: Tables, user: nat, network: nat, nick: string): Outcome {
    var found := AutosFor(db, user, nick);
    var id := if found != {} then Any(found) else db.nextId;
    var ready := if found != {} then Enable(db, id) else InsertAuto(db, user, nick);
    Outcome(Sweep(Attach(ready, id, network), user), Some(id), true)
  }

  ghost function Upsert(db: Tables, user: nat, network: nat, nick: string): Outcome {
    var current := Attached(db, user, network);
    if nick == "" then Outcome(db, None, false)
    else if Covered(db, user, nick) then
      if current == {} then Outcome(db, None, false)
      else Outcome(Sweep(Detach(db, user, network), user), None, true)
    else if current != {} && db.rules[Any(current)].pattern == Some(nick) then
      var id := Any(current);
      Outcome(Enable(db, id), Some(id), !db.rules[id].enabled)
    else
      Remapped(if current != {} then Detach(db, user, network) else db, user, network, nick)
  }

  // ----- what holds of the tables -----

  /** Ids are fresh, links name rules, a user has one auto rule per nick and a network at most one of them. */
  ghost predicate Valid(db: Tables) {
    && (forall id <- db.rules :: id < db.nextId)
    && (forall l <- db.links :: l.0 in db.rules)
    && (forall a <- db.rules, b <- db.rules | SameAuto(db.rules[a], db.rules[b]) :: a == b)
    && (forall l <- db.links, m <- db.links | l.1 == m.1 && db.rules[l.0].auto && db.rules[m.0].auto
                                              && db.rules[l.0].user == db.rules[m.0].user :: l == m)
  }

  predicate SameAuto(a: Rule, b: Rule) {
    a.auto && b.auto && a.user == b.user && a.pattern == b.pattern
  }

  ghost predicate NoOrphans(db: Tables, user: nat) {
    forall id :: !Orphan(db, user, id)
  }

  lemma LinkedBy(db: Tables, id: nat, network: nat)
    requires (id, network) in db.links
    ensures network in Linked(db, id)
  {
  }

  // ----- statement by statement -----

  lemma DetachKeeps(db: Tables, user: nat, network: nat)
    requires Valid(db)
    ensures Valid(Detach(db, user, network)) && Attached(Detach(db, user, network), user, network) == {}
  {
    var after := Detach(db, user, network);
    forall id ensures id !in Attached(after, user, network) {
    }
  }

  lemma SweepKeeps(db: Tables, user: nat)
    requires Valid(db)
    ensures Valid(Sweep(db, user)) && NoOrphans(Sweep(db, user), user)
    ensures forall id <- db.rules | exists n :: (id, n) in db.links :: id in Sweep(db, user).rules
  {
    forall l <- db.links ensures l.0 in Sweep(db, user).rules {
      assert l == (l.0, l.1);
      LinkedBy(db, l.0, l.1);
    }
    forall id ensures !Orphan(Sweep(db, user), user, id) {
      assert Linked(Sweep(db, user), id) == Linked(db, id);
    }
    forall id <- db.rules | exists n :: (id, n) in db.links ensures id in Sweep(db, user).rules {
      var n :| (id, n) in db.links;
      LinkedBy(db, id, n);
    }
  }

  lemma EnableKeeps(db: Tables, id: nat)
    requires Valid(db)
    ensures Valid(Enable(db, id))
  {
  }

  lemma InsertKeeps(db: Tables, user: nat, nick: string)
    requires Valid(db) && AutosFor(db, user, nick) == {}
    ensures Valid(InsertAuto(db, user, nick))
  {
    forall id <- db.rules ensures !(AutoOf(db, user, id) && db.rules[id].pattern == Some(nick)) {
      assert id !in AutosFor(db, user, nick);
    }
  }

  lemma AttachKeeps(db: Tables, user: nat, id: nat, network: nat)
    requires Valid(db) && AutoOf(db, user, id) && Attached(db, user, network) == {}
    ensures Valid(Attach(db, id, network)) && Attached(Attach(db, id, network), user, network) == {id}
  {
    forall l <- db.links ensures !(l.1 == network && AutoOf(db, user, l.0)) {
      assert l == (l.0, l.1) && l.0 !in Attached(db, user, network);
    }
  }

  // ----- the upsert -----

  /** What a remap leaves, from tables with the network detached. */
  lemma RemapDoes(db: Tables, user: nat, network: nat, nick: string)
    requires Valid(db) && Attached(db, user, network) == {}
    ensures var o := Remapped(db, user, network, nick);
            && Valid(o.db) && NoOrphans(o.db, user)
            && Attached(o.db, user, network) == {o.ruleId.value}
            && o.db.rules[o.ruleId.value].enabled && o.db.rules[o.ruleId.value].pattern == Some(nick)
  {
    var found := AutosFor(db, user, nick);
    var id := if found != {} then Any(found) else db.nextId;
    var ready := if found != {} then Enable(db, id) else InsertAuto(db, user, nick);
    if found != {} {
      EnableKeeps(db, id);
    } else {
      InsertKeeps(db, user, nick);
    }
    assert AutoOf(ready, user, id) && ready.rules[id].enabled && ready.rules[id].pattern == Some(nick);
    forall i ensures i !in Attached(ready, user, network) {
      assert i !in Attached(db, user, network);
    }
    AttachKeeps(ready, user, id, network);
    var linked := Attach(ready, id, network);
    SweepKeeps(linked, user);
    assert (id, network) in linked.links;
    assert Attached(Sweep(linked, user), user, network) == {id};
  }

  lemma {:induction false} UpsertKeepsValid(db: Tables, user: nat, network: nat, nick: string)
    requires Valid(db)
    ensures Valid(Upsert(db, user, network, nick).db)
  {
    hide Valid, NoOrphans, Detach, Sweep, Enable, Remapped, Attached, Covered, AutosFor, AutoOf;
    var current := Attached(db, user, network);
    DetachKeeps(db, user, network);
    SweepKeeps(Detach(db, user, network), user);
    if current != {} {
      EnableKeeps(db, Any(current));
    }
    RemapDoes(if current != {} then Detach(db, user, network) else db, user, network, nick);
  }

  /** After the upsert a network carries exactly one auto rule, enabled and for its nick, or none when a
      manual rule covers the nick. */
  lemma UpsertSetsNick(db: Tables, user: nat, network: nat, nick: string)
    requires Valid(db) && nick != ""
    ensures var o := Upsert(db, user, network, nick);
            if Covered(o.db, user, nick) then o.ruleId.None? && Attached(o.db, user, network) == {}
            else && o.ruleId.Some? && Attached(o.db, user, network) == {o.ruleId.value}
                 && o.db.rules[o.ruleId.value].enabled && o.db.rules[o.ruleId.value].pattern == Some(nick)
    ensures Covered(Upsert(db, user, network, nick).db, user, nick) == Covered(db, user, nick)
  {
    UpsertKeepsCover(db, user, network, nick);
    var current := Attached(db, user, network);
    var detached := Detach(db, user, network);
    DetachKeeps(db, user, network);
    if current != {} {
      OneAttached(db, user, network, Any(current));
      EnableAttached(db, user, network, Any(current));
    }
    SweptAttached(detached, user, network);
    RemapDoes(if current != {} then detached else db, user, network, nick);
    hide Valid, Detach, Sweep, Remapped, Attached, Covered, AutosFor;
  }

  lemma SweptAttached(db: Tables, user: nat, network: nat)
    requires Attached(db, user, network) == {}
    ensures Attached(Sweep(db, user), user, network) == {}
  {
    forall id ensures id !in Attached(Sweep(db, user), user, network) {
      assert id !in Attached(db, user, network);
    }
  }

  lemma OneAttached(db: Tables, user: nat, network: nat, id: nat)
    requires Valid(db) && id in Attached(db, user, network)
    ensures Attached(db, user, network) == {id}
  {
    forall i | i in Attached(db, user, network) ensures i == id {
      assert (i, network) in db.links && (id, network) in db.links;
    }
  }

  lemma EnableAttached(db: Tables, user: nat, network: nat, id: nat)
    ensures Attached(Enable(db, id), user, network) == Attached(db, user, network)
  {
  }

  // ----- what the upsert leaves alone -----

  /** Manual rules and other users' rules stay exactly as they are; other networks keep their attachments,
      and a rule attached to one of them keeps everything but a disabled flag. */
  ghost predicate OthersKept(db: Tables, after: Tables, user: nat, network: nat) {
    && (forall id :: id in db.rules && !AutoOf(db, user, id) ==> id in after.rules && after.rules[id] == db.rules[id])
    && (forall id :: id in after.rules && !AutoOf(after, user, id) ==> id in db.rules && db.rules[id] == after.rules[id])
    && (forall id, n :: n != network || (id in db.rules && !AutoOf(db, user, id)) ==> ((id, n) in after.links <==> (id, n) in db.links))
    && (forall id, n :: n != network && (id, n) in db.links && id in db.rules ==>
          id in after.rules && after.rules[id].(enabled := true) == db.rules[id].(enabled := true))
  }

  lemma KeptTransitive(a: Tables, b: Tables, c: Tables, user: nat, network: nat)
    requires OthersKept(a, b, user, network) && OthersKept(b, c, user, network)
    ensures OthersKept(a, c, user, network)
  {
  }

  lemma SweepKeepsOthers(db: Tables, user: nat, network: nat)
    ensures OthersKept(db, Sweep(db, user), user, network)
  {
    forall id, n | (id, n) in db.links && id in db.rules ensures id in Sweep(db, user).rules {
      LinkedBy(db, id, n);
    }
  }

  lemma DetachKeepsOthers(db: Tables, user: nat, network: nat)
    ensures OthersKept(db, Detach(db, user, network), user, network)
  {
  }

  lemma EnableKeepsOthers(db: Tables, user: nat, network: nat, id: nat)
    requires AutoOf(db, user, id)
    ensures OthersKept(db, Enable(db, id), user, network)
  {
  }

  lemma InsertKeepsOthers(db: Tables, user: nat, network: nat, nick: string)
    requires Valid(db)
    ensures OthersKept(db, InsertAuto(db, user, nick), user, network)
  {
  }

  lemma AttachKeepsOthers(db: Tables, user: nat, network: nat, id: nat)
    requires AutoOf(db, user, id)
    ensures OthersKept(db, Attach(db, id, network), user, network)
  {
  }

  lemma RemapKeepsOthers(db: Tables, user: nat, network: nat, nick: string)
    requires Valid(db)
    ensures OthersKept(db, Remapped(db, user, network, nick).db, user, network)
  {
    var found := AutosFor(db, user, nick);
    var id := if found != {} then Any(found) else db.nextId;
    var ready := if found != {} then Enable(db, id) else InsertAuto(db, user, nick);
    if found != {} {
      EnableKeepsOthers(db, user, network, id);
    } else {
      InsertKeepsOthers(db, user, network, nick);
    }
    assert AutoOf(ready, user, id);
    AttachKeepsOthers(ready, user, network, id);
    var linked := Attach(ready, id, network);
    SweepKeepsOthers(linked, user, network);
    hide OthersKept, Valid, Enable, InsertAuto, Attach, Sweep, AutosFor;
    KeptTransitive(db, ready, linked, user, network);
    KeptTransitive(db, linked, Sweep(linked, user), user, network);
  }

  lemma UpsertKeepsOthers(db: Tables, user: nat, network: nat, nick: string)
    requires Valid(db)
    ensures OthersKept(db, Upsert(db, user, network, nick).db, user, network)
  {
    var current := Attached(db, user, network);
    var detached := Detach(db, user, network);
    if current != {} {
      EnableKeepsOthers(db, user, network, Any(current));
    }
    assert OthersKept(db, db, user, network);
    hide OthersKept, Remapped, AutosFor, Valid, Attached, Sweep, Detach, Enable;
    if nick != "" {
      if current != {} {
        DetachKeeps(db, user, network);
        DetachKeepsOthers(db, user, network);
        if Covered(db, user, nick) {
          SweepKeepsOthers(detached, user, network);
          KeptTransitive(db, detached, Sweep(detached, user), user, network);
        } else {
          RemapKeepsOthers(detached, user, network, nick);
          KeptTransitive(db, detached, Remapped(detached, user, network, nick).db, user, network);
        }
      } else {
        RemapKeepsOthers(db, user, network, nick);
      }
    }
  }

  lemma UpsertKeepsCover(db: Tables, user: nat, network: nat, nick: string)
    requires Valid(db)
    ensures Covered(Upsert(db, user, network, nick).db, user, nick) == Covered(db, user, nick)
  {
    UpsertKeepsOthers(db, user, network, nick);
    var after := Upsert(db, user, network, nick).db;
    hide Upsert, Valid;
    if Covered(db, user, nick) {
      var id :| id in db.rules && Covers(db.rules[id], user, nick);
      assert Covers(after.rules[id], user, nick);
    }
    if Covered(after, user, nick) {
      var id :| id in after.rules && Covers(after.rules[id], user, nick);
      assert Covers(db.rules[id], user, nick);
    }
  }

  // ----- orphans, and when the upsert says it changed something -----

  /** No auto rule is left without a network if none was before. */
  lemma UpsertLeavesNoOrphans(db: Tables, user: nat, network: nat, nick: string)
    requires Valid(db) && NoOrphans(db, user)
    ensures NoOrphans(Upsert(db, user, network, nick).db, user)
  {
    var current := Attached(db, user, network);
    if current != {} {
      EnableOrphans(db, user, Any(current));
    }
    hide Valid, NoOrphans, Orphan, Detach, Sweep, Enable, Remapped, Attached, Covered, AutosFor, AutoOf;
    DetachKeeps(db, user, network);
    SweepKeeps(Detach(db, user, network), user);
    RemapDoes(if current != {} then Detach(db, user, network) else db, user, network, nick);
  }

  lemma EnableOrphans(db: Tables, user: nat, id: nat)
    requires NoOrphans(db, user)
    ensures NoOrphans(Enable(db, id), user)
  {
    forall i ensures !Orphan(Enable(db, id), user, i) {
      assert !Orphan(db, user, i);
    }
  }

  /** `changed` is the truth: the caller refetches exactly when a table changed. */
  lemma ChangedIffDifferent(db: Tables, user: nat, network: nat, nick: string)
    requires Valid(db)
    ensures var o := Upsert(db, user, network, nick); o.changed <==> o.db != db
  {
    var o := Upsert(db, user, network, nick);
    var current := Attached(db, user, network);
    if nick != "" && o.changed {
      UpsertSetsNick(db, user, network, nick);
      if current != {} {
        OneAttached(db, user, network, Any(current));
      }
    }
    hide Covered, AutosFor, Valid, Sweep, Detach, Remapped;
  }

  /** Asking again at once changes nothing, says so, and names the same rule. */
  lemma UpsertTwice(db: Tables, user: nat, network: nat, nick: string)
    requires Valid(db)
    ensures var o := Upsert(db, user, network, nick);
            Upsert(o.db, user, network, nick) == Outcome(o.db, o.ruleId, false)
  {
    if nick != "" {
      UpsertSetsNick(db, user, network, nick);
      hide Covered, Valid;
      var o := Upsert(db, user, network, nick);
      if o.ruleId.Some? {
        assert Any(Attached(o.db, user, network)) == o.ruleId.value;
      }
      hide Attached, Sweep, Detach, Remapped;
    }
  }

  // ----- runs -----

  /** Besides the upsert: a manual rule is written (created, edited, rescoped to at most one network) or
      deleted, and a network is deleted with its attachments. Auto rules are not the user's to edit. */
  datatype Op =
    | Nick(user: nat, network: nat, nick: string)
    | Create(rule: Rule, scope: Option<nat>)
    | Edit(id: nat, rule: Rule, scope: Option<nat>)
    | Remove(id: nat)
    | DropNetwork(network: nat)

  predicate Manual(db: Tables, id: nat) { id in db.rules && !db.rules[id].auto }

  function Scoped(links: set<(nat, nat)>, id: nat, scope: Option<nat>): set<(nat, nat)> {
    (set l | l in links && l.0 != id) + (if scope.Some? then {(id, scope.value)} else {})
  }

  ghost function Apply(db: Tables, op: Op): Tables {
    match op
    case Nick(user, network, nick) => Upsert(db, user, network, nick).db
    case Create(rule, scope) =>
      Tables(db.rules[db.nextId := rule.(auto := false)], db.nextId + 1, Scoped(db.links, db.nextId, scope))
    case Edit(id, rule, scope) =>
      if Manual(db, id) && rule.user == db.rules[id].user
        then db.(rules := db.rules[id := rule.(auto := false)], links := Scoped(db.links, id, scope)) else db
    case Remove(id) =>
      if Manual(db, id) then db.(rules := db.rules - {id}, links := Scoped(db.links, id, None)) else db
    case DropNetwork(network) => db.(links := set l | l in db.links && l.1 != network)
  }

  lemma StepKeepsValid(db: Tables, op: Op)
    requires Valid(db)
    ensures Valid(Apply(db, op))
  {
    if op.Nick? {
      UpsertKeepsValid(db, op.user, op.network, op.nick);
    }
    hide Upsert;
  }

  ghost function Run(db: Tables, ops: seq<Op>): Tables
    decreases |ops|
  {
    if ops == [] then db else Run(Apply(db, ops[0]), ops[1..])
  }

  /** At most one auto rule per nick and per network, through every run. */
  lemma {:induction false} RunKeepsValid(db: Tables, ops: seq<Op>)
    requires Valid(db)
    ensures Valid(Run(db, ops))
    decreases |ops|
  {
    if ops != [] {
      StepKeepsValid(db, ops[0]);
      RunKeepsValid(Apply(db, ops[0]), ops[1..]);
    }
  }

  // ----- the tables in place -----

  class RuleStore {
    var rules: map<nat, Rule>
    var nextId: nat
    var links: set<(nat, nat)>

    ghost function Db(): Tables
      reads this
    {
      Tables(rules, nextId, links)
    }

    constructor ()
      ensures Db() == Tables(map[], 0, {})
    {
      rules, nextId, links := map[], 0, {};
    }

    method UpsertAutoNickRule(user: nat, network: nat, nick: string) returns (ruleId: Option<nat>, changed: bool)
      requires Valid(Db())
      modifies this
      ensures Outcome(Db(), ruleId, changed) == Upsert(old(Db()), user, network, nick)
      ensures Valid(Db())
    {
      UpsertKeepsValid(Db(), user, network, nick);
      if nick == "" {
        return None, false;
      }
      var here := Tables(rules, nextId, links);
      var manual := Covered(here, user, nick);
      var current := Attached(here, user, network);
      if manual {
        if current == {} {
          return None, false;
        }
        links := Detach(here, user, network).links;
        rules := Sweep(Tables(rules, nextId, links), user).rules;
        return None, true;
      }
      if current != {} {
        var id := First(current);
        OneAttached(here, user, network, id);
        if rules[id].pattern == Some(nick) {
          changed := !rules[id].enabled;
          rules := Enable(here, id).rules;
          return Some(id), changed;
        }
        DetachKeeps(here, user, network);
        links := Detach(here, user, network).links;
      }
      var id := Remap(user, network, nick);
      return Some(id), true;
    }

    /** Find or create the auto rule for the nick, attach the network, sweep. */
    method Remap(user: nat, network: nat, nick: string) returns (id: nat)
      requires Valid(Db())
      modifies this
      ensures Outcome(Db(), Some(id), true) == Remapped(old(Db()), user, network, nick)
    {
      var here := Tables(rules, nextId, links);
      var found := AutosFor(here, user, nick);
      if found != {} {
        id := First(found);
        OneAuto(here, user, nick, id);
        rules := Enable(here, id).rules;
      } else {
        id := nextId;
        rules, nextId := rules[id := Rule(user, Some(nick), None, Full, false, true, true)], nextId + 1;
      }
      links := links + {(id, network)};
      rules := Sweep(Tables(rules, nextId, links), user).rules;
    }
  }

  lemma OneAuto(db: Tables, user: nat, nick: string, id: nat)
    requires Valid(db) && id in AutosFor(db, user, nick)
    ensures AutosFor(db, user, nick) == {id}
  {
    forall i | i in AutosFor(db, user, nick) ensures i == id {
      assert SameAuto(db.rules[i], db.rules[id]);
    }
  }

  method First(s: set<nat>) returns (x: nat)
    requires s != {}
    ensures x in s
  {
    var i: nat :| i in s;
    x := i;
  }
}
