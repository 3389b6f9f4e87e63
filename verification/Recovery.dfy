/** Account recovery links (server/db/accountRecovery.ts): single-use, one per account, and redeeming one
    replaces every credential of the account. */
module Recovery {
  import opened Options
  import IntSets

  type Hash = int

  /** A raw token only ever lives in a link; the table holds its hash. */
  type Token = nat

  datatype Link = Link(user: nat, expires: int)

  /** Links by token hash, the primary key; passkeys by credential id, unique over the whole instance. */
  datatype Db = Db(links: map<Hash, Link>, passwords: map<nat, string>, passkeys: map<string, nat>)

  ghost predicate Injective(hash: Token -> Hash) {
    forall a, b | hash(a) == hash(b) :: a == b
  }

  // ----- statements -----

  function LinksOf(db: Db, user: nat): set<Hash> {
    set h | h in db.links && db.links[h].user == user
  }

  function DeleteLinks(db: Db, user: nat): Db {
    db.(links := map h | h in db.links && db.links[h].user != user :: db.links[h])
  }

  predicate Live(db: Db, h: Hash, now: int) {
    h in db.links && now < db.links[h].expires
  }

  function DeletePasskeys(db: Db, user: nat): Db {
    db.(passkeys := map c | c in db.passkeys && db.passkeys[c] != user :: db.passkeys[c])
  }

  function SetPassword(db: Db, user: nat, password: Option<string>): Db {
    db.(passwords := if password.Some? then db.passwords[user := password.value] else db.passwords - {user})
  }

  function Consume(db: Db, h: Hash): Db { db.(links := db.links - {h}) }

  // ----- operations -----

  datatype Op =
    | Issue(user: nat, token: Token, expires: int)
    | Redeem(token: Token, password: string, now: int)
    | Enroll(token: Token, expected: nat, credential: string, now: int)
    | Revoke(user: nat)
    | Purge(now: int)
    | Login(user: nat, secret: Option<string>, passkeys: map<string, nat>)

  /** Done with the account, null for a link already gone or nothing to say, the insert's throw, or a
      revocation's answer whether there was a link. */
  datatype Outcome = Done(user: nat) | Null | Threw | Revoked(existed: bool)

  datatype Step = Step(db: Db, outcome: Outcome)

  /** An account's own upsert replaces its link; the hash is the primary key. */
  function IssueStep(hash: Token -> Hash, db: Db, user: nat, token: Token, expires: int): Step {
    var h := hash(token);
    if h in db.links && db.links[h].user != user then Step(db, Threw)
    else Step(DeleteLinks(db, user).(links := DeleteLinks(db, user).links[h := Link(user, expires)]), Null)
  }

  function RedeemStep(hash: Token -> Hash, db: Db, token: Token, password: string, now: int): Step {
    var h := hash(token);
    if !Live(db, h, now) then Step(db, Null)
    else
      var user := db.links[h].user;
      Step(SetPassword(DeletePasskeys(Consume(db, h), user), user, Some(password)), Done(user))
  }

  function EnrollStep(hash: Token -> Hash, db: Db, token: Token, expected: nat, credential: string, now: int): Step {
    var h := hash(token);
    if !Live(db, h, now) || db.links[h].user != expected then Step(db, Null)
    else
      var wiped := SetPassword(DeletePasskeys(Consume(db, h), expected), expected, None);
      if credential in wiped.passkeys then Step(db, Threw)
      else Step(wiped.(passkeys := wiped.passkeys[credential := expected]), Done(expected))
  }

  function Sweep(db: Db, now: int): Db {
    db.(links := map h | h in db.links && now < db.links[h].expires :: db.links[h])
  }

  /** `Login` stands for everything else accounts do with their credentials. */
  function Perform(hash: Token -> Hash, db: Db, op: Op): Step {
    match op
    case Issue(user, token, expires) => IssueStep(hash, db, user, token, expires)
    case Redeem(token, password, now) => RedeemStep(hash, db, token, password, now)
    case Enroll(token, expected, credential, now) => EnrollStep(hash, db, token, expected, credential, now)
    case Revoke(user) => Step(DeleteLinks(db, user), Revoked(LinksOf(db, user) != {}))
    case Purge(now) => Step(Sweep(db, now), Null)
    case Login(user, secret, passkeys) => Step(SetPassword(db, user, secret).(passkeys := passkeys), Null)
  }

  function Run(hash: Token -> Hash, db: Db, ops: seq<Op>): Db
    decreases |ops|
  {
    if ops == [] then db else Perform(hash, Run(hash, db, ops[..|ops| - 1]), ops[|ops| - 1]).db
  }

  // ----- one link per account -----

  ghost predicate OnePerAccount(db: Db) {
    forall a <- db.links, b <- db.links | db.links[a].user == db.links[b].user :: a == b
  }

  /** Through every run an account has at most one outstanding link. */
  lemma {:induction false} RunKeepsOnePerAccount(hash: Token -> Hash, db: Db, ops: seq<Op>)
    requires OnePerAccount(db)
    ensures OnePerAccount(Run(hash, db, ops))
    decreases |ops|
  {
    if ops != [] {
      RunKeepsOnePerAccount(hash, db, ops[..|ops| - 1]);
    }
  }

  // ----- redemptions -----

  predicate Redeems(op: Op, t: Token) { (op.Redeem? || op.Enroll?) && op.token == t }

  predicate Succeeds(hash: Token -> Hash, db: Db, op: Op) {
    (op.Redeem? || op.Enroll?) && Perform(hash, db, op).outcome.Done?
  }

  datatype Credential = Password(text: string) | Passkey(id: string)

  /** Everything the account can sign in with. */
  function CredentialsOf(db: Db, user: nat): set<Credential> {
    (if user in db.passwords then {Password(db.passwords[user])} else {})
    + (set c | c in db.passkeys && db.passkeys[c] == user :: Passkey(c))
  }

  /** A redemption that returns null or throws changes nothing; one that succeeds spends exactly the link
      and leaves its account with exactly the new credential, and every other account as it was. */
  lemma RedemptionIsAllOrNothing(hash: Token -> Hash, db: Db, op: Op)
    requires op.Redeem? || op.Enroll?
    ensures var s := Perform(hash, db, op);
            if s.outcome.Done? then
              var user := s.outcome.user;
              && hash(op.token) in db.links && db.links[hash(op.token)].user == user && op.now < db.links[hash(op.token)].expires
              && (op.Enroll? ==> user == op.expected)
              && s.db.links == db.links - {hash(op.token)}
              && CredentialsOf(s.db, user) == {if op.Redeem? then Password(op.password) else Passkey(op.credential)}
              && forall other | other != user :: CredentialsOf(s.db, other) == CredentialsOf(db, other)
            else s.db == db
  {
    hide IssueStep;
    var s := Perform(hash, db, op);
    if s.outcome.Done? {
      var user := s.outcome.user;
      forall other | other != user ensures CredentialsOf(s.db, other) == CredentialsOf(db, other) {
      }
    }
  }

  /** A live link always redeems by password, and enrolls unless the authenticator belongs to another account. */
  lemma LiveLinkRedeems(hash: Token -> Hash, db: Db, op: Op)
    requires (op.Redeem? || op.Enroll?) && Live(db, hash(op.token), op.now)
    requires op.Enroll? ==> db.links[hash(op.token)].user == op.expected
    ensures Succeeds(hash, db, op) <==> op.Redeem? || op.credential !in db.passkeys || db.passkeys[op.credential] == op.expected
  {
  }

  /** A redemption that does not succeed says why: null when the link is not live, or not the expected
      account's; a throw, of an enrolment only, when the authenticator belongs to another account. */
  lemma RefusalsSayWhy(hash: Token -> Hash, db: Db, op: Op)
    requires op.Redeem? || op.Enroll?
    ensures var h, outcome := hash(op.token), Perform(hash, db, op).outcome;
      var due := h in db.links && op.now < db.links[h].expires && (op.Enroll? ==> db.links[h].user == op.expected);
      && (outcome == Null <==> !due)
      && (outcome == Threw <==> due && op.Enroll? && op.credential in db.passkeys && db.passkeys[op.credential] != op.expected)
  {
  }

  // ----- dead links -----

  predicate Issues(op: Op, t: Token) { op.Issue? && op.token == t }

  /** A token that is not in the table and is not issued again stays out of it. */
  lemma {:induction false} DeadStaysDead(hash: Token -> Hash, db: Db, ops: seq<Op>, t: Token)
    requires Injective(hash)
    requires hash(t) !in db.links && forall op <- ops :: !Issues(op, t)
    ensures hash(t) !in Run(hash, db, ops).links
    decreases |ops|
  {
    if ops != [] {
      var before := ops[..|ops| - 1];
      assert forall op <- before :: op in ops;
      DeadStaysDead(hash, db, before, t);
      var op := ops[|ops| - 1];
      assert !Issues(op, t);
    }
  }

  lemma {:induction false} RunSplits(hash: Token -> Hash, db: Db, a: seq<Op>, b: seq<Op>)
    ensures Run(hash, db, a + b) == Run(hash, Run(hash, db, a), b)
    decreases |b|
  {
    if b == [] {
      assert a + b == a;
    } else {
      assert (a + b)[..|a + b| - 1] == a + b[..|b| - 1];
      RunSplits(hash, db, a, b[..|b| - 1]);
    }
  }

  /** What ends a link of this account: its redemption, a later issue, or a revocation. */
  predicate Ends(hash: Token -> Hash, db: Db, op: Op, t: Token, user: nat) {
    (Redeems(op, t) && Succeeds(hash, db, op)) || (op.Issue? && op.user == user && op.token != t && Perform(hash, db, op).outcome.Null?)
    || (op.Revoke? && op.user == user)
  }

  lemma EndedIsDead(hash: Token -> Hash, db: Db, op: Op, t: Token, user: nat)
    requires Injective(hash)
    requires hash(t) in db.links ==> db.links[hash(t)].user == user
    requires Ends(hash, db, op, t, user)
    ensures hash(t) !in Perform(hash, db, op).db.links
  {
  }

  /** A link works at most once, and never after a later issue for its account or a revocation: whatever
      the run, once it has ended, redeeming its token again fails, as long as the token is not reissued. */
  lemma EndedLinkNeverRedeems(hash: Token -> Hash, db: Db, ops: seq<Op>, i: nat, j: nat, t: Token, user: nat)
    requires Injective(hash)
    requires i < j < |ops| && Redeems(ops[j], t)
    requires var at := Run(hash, db, ops[..i]);
             Ends(hash, at, ops[i], t, user) && (hash(t) in at.links ==> at.links[hash(t)].user == user)
    requires forall k | i < k < j :: !Issues(ops[k], t)
    ensures !Succeeds(hash, Run(hash, db, ops[..j]), ops[j])
  {
    var at := Run(hash, db, ops[..i]);
    EndedIsDead(hash, at, ops[i], t, user);
    var between := ops[i + 1..j];
    assert ops[..i + 1][..i] == ops[..i];
    assert ops[..j] == ops[..i + 1] + between;
    RunSplits(hash, db, ops[..i + 1], between);
    DeadStaysDead(hash, Perform(hash, at, ops[i]).db, between, t);
  }

  /** So no link is redeemed twice. */
  lemma RedeemedOnce(hash: Token -> Hash, db: Db, ops: seq<Op>, i: nat, j: nat, t: Token)
    requires Injective(hash)
    requires i < j < |ops| && Redeems(ops[i], t) && Redeems(ops[j], t) && forall k | i < k < j :: !Issues(ops[k], t)
    ensures !(Succeeds(hash, Run(hash, db, ops[..i]), ops[i]) && Succeeds(hash, Run(hash, db, ops[..j]), ops[j]))
  {
    var at := Run(hash, db, ops[..i]);
    if Succeeds(hash, at, ops[i]) {
      RedemptionIsAllOrNothing(hash, at, ops[i]);
      EndedLinkNeverRedeems(hash, db, ops, i, j, t, at.links[hash(t)].user);
    }
  }

  /** An account without a link is given none by anything but an issue for it. */
  lemma {:induction false} NoLinkUntilIssued(hash: Token -> Hash, db: Db, ops: seq<Op>, user: nat)
    requires LinksOf(db, user) == {}
    requires forall op <- ops :: !(op.Issue? && op.user == user)
    ensures LinksOf(Run(hash, db, ops), user) == {}
    decreases |ops|
  {
    if ops != [] {
      var before, op := ops[..|ops| - 1], ops[|ops| - 1];
      assert forall o <- before :: o in ops;
      NoLinkUntilIssued(hash, db, before, user);
      assert op in ops;
      StepIssuesNone(hash, Run(hash, db, before), op, user);
      hide LinksOf, Perform;
    }
  }

  lemma StepIssuesNone(hash: Token -> Hash, db: Db, op: Op, user: nat)
    requires LinksOf(db, user) == {} && !(op.Issue? && op.user == user)
    ensures LinksOf(Perform(hash, db, op).db, user) == {}
  {
    var after := Perform(hash, db, op).db;
    forall h | h in after.links ensures after.links[h].user != user {
      assert h in db.links ==> h !in LinksOf(db, user);
    }
  }

  /** After a revocation no token at all redeems for the account, whatever the run, until a link is issued
      for it again. */
  lemma RevokedNeverRedeems(hash: Token -> Hash, db: Db, ops: seq<Op>, i: nat, j: nat, user: nat)
    requires i < j < |ops| && ops[i] == Revoke(user)
    requires forall k | i < k < j :: !(ops[k].Issue? && ops[k].user == user)
    ensures Perform(hash, Run(hash, db, ops[..j]), ops[j]).outcome != Done(user)
  {
    var between := ops[i + 1..j];
    assert ops[..i + 1][..i] == ops[..i];
    assert ops[..j] == ops[..i + 1] + between;
    RunSplits(hash, db, ops[..i + 1], between);
    NoLinkUntilIssued(hash, Run(hash, db, ops[..i + 1]), between, user);
    var at := Run(hash, db, ops[..j]);
    assert forall h <- at.links :: at.links[h].user != user by {
      assert forall h <- at.links :: at.links[h].user == user ==> h in LinksOf(at, user);
    }
  }

  // ----- the sweep of expired links -----

  /** Where a link that a sweep at `now` would take decides what an operation answers: the revocation of
      an account with no other link, the issue of a token that is still another account's, and a
      redemption whose clock is behind the sweep's. */
  ghost predicate SeesExpired(hash: Token -> Hash, db: Db, op: Op, now: int) {
    match op
    case Revoke(user) => LinksOf(db, user) != {} && forall h <- LinksOf(db, user) :: db.links[h].expires <= now
    case Issue(user, token, _) =>
      var h := hash(token);
      h in db.links && db.links[h].user != user && db.links[h].expires <= now
    case Redeem(token, _, at) => Live(db, hash(token), at) && db.links[hash(token)].expires <= now
    case Enroll(token, expected, _, at) =>
      Live(db, hash(token), at) && db.links[hash(token)].expires <= now && db.links[hash(token)].user == expected
    case _ => false
  }

  /** A link issued after the sweep expires after it. */
  predicate IssuedLater(op: Op, now: int) {
    op.Issue? ==> now < op.expires
  }

  lemma SweptLinks(db: Db, user: nat, now: int)
    ensures LinksOf(Sweep(db, now), user) == {} <==> forall h <- LinksOf(db, user) :: db.links[h].expires <= now
  {
    var left := LinksOf(Sweep(db, now), user);
    assert forall h :: h in left <==> h in LinksOf(db, user) && now < db.links[h].expires;
    if left != {} {
      var h := IntSets.Pick(left);
      assert h in LinksOf(db, user);
    }
  }

  /** One operation in front of and behind the sweep: the same answer, and then the same tables but for
      the links swept. */
  ghost predicate Commutes(hash: Token -> Hash, db: Db, op: Op, now: int) {
    var swept, whole := Perform(hash, Sweep(db, now), op), Perform(hash, db, op);
    && (swept.outcome == whole.outcome <==> !SeesExpired(hash, db, op, now))
    && (swept.outcome == whole.outcome ==> swept.db == Sweep(whole.db, now))
  }

  lemma IssueCommutes(hash: Token -> Hash, db: Db, op: Op, now: int)
    requires op.Issue? && IssuedLater(op, now)
    ensures Commutes(hash, db, op, now)
  {
  }

  lemma RedemptionCommutes(hash: Token -> Hash, db: Db, op: Op, now: int)
    requires op.Redeem? || op.Enroll?
    ensures Commutes(hash, db, op, now)
  {
  }

  lemma RevokeCommutes(hash: Token -> Hash, db: Db, op: Op, now: int)
    requires op.Revoke?
    ensures Commutes(hash, db, op, now)
  {
    SweptLinks(db, op.user, now);
    hide LinksOf;
  }

  lemma SweepCommutes(hash: Token -> Hash, db: Db, op: Op, now: int)
    requires IssuedLater(op, now)
    ensures Commutes(hash, db, op, now)
  {
    match op
    case Issue(_, _, _) => hide *; IssueCommutes(hash, db, op, now);
    case Redeem(_, _, _) => hide *; RedemptionCommutes(hash, db, op, now);
    case Enroll(_, _, _, _) => hide *; RedemptionCommutes(hash, db, op, now);
    case Revoke(_) => hide *; RevokeCommutes(hash, db, op, now);
    case _ =>
  }

  ghost predicate SameAnswer(hash: Token -> Hash, a: Db, b: Db, ops: seq<Op>, k: nat)
    requires k < |ops|
  {
    Perform(hash, Run(hash, a, ops[..k]), ops[k]).outcome == Perform(hash, Run(hash, b, ops[..k]), ops[k]).outcome
  }

  lemma RunStep(hash: Token -> Hash, db: Db, ops: seq<Op>, k: nat)
    requires k < |ops|
    ensures Run(hash, db, ops[..k + 1]) == Perform(hash, Run(hash, db, ops[..k]), ops[k]).db
  {
    assert ops[..k + 1][..k] == ops[..k];
  }

  /** As long as every operation answers the same, the swept run stays the sweep of the other one. */
  lemma {:induction false} SweepStays(hash: Token -> Hash, db: Db, ops: seq<Op>, now: int, k: nat)
    requires k <= |ops| && forall op <- ops :: IssuedLater(op, now)
    requires forall i | 0 <= i < k :: SameAnswer(hash, Sweep(db, now), db, ops, i)
    ensures Run(hash, Sweep(db, now), ops[..k]) == Sweep(Run(hash, db, ops[..k]), now)
  {
    if k > 0 {
      hide Run, Perform, Sweep, IssuedLater, SeesExpired;
      SweepStays(hash, db, ops, now, k - 1);
      RunStep(hash, db, ops, k - 1);
      RunStep(hash, Sweep(db, now), ops, k - 1);
      assert SameAnswer(hash, Sweep(db, now), db, ops, k - 1);
      SweepCommutes(hash, Run(hash, db, ops[..k - 1]), ops[k - 1], now);
    }
  }

  /** So the next answer differs exactly when the operation sees a link that the sweep took. */
  lemma NextAnswer(hash: Token -> Hash, db: Db, ops: seq<Op>, now: int, k: nat)
    requires k < |ops| && forall op <- ops :: IssuedLater(op, now)
    requires forall i | 0 <= i < k :: SameAnswer(hash, Sweep(db, now), db, ops, i)
    ensures SameAnswer(hash, Sweep(db, now), db, ops, k) <==> !SeesExpired(hash, Run(hash, db, ops[..k]), ops[k], now)
  {
    SweepStays(hash, db, ops, now, k);
    hide Run, Perform, Sweep, IssuedLater, SeesExpired;
    SweepCommutes(hash, Run(hash, db, ops[..k]), ops[k], now);
  }

  lemma {:induction false} UnseenBefore(hash: Token -> Hash, db: Db, ops: seq<Op>, now: int, k: nat)
    requires k <= |ops| && forall op <- ops :: IssuedLater(op, now)
    requires forall i | 0 <= i < k :: !SeesExpired(hash, Run(hash, db, ops[..i]), ops[i], now)
    ensures forall i | 0 <= i < k :: SameAnswer(hash, Sweep(db, now), db, ops, i)
  {
    hide *;
    if k > 0 {
      UnseenBefore(hash, db, ops, now, k - 1);
      NextAnswer(hash, db, ops, now, k - 1);
    }
  }

  /** Sweeping the expired links away changes no answer of any later run if and only if no operation of
      the run, without the sweep, meets a link that the sweep takes where that decides its answer. */
  lemma SweepUnseenIff(hash: Token -> Hash, db: Db, ops: seq<Op>, now: int)
    requires forall op <- ops :: IssuedLater(op, now)
    ensures (forall k | 0 <= k < |ops| :: SameAnswer(hash, Sweep(db, now), db, ops, k))
            <==> (forall k | 0 <= k < |ops| :: !SeesExpired(hash, Run(hash, db, ops[..k]), ops[k], now))
  {
    hide *;
    if forall k | 0 <= k < |ops| :: SameAnswer(hash, Sweep(db, now), db, ops, k) {
      forall k | 0 <= k < |ops| ensures !SeesExpired(hash, Run(hash, db, ops[..k]), ops[k], now) {
        NextAnswer(hash, db, ops, now, k);
      }
    }
    if forall k | 0 <= k < |ops| :: !SeesExpired(hash, Run(hash, db, ops[..k]), ops[k], now) {
      UnseenBefore(hash, db, ops, now, |ops|);
    }
  }

  /** It is seen when an account's link has expired: revoking it says there was one before the sweep, and
      none after it. */
  lemma RevocationSeesSweep(hash: Token -> Hash)
    ensures var db := Perform(hash, Db(map[], map[], map[]), Issue(1, 7, 5)).db;
            && Perform(hash, db, Revoke(1)).outcome == Revoked(true)
            && Perform(hash, Perform(hash, db, Purge(6)).db, Revoke(1)).outcome == Revoked(false)
  {
    var db := Perform(hash, Db(map[], map[], map[]), Issue(1, 7, 5)).db;
    assert hash(7) in LinksOf(db, 1);
    assert LinksOf(Sweep(db, 6), 1) == {};
  }

  // ----- the tables in place -----

  class RecoveryStore {
    const hash: Token -> Hash
    var links: map<Hash, Link>
    var passwords: map<nat, string>
    var passkeys: map<string, nat>

    ghost function State(): Db
      reads this
    {
      Db(links, passwords, passkeys)
    }

    constructor (hash: Token -> Hash)
      ensures State() == Db(map[], map[], map[]) && this.hash == hash
    {
      this.hash := hash;
      links, passwords, passkeys := map[], map[], map[];
    }

    method CreateRecoveryToken(user: nat, token: Token, expires: int) returns (outcome: Outcome)
      modifies this
      ensures Step(State(), outcome) == IssueStep(hash, old(State()), user, token, expires)
      ensures outcome == Threw <==> hash(token) in old(links) && old(links)[hash(token)].user != user
      ensures outcome == Threw ==> links == old(links)
      ensures outcome != Threw ==>
                && outcome == Null
                && (forall h :: h in links <==> h == hash(token) || (h in old(links) && old(links)[h].user != user))
                && (forall h <- links :: links[h] == if h == hash(token) then Link(user, expires) else old(links)[h])
      ensures passwords == old(passwords) && passkeys == old(passkeys)
    {
      var h := hash(token);
      if h in links && links[h].user != user {
        return Threw;
      }
      links := DeleteLinks(Db(links, passwords, passkeys), user).links[h := Link(user, expires)];
      return Null;
    }

    method ConsumeRecoveryToken(token: Token, now: int) returns (user: Option<nat>)
      modifies this`links
      ensures var h := hash(token);
              if Live(old(State()), h, now) then user == Some(old(links)[h].user) && State() == Consume(old(State()), h)
              else user == None && State() == old(State())
    {
      var h := hash(token);
      if h !in links || links[h].expires <= now {
        return None;
      }
      user := Some(links[h].user);
      links := links - {h};
    }

    method DeleteAllPasskeys(user: nat)
      modifies this`passkeys
      ensures State() == DeletePasskeys(old(State()), user)
    {
      passkeys := map c | c in passkeys && passkeys[c] != user :: passkeys[c];
    }

    method SetPasswordHash(user: nat, password: Option<string>)
      modifies this`passwords
      ensures State() == SetPassword(old(State()), user, password)
    {
      passwords := if password.Some? then passwords[user := password.value] else passwords - {user};
    }

    method SpendRecoveryAndSetPassword(token: Token, password: string, now: int) returns (outcome: Outcome)
      modifies this
      ensures Step(State(), outcome) == RedeemStep(hash, old(State()), token, password, now)
    {
      var user := ConsumeRecoveryToken(token, now);
      if user.None? {
        return Null;
      }
      DeleteAllPasskeys(user.value);
      SetPasswordHash(user.value, Some(password));
      return Done(user.value);
    }

    /** A return commits, only the insert's throw rolls back: so both refusals come before the first write. */
    method SpendRecoveryAndEnroll(token: Token, expected: nat, credential: string, now: int) returns (outcome: Outcome)
      modifies this
      ensures Step(State(), outcome) == EnrollStep(hash, old(State()), token, expected, credential, now)
    {
      var h := hash(token);
      if !(h in links && now < links[h].expires) || links[h].user != expected {
        return Null;
      }
      var before := (links, passwords, passkeys);
      var user := ConsumeRecoveryToken(token, now);
      if user.None? {
        return Null;
      }
      DeleteAllPasskeys(user.value);
      SetPasswordHash(user.value, None);
      if credential in passkeys {
        links, passwords, passkeys := before.0, before.1, before.2;
        return Threw;
      }
      passkeys := passkeys[credential := user.value];
      return Done(user.value);
    }

    method DeleteRecoveryTokensForUser(user: nat) returns (revoked: bool)
      modifies this`links
      ensures Step(State(), Revoked(revoked)) == Perform(hash, old(State()), Revoke(user))
      ensures forall h :: h in links <==> h in old(links) && old(links)[h].user != user
      ensures forall h <- links :: links[h] == old(links)[h]
      ensures revoked <==> exists h :: h in old(links) && old(links)[h].user == user
      ensures passwords == old(passwords) && passkeys == old(passkeys)
    {
      var mine := LinksOf(Db(links, passwords, passkeys), user);
      revoked := mine != {};
      if revoked {
        var h := IntSets.Pick(mine);
        assert links[h].user == user;
      }
      assert forall h <- links | links[h].user == user :: h in mine;
      links := DeleteLinks(Db(links, passwords, passkeys), user).links;
    }

    method PurgeExpiredRecoveryTokens(now: int)
      modifies this`links
      ensures State() == Perform(hash, old(State()), Purge(now)).db
      ensures forall h :: h in links <==> h in old(links) && now < old(links)[h].expires
      ensures forall h <- links :: links[h] == old(links)[h]
      ensures passwords == old(passwords) && passkeys == old(passkeys)
    {
      links := map h | h in links && now < links[h].expires :: links[h];
    }
  }
}
