/** What a summary lists, told from the events of its run alone: whose events they are, what they add up to,
    and how the entry reads (shared/consolidate.ts). */
module PresenceStories {
  import opened Options
  import opened Consolidate
  import opened Membership
  import opened MembershipNames

  // ----- whose events -----

  /** The folded nicks somebody of the run stands under after one more event. */
  function KnownAfter(lc: Fold, known: set<string>, e: Message): set<string> {
    if e.event.NickChange? then known - {lc(e.nick)} + {lc(e.newNick)} else known + {lc(e.nick)}
  }

  function KeyAfter(lc: Fold, e: Message): string {
    if e.event.NickChange? then lc(e.newNick) else lc(e.nick)
  }

  /** The events of whoever stands under `key`, through their own nick changes, until somebody else is
      renamed onto the nick. */
  function Own(lc: Fold, key: string, events: seq<Message>): seq<Message>
    decreases |events|
  {
    if events == [] then []
    else
      var e, rest := events[0], events[1..];
      if lc(e.nick) == key then [e] + Own(lc, KeyAfter(lc, e), rest)
      else if e.event.NickChange? && lc(e.newNick) == key then []
      else Own(lc, key, rest)
  }

  /** For each identity, in order of first appearance, its events; those a rename wrote over are left out. */
  function Stories(lc: Fold, known: set<string>, events: seq<Message>): seq<seq<Message>>
    decreases |events|
  {
    if events == [] then []
    else
      var e, rest := events[0], events[1..];
      var later := Stories(lc, KnownAfter(lc, known, e), rest);
      if lc(e.nick) in known || !StaysTracked(lc, KeyAfter(lc, e), rest) then later
      else [[e] + Own(lc, KeyAfter(lc, e), rest)] + later
  }

  // ----- what they add up to -----

  predicate Comes(e: Message) { e.event == EventType.Join }
  predicate Goes(e: Message) { e.event == EventType.Part || e.event == EventType.Quit }

  function Moves(own: seq<Message>): seq<Message> {
    if own == [] then [] else (if Comes(own[0]) || Goes(own[0]) then [own[0]] else []) + Moves(own[1..])
  }

  /** Somebody who neither came nor went was renamed, or only changed hosts. Otherwise the first move says
      whether they were there before, and the last whether they are there after. */
  predicate KindIs(own: seq<Message>, kind: GroupKind) {
    var moves := Moves(own);
    match kind
    case Renamed => moves == [] && exists e <- own :: e.event.NickChange?
    case Rehosted => moves == [] && forall e <- own :: !e.event.NickChange?
    case Joined => moves != [] && Comes(moves[0]) && Comes(moves[|moves| - 1])
    case JoinedAndLeft => moves != [] && Comes(moves[0]) && Goes(moves[|moves| - 1])
    case Left => moves != [] && Goes(moves[0]) && Goes(moves[|moves| - 1])
    case Reconnected => moves != [] && Goes(moves[0]) && Comes(moves[|moves| - 1])
    case _ => false
  }

  /** The nick they go by now. */
  function Current(own: seq<Message>, before: string): string
    decreases |own|
  {
    if own == [] then before
    else Current(own[1..], if own[0].event.NickChange? then own[0].newNick else before)
  }

  function EntryFor(own: seq<Message>): Entry
    requires own != []
  {
    var now := Current(own, own[0].nick);
    if KindIs(own, Renamed) then RenameEntry(own[0].nick, now) else NickEntry(now)
  }

  /** The entries of one kind, in order of first appearance. */
  function Listed(kind: GroupKind, stories: seq<seq<Message>>): seq<Entry> {
    if stories == [] then []
    else
      (if stories[0] != [] && KindIs(stories[0], kind) then [EntryFor(stories[0])] else []) + Listed(kind, stories[1..])
  }

  // ----- the walk tells these stories -----

  function ActionsOf(own: seq<Message>): seq<Action> {
    if own == [] then []
    else (if own[0].event.NickChange? then [R] else ActionOf(own[0].event)) + ActionsOf(own[1..])
  }

  function Signs(moves: seq<Message>): seq<Action> {
    seq(|moves|, i requires 0 <= i < |moves| => if Comes(moves[i]) then J else L)
  }

  lemma HeadMoves(e: Message)
    ensures JL(if e.event.NickChange? then [R] else ActionOf(e.event)) == if Comes(e) then [J] else if Goes(e) then [L] else []
  {
    var here := if e.event.NickChange? then [R] else ActionOf(e.event);
    assert here == [] || here[1..] == [];
  }

  lemma {:induction false} MovesAreActions(own: seq<Message>)
    ensures JL(ActionsOf(own)) == Signs(Moves(own))
    ensures R in ActionsOf(own) <==> exists e <- own :: e.event.NickChange?
  {
    if own != [] {
      var e, rest := own[0], own[1..];
      var here := if e.event.NickChange? then [R] else ActionOf(e.event);
      MovesAreActions(rest);
      JLConcat(here, ActionsOf(rest));
      HeadMoves(e);
      assert own == [e] + rest;
      hide JL, Moves, ActionsOf;
      MovesStep(own);
      hide Comes, Goes;
    }
  }

  lemma MovesStep(own: seq<Message>)
    requires own != []
    ensures Signs(Moves(own)) == (if Comes(own[0]) then [J] else if Goes(own[0]) then [L] else []) + Signs(Moves(own[1..]))
    ensures ActionsOf(own) == (if own[0].event.NickChange? then [R] else ActionOf(own[0].event)) + ActionsOf(own[1..])
  {
    MoveSigns(own[0], Moves(own[1..]));
    hide Signs, ActionOf;
  }

  lemma MoveSigns(e: Message, rest: seq<Message>)
    ensures Signs([e] + rest) == [if Comes(e) then J else L] + Signs(rest)
    ensures Signs([] + rest) == Signs(rest)
  {
    assert [] + rest == rest;
  }

  lemma {:induction false} MovesMove(own: seq<Message>)
    ensures forall e <- Moves(own) :: Comes(e) || Goes(e)
  {
    if own != [] {
      MovesMove(own[1..]);
    }
  }

  lemma KindOfActions(own: seq<Message>, kind: GroupKind)
    ensures Classify(ActionsOf(own)) == kind <==> KindIs(own, kind)
  {
    MovesAreActions(own);
    MovesMove(own);
    var moves := Moves(own);
    assert moves != [] ==> moves[0] in moves && moves[|moves| - 1] in moves;
    hide JL, ActionsOf, Moves;
  }

  /** What the walk knows of an identity after more events of its own. */
  function Further(id: Identity, own: seq<Message>): Identity {
    Identity(Current(own, id.display), id.original, id.actions + ActionsOf(own))
  }

  lemma FurtherStep(id: Identity, e: Message, own: seq<Message>)
    ensures Further(id, [e] + own)
         == Further(Identity(if e.event.NickChange? then e.newNick else id.display, id.original,
                             id.actions + if e.event.NickChange? then [R] else ActionOf(e.event)), own)
  {
    assert ([e] + own)[1..] == own;
    assert id.actions + ((if e.event.NickChange? then [R] else ActionOf(e.event)) + ActionsOf(own))
        == (id.actions + if e.event.NickChange? then [R] else ActionOf(e.event)) + ActionsOf(own);
  }

  /** Nobody comes back once written over. */
  lemma {:induction false} StaysOver(lc: Fold, w: Walk, i: nat, events: seq<Message>)
    requires w.Valid() && i < |w.states| && i !in w.ids.Values
    ensures i < |WalkAll(lc, w, events).states| && i !in WalkAll(lc, w, events).ids.Values
    decreases |events|
  {
    if events != [] {
      StaysOver(lc, WalkEvent(lc, w, events[0]), i, events[1..]);
    }
  }

  ghost predicate Follows(lc: Fold, w: Walk, w': Walk, k: string, events: seq<Message>)
    requires w.Valid() && k in w.ids
  {
    var i := w.ids[k];
    && i < |w'.states|
    && (i in w'.ids.Values <==> StaysTracked(lc, k, events))
    && (StaysTracked(lc, k, events) ==> w'.states[i] == Further(w.states[i], Own(lc, k, events)))
  }

  /** Whoever stands under a key ends with their own events added, if they are not written over. */
  lemma {:induction false} WalkFollows(lc: Fold, w: Walk, k: string, events: seq<Message>)
    requires w.Valid() && k in w.ids
    ensures Follows(lc, w, WalkAll(lc, w, events), k, events)
    decreases |events|
  {
    if events == [] {
      assert w.states[w.ids[k]].actions + [] == w.states[w.ids[k]].actions;
    } else {
      var e, rest, w1 := events[0], events[1..], WalkEvent(lc, w, events[0]);
      if lc(e.nick) == k {
        OwnStep(lc, w, e);
        hide WalkEvent;
        WalkFollows(lc, w1, KeyAfter(lc, e), rest);
        FurtherStep(w.states[w.ids[k]], e, Own(lc, KeyAfter(lc, e), rest));
        hide Further;
      } else if e.event.NickChange? && lc(e.newNick) == k {
        assert w.ids[k] !in w1.ids.Values;
        hide WalkEvent;
        StaysOver(lc, w1, w.ids[k], rest);
      } else {
        assert k in w1.ids && w1.ids[k] == w.ids[k] && w1.states[w.ids[k]] == w.states[w.ids[k]];
        hide WalkEvent, Further;
        WalkFollows(lc, w1, k, rest);
      }
    }
  }

  lemma OwnStep(lc: Fold, w: Walk, e: Message)
    requires w.Valid() && lc(e.nick) in w.ids
    ensures var w1, i, k := WalkEvent(lc, w, e), w.ids[lc(e.nick)], KeyAfter(lc, e);
            && k in w1.ids && w1.ids[k] == i && |w1.states| == |w.states|
            && w1.states[i] == Identity(if e.event.NickChange? then e.newNick else w.states[i].display, w.states[i].original,
                                        w.states[i].actions + if e.event.NickChange? then [R] else ActionOf(e.event))
  {
  }

  lemma StartStep(lc: Fold, w: Walk, e: Message)
    requires w.Valid() && lc(e.nick) !in w.ids
    ensures var w1, n, k := WalkEvent(lc, w, e), |w.states|, KeyAfter(lc, e);
            && k in w1.ids && w1.ids[k] == n && |w1.states| == n + 1
            && w1.states[n] == Further(Identity(e.nick, e.nick, []), [e])
  {
    assert ActionsOf([e]) == if e.event.NickChange? then [R] else ActionOf(e.event);
    assert [e][1..] == [];
    assert Current([e], e.nick) == if e.event.NickChange? then e.newNick else e.nick;
  }

  lemma KeysAfter(lc: Fold, w: Walk, e: Message)
    requires w.Valid()
    ensures WalkEvent(lc, w, e).ids.Keys == KnownAfter(lc, w.ids.Keys, e)
  {
  }

  /** An identity the walk tracked to the end is listed as its story reads. */
  lemma EntryReads(id: Identity, own: seq<Message>, kind: GroupKind)
    requires own != [] && id == Further(Identity(own[0].nick, own[0].nick, []), own)
    ensures Classify(id.actions) == kind <==> KindIs(own, kind)
    ensures EntryOf(id) == EntryFor(own)
  {
    assert id.actions == ActionsOf(own);
    KindOfActions(own, kind);
    KindOfActions(own, Renamed);
    hide Classify, KindIs, ActionsOf;
  }

  lemma OwnFollows(id: Identity, e: Message, own: seq<Message>)
    ensures Further(Further(id, [e]), own) == Further(id, [e] + own)
  {
    FurtherStep(id, e, own);
    FurtherStep(id, e, []);
    assert [e] + [] == [e];
    var one := Identity(if e.event.NickChange? then e.newNick else id.display, id.original,
                        id.actions + if e.event.NickChange? then [R] else ActionOf(e.event));
    assert Further(one, []) == one by { assert one.actions + [] == one.actions; }
  }

  lemma {:induction false} BucketFromIsListed(lc: Fold, w: Walk, events: seq<Message>, kind: GroupKind)
    requires w.Valid()
    ensures var w' := WalkAll(lc, w, events);
            && |w'.states| >= |w.states|
            && Bucket(w'.states, w'.ids.Values, kind, |w.states|) == Listed(kind, Stories(lc, w.ids.Keys, events))
    decreases |events|
  {
    if events != [] {
      var e, rest, w1, w' := events[0], events[1..], WalkEvent(lc, w, events[0]), WalkAll(lc, w, events);
      KeysAfter(lc, w, e);
      BucketFromIsListed(lc, w1, rest, kind);
      if lc(e.nick) !in w.ids {
        var n, k, own := |w.states|, KeyAfter(lc, e), Own(lc, KeyAfter(lc, e), rest);
        StartStep(lc, w, e);
        WalkFollows(lc, w1, k, rest);
        if StaysTracked(lc, k, rest) {
          OwnFollows(Identity(e.nick, e.nick, []), e, own);
          EntryReads(w'.states[n], [e] + own, kind);
        }
        hide Own, StaysTracked, Further, Classify, EntryOf, EntryFor, KindIs, WalkEvent, KnownAfter, KeyAfter;
        ListedStep(kind, [e] + own, Stories(lc, w1.ids.Keys, rest));
      } else {
        OwnStep(lc, w, e);
      }
    }
  }

  lemma ListedStep(kind: GroupKind, own: seq<Message>, rest: seq<seq<Message>>)
    ensures Listed(kind, [own] + rest)
         == (if own != [] && KindIs(own, kind) then [EntryFor(own)] else []) + Listed(kind, rest)
  {
    assert ([own] + rest)[1..] == rest;
  }

  /** One group: those of the kind, in order of first appearance, capped. */
  function Shown(lc: Fold, opts: RunOptions, kind: GroupKind, stories: seq<seq<Message>>): seq<Group> {
    if Listed(kind, stories) == [] then [] else [Cap(lc, opts, kind, None, Listed(kind, stories))]
  }

  /** The groups a summary shows for joins, parts, quits, renames and host changes, from the events alone. */
  lemma PresenceFromEvents(lc: Fold, opts: RunOptions, events: seq<Message>)
    ensures var stories := Stories(lc, {}, PresenceEvents(events));
            PresenceGroups(lc, opts, events)
            == Shown(lc, opts, Joined, stories) + Shown(lc, opts, Left, stories) + Shown(lc, opts, Reconnected, stories)
               + Shown(lc, opts, JoinedAndLeft, stories) + Shown(lc, opts, Renamed, stories) + Shown(lc, opts, Rehosted, stories)
  {
    hide WalkAll, Stories, Filter, GroupsInOrder, Shown, GROUP_ORDER;
    var presence := PresenceEvents(events);
    BucketsAreListed(lc, presence);
    OrderedGroups(lc, opts, WalkAll(lc, NoWalk, presence), Stories(lc, {}, presence));
  }

  lemma BucketsAreListed(lc: Fold, presence: seq<Message>)
    ensures var w := WalkAll(lc, NoWalk, presence);
            forall kind :: Bucket(w.states, w.ids.Values, kind, 0) == Listed(kind, Stories(lc, {}, presence))
  {
    assert NoWalk.ids.Keys == {} && |NoWalk.states| == 0;
    hide WalkAll, Stories, Listed, Bucket;
    forall kind ensures Bucket(WalkAll(lc, NoWalk, presence).states, WalkAll(lc, NoWalk, presence).ids.Values, kind, 0)
                     == Listed(kind, Stories(lc, {}, presence)) {
      BucketFromIsListed(lc, NoWalk, presence, kind);
    }
  }

  lemma OrderedGroups(lc: Fold, opts: RunOptions, w: Walk, stories: seq<seq<Message>>)
    requires forall kind :: Bucket(w.states, w.ids.Values, kind, 0) == Listed(kind, stories)
    ensures GroupsInOrder(lc, opts, w, GROUP_ORDER)
         == Shown(lc, opts, Joined, stories) + Shown(lc, opts, Left, stories) + Shown(lc, opts, Reconnected, stories)
            + Shown(lc, opts, JoinedAndLeft, stories) + Shown(lc, opts, Renamed, stories) + Shown(lc, opts, Rehosted, stories)
  {
    hide Cap, Listed, Bucket, GroupsInOrder;
    OrderStep(lc, opts, w, stories, Joined, [Left, Reconnected, JoinedAndLeft, Renamed, Rehosted]);
    OrderStep(lc, opts, w, stories, Left, [Reconnected, JoinedAndLeft, Renamed, Rehosted]);
    OrderStep(lc, opts, w, stories, Reconnected, [JoinedAndLeft, Renamed, Rehosted]);
    OrderStep(lc, opts, w, stories, JoinedAndLeft, [Renamed, Rehosted]);
    OrderStep(lc, opts, w, stories, Renamed, [Rehosted]);
    OrderStep(lc, opts, w, stories, Rehosted, []);
    NoOrder(lc, opts, w);
    assert [Joined] + [Left, Reconnected, JoinedAndLeft, Renamed, Rehosted] == GROUP_ORDER;
    assert [Left] + [Reconnected, JoinedAndLeft, Renamed, Rehosted] == [Left, Reconnected, JoinedAndLeft, Renamed, Rehosted];
    assert [Reconnected] + [JoinedAndLeft, Renamed, Rehosted] == [Reconnected, JoinedAndLeft, Renamed, Rehosted];
    assert [JoinedAndLeft] + [Renamed, Rehosted] == [JoinedAndLeft, Renamed, Rehosted];
    assert [Renamed] + [Rehosted] == [Renamed, Rehosted] && [Rehosted] + [] == [Rehosted];
    hide Shown, GROUP_ORDER;
    InARow(Shown(lc, opts, Joined, stories), Shown(lc, opts, Left, stories), Shown(lc, opts, Reconnected, stories),
           Shown(lc, opts, JoinedAndLeft, stories), Shown(lc, opts, Renamed, stories), Shown(lc, opts, Rehosted, stories));
  }

  lemma NoOrder(lc: Fold, opts: RunOptions, w: Walk)
    ensures GroupsInOrder(lc, opts, w, []) == []
  {
  }

  lemma InARow(a: seq<Group>, b: seq<Group>, c: seq<Group>, d: seq<Group>, e: seq<Group>, f: seq<Group>)
    ensures a + (b + (c + (d + (e + (f + []))))) == a + b + c + d + e + f
  {
  }

  lemma OrderStep(lc: Fold, opts: RunOptions, w: Walk, stories: seq<seq<Message>>, kind: GroupKind, rest: seq<GroupKind>)
    requires forall kind :: Bucket(w.states, w.ids.Values, kind, 0) == Listed(kind, stories)
    ensures GroupsInOrder(lc, opts, w, [kind] + rest) == Shown(lc, opts, kind, stories) + GroupsInOrder(lc, opts, w, rest)
  {
    assert ([kind] + rest)[1..] == rest;
    hide Cap, Listed, Bucket;
  }
}
