/** The mode groups of a summary, told from the changes of its run (shared/consolidate.ts): one entry for each
    member and letter, judged by the first and the last sign, under the name the last change gave. */
module ModeStories {
  import opened Options
  import opened Modes
  import opened Consolidate
  import opened Membership
  import opened MemberModes

  // ----- one entry for each member and letter -----

  /** The mode letter without its sign. */
  function Unsigned(mode: string): string {
    if "+" <= mode || "-" <= mode then mode[1..] else mode
  }

  /** A member's status change with a letter, of this member and letter. */
  predicate SamePair(lc: Fold, c: ModeChange, key: string) {
    && c.kind == Some(PrefixMode) && c.param.Some? && c.param.value != "" && Unsigned(c.mode) != ""
    && lc(c.param.value) + "\0" + Unsigned(c.mode) == key
  }

  lemma SamePairs(lc: Fold, c: ModeChange, key: string)
    ensures Unsigned(c.mode) == ModeLetter(c.mode)
    ensures SamePair(lc, c, key) <==> Counted(c) && PairKey(lc, c) == key
  {
  }

  /** `st` is the pair whose first change is at i and whose last is at j. */
  ghost predicate PairOf(lc: Fold, changes: seq<ModeChange>, st: ModeState, i: nat, j: nat) {
    && i <= j < |changes| && SamePair(lc, changes[i], st.key) && SamePair(lc, changes[j], st.key)
    && (forall k | 0 <= k < i :: !SamePair(lc, changes[k], st.key))
    && (forall k | j < k < |changes| :: !SamePair(lc, changes[k], st.key))
    && st.nick == changes[j].param.value && st.letter == Unsigned(changes[j].mode)
    && (st.first == Minus <==> "-" <= changes[i].mode) && (st.last == Minus <==> "-" <= changes[j].mode)
  }

  /** The pairs in order of their first change, and none left out. */
  ghost predicate PairsAre(lc: Fold, changes: seq<ModeChange>, net: seq<ModeState>, firsts: seq<nat>, lasts: seq<nat>) {
    && |firsts| == |net| && |lasts| == |net|
    && (forall n | 0 <= n < |net| :: PairOf(lc, changes, net[n], firsts[n], lasts[n]))
    && (forall m, n | 0 <= m < n < |net| :: firsts[m] < firsts[n])
    && (forall k, key | 0 <= k < |changes| && SamePair(lc, changes[k], key) :: exists n :: 0 <= n < |net| && net[n].key == key)
  }

  lemma {:induction false} NetSnoc(lc: Fold, net: seq<ModeState>, changes: seq<ModeChange>, c: ModeChange)
    ensures NetChanges(lc, net, changes + [c]) == NetChange(lc, NetChanges(lc, net, changes), c)
    decreases |changes|
  {
    if changes == [] {
      assert changes + [c] == [c] && [c][1..] == [];
    } else {
      assert (changes + [c])[1..] == changes[1..] + [c] && (changes + [c])[0] == changes[0];
      NetSnoc(lc, NetChange(lc, net, changes[0]), changes[1..], c);
    }
  }

  lemma SignsAre(mode: string)
    ensures SignOf(mode) == Minus <==> "-" <= mode
  {
  }

  /** A change of another pair, or one that does not count, leaves a pair's ends where they are. */
  lemma PairStays(lc: Fold, before: seq<ModeChange>, c: ModeChange, st: ModeState, i: nat, j: nat)
    requires PairOf(lc, before, st, i, j) && !SamePair(lc, c, st.key)
    ensures PairOf(lc, before + [c], st, i, j)
  {
    hide SamePair;
    var more := before + [c];
    assert forall k | 0 <= k < |before| :: more[k] == before[k];
  }

  lemma PairMovesOn(lc: Fold, before: seq<ModeChange>, c: ModeChange, st: ModeState, i: nat, j: nat)
    requires PairOf(lc, before, st, i, j) && SamePair(lc, c, st.key)
    ensures PairOf(lc, before + [c], ModeState(st.key, c.param.value, ModeLetter(c.mode), st.first, SignOf(c.mode)), i, |before|)
  {
    SignsAre(c.mode);
    SamePairs(lc, c, st.key);
    hide SamePair, SignOf, Unsigned;
    var more := before + [c];
    assert forall k | 0 <= k < |before| :: more[k] == before[k];
  }

  lemma PairStarts(lc: Fold, before: seq<ModeChange>, c: ModeChange)
    requires Counted(c) && forall k | 0 <= k < |before| :: !SamePair(lc, before[k], PairKey(lc, c))
    ensures PairOf(lc, before + [c], ModeState(PairKey(lc, c), c.param.value, ModeLetter(c.mode), SignOf(c.mode), SignOf(c.mode)),
                   |before|, |before|)
  {
    SignsAre(c.mode);
    SamePairs(lc, c, PairKey(lc, c));
    hide SamePair, SignOf, Unsigned;
    var more := before + [c];
    assert forall k | 0 <= k < |before| :: more[k] == before[k];
  }

  lemma SnocPairs(lc: Fold, before: seq<ModeChange>, c: ModeChange, net: seq<ModeState>, firsts: seq<nat>, lasts: seq<nat>)
    returns (firsts': seq<nat>, lasts': seq<nat>)
    requires PairsAre(lc, before, net, firsts, lasts)
    ensures PairsAre(lc, before + [c], NetChange(lc, net, c), firsts', lasts')
  {
    firsts', lasts' := firsts, lasts;
    if Counted(c) {
      var key := PairKey(lc, c);
      FindIsFirst(net, key);
      SamePairs(lc, c, key);
      match Find(net, key)
      case Some(at) =>
        lasts' := lasts[at := |before|];
        hide PairsAre, Counted, PairKey;
        PairsGoOn(lc, before, c, net, firsts, lasts, at, NetChange(lc, net, c));
      case None =>
        firsts', lasts' := firsts + [|before|], lasts + [|before|];
        hide PairsAre, Counted, PairKey;
        PairsGrow(lc, before, c, net, firsts, lasts, NetChange(lc, net, c));
    } else {
      PairsKeep(lc, before, c, net, firsts, lasts);
    }
  }

  lemma PairsKeep(lc: Fold, before: seq<ModeChange>, c: ModeChange, net: seq<ModeState>, firsts: seq<nat>, lasts: seq<nat>)
    requires PairsAre(lc, before, net, firsts, lasts) && !Counted(c)
    ensures PairsAre(lc, before + [c], net, firsts, lasts)
  {
    forall key ensures !SamePair(lc, c, key) {
      SamePairs(lc, c, key);
    }
    hide SamePair, Counted;
    var more := before + [c];
    assert forall k | 0 <= k < |before| :: more[k] == before[k];
    forall n | 0 <= n < |net| ensures PairOf(lc, more, net[n], firsts[n], lasts[n]) {
      PairStays(lc, before, c, net[n], firsts[n], lasts[n]);
    }
    hide PairOf;
  }

  lemma PairsGoOn(lc: Fold, before: seq<ModeChange>, c: ModeChange, net: seq<ModeState>, firsts: seq<nat>, lasts: seq<nat>, at: nat,
                  net': seq<ModeState>)
    requires PairsAre(lc, before, net, firsts, lasts) && at < |net| && SamePair(lc, c, net[at].key)
    requires net' == net[at := ModeState(net[at].key, c.param.value, ModeLetter(c.mode), net[at].first, SignOf(c.mode))]
    ensures PairsAre(lc, before + [c], net', firsts, lasts[at := |before|])
  {
    var more := before + [c];
    assert forall k | 0 <= k < |before| :: more[k] == before[k];
    KeysApart(lc, before, net, firsts, lasts);
    forall key | SamePair(lc, c, key) ensures key == net[at].key {}
    hide SamePair, SignOf, ModeLetter;
    forall n | 0 <= n < |net| ensures PairOf(lc, more, net'[n], firsts[n], lasts[at := |before|][n]) {
      if n == at {
        PairMovesOn(lc, before, c, net[n], firsts[n], lasts[n]);
      } else {
        PairStays(lc, before, c, net[n], firsts[n], lasts[n]);
      }
    }
    hide PairOf;
    assert forall n | 0 <= n < |net| :: net'[n].key == net[n].key;
  }

  lemma PairsGrow(lc: Fold, before: seq<ModeChange>, c: ModeChange, net: seq<ModeState>, firsts: seq<nat>, lasts: seq<nat>,
                  net': seq<ModeState>)
    requires PairsAre(lc, before, net, firsts, lasts) && Counted(c)
    requires forall n | 0 <= n < |net| :: net[n].key != PairKey(lc, c)
    requires net' == net + [ModeState(PairKey(lc, c), c.param.value, ModeLetter(c.mode), SignOf(c.mode), SignOf(c.mode))]
    ensures PairsAre(lc, before + [c], net', firsts + [|before|], lasts + [|before|])
  {
    var more, key := before + [c], PairKey(lc, c);
    assert forall k | 0 <= k < |before| :: more[k] == before[k];
    SamePairs(lc, c, key);
    forall other | SamePair(lc, c, other) ensures other == key {}
    hide SamePair, SignOf, ModeLetter, Counted, PairKey;
    PairStarts(lc, before, c);
    forall n | 0 <= n < |net| ensures firsts[n] < |before| && PairOf(lc, more, net[n], firsts[n], lasts[n]) {
      PairStays(lc, before, c, net[n], firsts[n], lasts[n]);
      assert PairOf(lc, before, net[n], firsts[n], lasts[n]);
    }
    hide PairOf;
    assert net'[|net|].key == key && forall n | 0 <= n < |net| :: net'[n] == net[n];
    forall k, other | 0 <= k < |more| && SamePair(lc, more[k], other) ensures exists n :: 0 <= n < |net'| && net'[n].key == other {
      if k < |before| {
        var n :| 0 <= n < |net| && net[n].key == other;
        assert net'[n].key == other;
      } else {
        assert net'[|net|].key == other;
      }
    }
  }

  lemma KeysApart(lc: Fold, changes: seq<ModeChange>, net: seq<ModeState>, firsts: seq<nat>, lasts: seq<nat>)
    requires PairsAre(lc, changes, net, firsts, lasts)
    ensures forall m, n | 0 <= m < n < |net| :: net[m].key != net[n].key
  {
    forall m, n | 0 <= m < n < |net| ensures net[m].key != net[n].key {
      assert PairOf(lc, changes, net[m], firsts[m], lasts[m]) && PairOf(lc, changes, net[n], firsts[n], lasts[n]);
    }
  }

  /** The net of a run's changes is its pairs. */
  lemma {:induction false} NetIsPairs(lc: Fold, changes: seq<ModeChange>) returns (firsts: seq<nat>, lasts: seq<nat>)
    ensures PairsAre(lc, changes, NetChanges(lc, [], changes), firsts, lasts)
    decreases |changes|
  {
    firsts, lasts := [], [];
    if changes != [] {
      hide PairsAre, NetChange, NetChanges;
      var before, c := changes[..|changes| - 1], changes[|changes| - 1];
      firsts, lasts := NetIsPairs(lc, before);
      firsts, lasts := SnocPairs(lc, before, c, NetChanges(lc, [], before), firsts, lasts);
      NetSnoc(lc, [], before, c);
      assert before + [c] == changes;
    }
  }

  // ----- one group for each verdict and letter -----

  /** What the two signs say. */
  predicate KindOfPair(st: ModeState, kind: GroupKind) {
    match kind
    case ModeGranted => st.first == Plus && st.last == Plus
    case ModeRevoked => st.first == Minus && st.last == Minus
    case ModeBriefly => st.first == Plus && st.last == Minus
    case ModeRegranted => st.first == Minus && st.last == Plus
    case _ => false
  }

  predicate In(st: ModeState, kind: GroupKind, letter: string) {
    KindOfPair(st, kind) && st.letter == letter
  }

  /** The names of one verdict and letter, in the pairs' order. */
  function NamesOf(net: seq<ModeState>, kind: GroupKind, letter: string): seq<Entry> {
    if net == [] then []
    else
      var st := net[|net| - 1];
      NamesOf(net[..|net| - 1], kind, letter) + if In(st, kind, letter) then [NickEntry(st.nick)] else []
  }

  /** The names of one verdict and letter, which first appears at `start`. */
  ghost predicate BucketOf(net: seq<ModeState>, b: ModeBucket, start: nat) {
    && start < |net| && In(net[start], b.kind, b.letter) && (forall n | 0 <= n < start :: !In(net[n], b.kind, b.letter))
    && b.entries == NamesOf(net, b.kind, b.letter)
  }

  /** Each verdict and letter that some pair has, in order of first appearance, with all its names. */
  ghost predicate BucketsAre(net: seq<ModeState>, buckets: seq<ModeBucket>, starts: seq<nat>) {
    && |starts| == |buckets|
    && (forall b | 0 <= b < |buckets| :: BucketOf(net, buckets[b], starts[b]))
    && (forall a, b | 0 <= a < b < |buckets| :: starts[a] < starts[b])
    && AllListed(net, buckets)
  }

  ghost predicate AllListed(net: seq<ModeState>, buckets: seq<ModeBucket>) {
    forall n | 0 <= n < |net| :: exists b :: 0 <= b < |buckets| && In(net[n], buckets[b].kind, buckets[b].letter)
  }

  lemma {:induction false} BucketsSnoc(buckets: seq<ModeBucket>, net: seq<ModeState>, st: ModeState)
    ensures ModeBuckets(buckets, net + [st]) == AddToBucket(ModeBuckets(buckets, net), st)
    decreases |net|
  {
    hide AddToBucket;
    if net == [] {
      assert net + [st] == [st] && [st][1..] == [];
    } else {
      assert (net + [st])[1..] == net[1..] + [st] && (net + [st])[0] == net[0];
      BucketsSnoc(AddToBucket(buckets, net[0]), net[1..], st);
    }
  }

  lemma VerdictIs(st: ModeState, kind: GroupKind)
    ensures ClassifyMode(st.first, st.last) == kind <==> KindOfPair(st, kind)
  {
  }

  lemma NamesSnoc(net: seq<ModeState>, st: ModeState, kind: GroupKind, letter: string)
    ensures NamesOf(net + [st], kind, letter)
         == NamesOf(net, kind, letter) + if In(st, kind, letter) then [NickEntry(st.nick)] else []
  {
    assert (net + [st])[..|net|] == net;
  }

  lemma {:induction false} NoNames(net: seq<ModeState>, kind: GroupKind, letter: string)
    requires forall n | 0 <= n < |net| :: !In(net[n], kind, letter)
    ensures NamesOf(net, kind, letter) == []
  {
    if net != [] {
      NoNames(net[..|net| - 1], kind, letter);
    }
  }

  lemma {:induction false} FindBucketIs(buckets: seq<ModeBucket>, kind: GroupKind, letter: string)
    ensures FindBucket(buckets, kind, letter).None? ==>
              forall b | 0 <= b < |buckets| :: buckets[b].kind != kind || buckets[b].letter != letter
  {
    if buckets != [] {
      FindBucketIs(buckets[1..], kind, letter);
    }
  }

  /** Two buckets differ in verdict or letter. */
  lemma BucketsApart(net: seq<ModeState>, buckets: seq<ModeBucket>, starts: seq<nat>)
    requires BucketsAre(net, buckets, starts)
    ensures forall a, b | 0 <= a < b < |buckets| :: buckets[a].kind != buckets[b].kind || buckets[a].letter != buckets[b].letter
  {
    hide In;
    forall a, b | 0 <= a < b < |buckets| ensures buckets[a].kind != buckets[b].kind || buckets[a].letter != buckets[b].letter {
      assert BucketOf(net, buckets[a], starts[a]) && BucketOf(net, buckets[b], starts[b]);
    }
  }

  lemma OneKind(st: ModeState, kind: GroupKind, letter: string)
    requires In(st, kind, letter)
    ensures kind == ClassifyMode(st.first, st.last) && letter == st.letter
  {
  }

  lemma SnocBuckets(net: seq<ModeState>, st: ModeState, buckets: seq<ModeBucket>, starts: seq<nat>) returns (starts': seq<nat>)
    requires BucketsAre(net, buckets, starts)
    ensures BucketsAre(net + [st], AddToBucket(buckets, st), starts')
  {
    var kind, letter := ClassifyMode(st.first, st.last), st.letter;
    FindBucketIs(buckets, kind, letter);
    hide ClassifyMode, BucketsAre;
    match FindBucket(buckets, kind, letter)
    case Some(at) =>
      starts' := starts;
      BucketGoesOn(net, st, buckets, starts, at, AddToBucket(buckets, st));
    case None =>
      starts' := starts + [|net|];
      BucketStarts(net, st, buckets, starts, AddToBucket(buckets, st));
  }

  /** One more pair adds its name to the names of its own verdict and letter, and to no others. */
  lemma OneMoreName(net: seq<ModeState>, st: ModeState, k: GroupKind, l: string)
    ensures NamesOf(net + [st], k, l)
         == if k == ClassifyMode(st.first, st.last) && l == st.letter then NamesOf(net, k, l) + [NickEntry(st.nick)] else NamesOf(net, k, l)
  {
    NamesSnoc(net, st, k, l);
    VerdictIs(st, k);
    hide NamesOf, KindOfPair, ClassifyMode;
    assert NamesOf(net, k, l) + [] == NamesOf(net, k, l);
  }

  lemma OwnKind(st: ModeState)
    ensures In(st, ClassifyMode(st.first, st.last), st.letter)
  {
  }

  lemma BucketGoesOn(net: seq<ModeState>, st: ModeState, buckets: seq<ModeBucket>, starts: seq<nat>, at: nat, buckets': seq<ModeBucket>)
    requires BucketsAre(net, buckets, starts) && at < |buckets|
    requires buckets[at].kind == ClassifyMode(st.first, st.last) && buckets[at].letter == st.letter
    requires buckets' == buckets[at := buckets[at].(entries := buckets[at].entries + [NickEntry(st.nick)])]
    ensures BucketsAre(net + [st], buckets', starts)
  {
    var more := net + [st];
    BucketsApart(net, buckets, starts);
    OwnKind(st);
    hide In, NamesOf, ClassifyMode, BucketOf, AllListed;
    assert buckets'[at].kind == buckets[at].kind && buckets'[at].letter == buckets[at].letter;
    forall b | 0 <= b < |buckets| ensures BucketOf(more, buckets'[b], starts[b]) {
      BucketStays(net, st, buckets[b], starts[b]);
    }
    Covered(net, st, buckets, buckets', at);
  }

  lemma BucketStays(net: seq<ModeState>, st: ModeState, b: ModeBucket, start: nat)
    requires BucketOf(net, b, start)
    ensures var own := b.kind == ClassifyMode(st.first, st.last) && b.letter == st.letter;
            BucketOf(net + [st], if own then b.(entries := b.entries + [NickEntry(st.nick)]) else b, start)
  {
    OneMoreName(net, st, b.kind, b.letter);
    hide In, NamesOf, ClassifyMode;
    var more := net + [st];
    assert forall n | 0 <= n < |net| :: more[n] == net[n];
  }

  lemma Covered(net: seq<ModeState>, st: ModeState, buckets: seq<ModeBucket>, buckets': seq<ModeBucket>, at: nat)
    requires AllListed(net, buckets) && |buckets| <= |buckets'|
    requires forall b | 0 <= b < |buckets| :: buckets'[b].kind == buckets[b].kind && buckets'[b].letter == buckets[b].letter
    requires at < |buckets'| && In(st, buckets'[at].kind, buckets'[at].letter)
    ensures AllListed(net + [st], buckets')
  {
    hide In;
    var more := net + [st];
    forall n | 0 <= n < |more| ensures exists b :: 0 <= b < |buckets'| && In(more[n], buckets'[b].kind, buckets'[b].letter) {
      if n < |net| {
        var b :| 0 <= b < |buckets| && In(net[n], buckets[b].kind, buckets[b].letter);
        assert In(more[n], buckets'[b].kind, buckets'[b].letter);
      } else {
        assert In(more[n], buckets'[at].kind, buckets'[at].letter);
      }
    }
  }

  lemma BucketStarts(net: seq<ModeState>, st: ModeState, buckets: seq<ModeBucket>, starts: seq<nat>, buckets': seq<ModeBucket>)
    requires BucketsAre(net, buckets, starts)
    requires forall b | 0 <= b < |buckets| :: buckets[b].kind != ClassifyMode(st.first, st.last) || buckets[b].letter != st.letter
    requires buckets' == buckets + [ModeBucket(ClassifyMode(st.first, st.last), st.letter, [NickEntry(st.nick)])]
    ensures BucketsAre(net + [st], buckets', starts + [|net|])
  {
    var more := net + [st];
    NewBucket(net, st, buckets);
    OwnKind(st);
    hide In, NamesOf, ClassifyMode, AllListed;
    assert forall b | 0 <= b < |buckets| :: starts[b] < |net| by {
      assert forall b | 0 <= b < |buckets| :: BucketOf(net, buckets[b], starts[b]);
    }
    hide BucketOf;
    forall b | 0 <= b < |buckets| ensures BucketOf(more, buckets'[b], starts[b]) {
      BucketStays(net, st, buckets[b], starts[b]);
    }
    Covered(net, st, buckets, buckets', |buckets|);
  }

  lemma NewBucket(net: seq<ModeState>, st: ModeState, buckets: seq<ModeBucket>)
    requires AllListed(net, buckets)
    requires forall b | 0 <= b < |buckets| :: buckets[b].kind != ClassifyMode(st.first, st.last) || buckets[b].letter != st.letter
    ensures BucketOf(net + [st], ModeBucket(ClassifyMode(st.first, st.last), st.letter, [NickEntry(st.nick)]), |net|)
  {
    var kind, letter, more := ClassifyMode(st.first, st.last), st.letter, net + [st];
    OwnKind(st);
    forall n | 0 <= n < |net| ensures !In(net[n], kind, letter) {
      var b :| 0 <= b < |buckets| && In(net[n], buckets[b].kind, buckets[b].letter);
      OneKind(net[n], buckets[b].kind, buckets[b].letter);
      if In(net[n], kind, letter) {
        OneKind(net[n], kind, letter);
      }
    }
    hide In, ClassifyMode;
    NoNames(net, kind, letter);
    OneMoreName(net, st, kind, letter);
    hide NamesOf;
    assert forall n | 0 <= n < |net| :: more[n] == net[n];
    assert [] + [NickEntry(st.nick)] == [NickEntry(st.nick)];
  }

  lemma {:induction false} BucketsOfPairs(net: seq<ModeState>) returns (starts: seq<nat>)
    ensures BucketsAre(net, ModeBuckets([], net), starts)
    decreases |net|
  {
    hide BucketsAre, AddToBucket, ModeBuckets;
    if net == [] {
      starts := [];
      NoBuckets();
    } else {
      var before, st := net[..|net| - 1], net[|net| - 1];
      assert before + [st] == net;
      starts := BucketsOfPairs(before);
      starts := SnocBuckets(before, st, ModeBuckets([], before), starts);
      BucketsSnoc([], before, st);
    }
  }

  lemma NoBuckets()
    ensures BucketsAre([], ModeBuckets([], []), [])
  {
  }

  lemma {:induction false} CappedAre(lc: Fold, opts: RunOptions, buckets: seq<ModeBucket>)
    ensures |CapBuckets(lc, opts, buckets)| == |buckets|
    ensures forall b | 0 <= b < |buckets| ::
              CapBuckets(lc, opts, buckets)[b] == Cap(lc, opts, buckets[b].kind, Some(buckets[b].letter), buckets[b].entries)
  {
    hide Cap;
    if buckets != [] {
      CappedAre(lc, opts, buckets[1..]);
    }
  }

  /** The mode groups of a run: each is a verdict and a letter with all the names the pairs give it. */
  lemma ModesFromEvents(lc: Fold, opts: RunOptions, events: seq<Message>)
    returns (net: seq<ModeState>, firsts: seq<nat>, lasts: seq<nat>, buckets: seq<ModeBucket>, starts: seq<nat>)
    ensures PairsAre(lc, AllChanges(ModeEvents(events)), net, firsts, lasts)
    ensures BucketsAre(net, buckets, starts)
    ensures var groups := RunGroups(lc, opts, events)[|PresenceGroups(lc, opts, events)|..];
            && |groups| == |buckets|
            && forall b | 0 <= b < |buckets| ::
                 groups[b] == Cap(lc, opts, buckets[b].kind, Some(buckets[b].letter), buckets[b].entries)
  {
    net := NetChanges(lc, [], AllChanges(ModeEvents(events)));
    buckets := ModeBuckets([], net);
    NetOfEvents(lc, [], ModeEvents(events));
    firsts, lasts := NetIsPairs(lc, AllChanges(ModeEvents(events)));
    starts := BucketsOfPairs(net);
    CappedAre(lc, opts, buckets);
    assert RunGroups(lc, opts, events)[|PresenceGroups(lc, opts, events)|..] == CapBuckets(lc, opts, buckets);
    hide *;
  }
}
