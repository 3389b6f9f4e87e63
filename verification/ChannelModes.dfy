/** Packing of channel-mode changes into MODE lines (shared/channelModes.ts).
    A line has two budgets: the parameter-taking changes it may carry, and its length in bytes.
    Letters are written behind a sign that is only repeated when it changes. */
module ChannelModes {
  import opened Options

  datatype Sign = Plus | Minus

  datatype Change = Change(sign: Sign, letter: string, param: Option<string>) {
    /** An absent parameter and an empty one are both "no parameter". */
    predicate HasParam() {
      param.Some? && param.value != ""
    }
  }

  datatype PrefixMode = PrefixMode(mode: string, symbol: string)

  datatype ModeSpec = ModeSpec(
    list: string, always: string, onSet: string, flags: string, prefix: seq<PrefixMode>)

  const MODE_LINE_BUDGET := 400

  // ----- which changes carry a parameter -----

  /** Substring containment, as `String.prototype.includes` decides it. */
  predicate Includes(s: string, part: string) {
    exists i | 0 <= i <= |s| :: part <= s[i..]
  }

  predicate TakesParam(spec: ModeSpec, letter: string, sign: Sign) {
    if exists i | 0 <= i < |spec.prefix| :: spec.prefix[i].mode == letter then true
    else if Includes(spec.list, letter) || Includes(spec.always, letter) then true
    else if Includes(spec.onSet, letter) then sign == Plus
    else false
  }

  // ----- the text of a line -----

  function SignText(s: Sign): string {
    if s == Plus then "+" else "-"
  }

  /** What one change adds to the letters, given the sign in force (none at the start of a line). */
  function Piece(inForce: Option<Sign>, c: Change): string {
    (if inForce == Some(c.sign) then "" else SignText(c.sign)) + c.letter
  }

  function Letters(inForce: Option<Sign>, g: seq<Change>): string
    decreases |g|
  {
    if g == [] then "" else Piece(inForce, g[0]) + Letters(Some(g[0].sign), g[1..])
  }

  function LastSign(inForce: Option<Sign>, g: seq<Change>): Option<Sign> {
    if g == [] then inForce else Some(g[|g| - 1].sign)
  }

  function Params(g: seq<Change>): seq<string> {
    if g == [] then []
    else (if g[0].HasParam() then [g[0].param.value] else []) + Params(g[1..])
  }

  function Join(words: seq<string>): string {
    if words == [] then ""
    else if |words| == 1 then words[0]
    else words[0] + " " + Join(words[1..])
  }

  function Render(target: string, letters: string, params: seq<string>): string {
    "MODE " + target + " " + letters + (if params == [] then "" else " " + Join(params))
  }

  function Line(target: string, g: seq<Change>): string {
    Render(target, Letters(None, g), Params(g))
  }

  function Lines(target: string, groups: seq<seq<Change>>): seq<string> {
    if groups == [] then [] else [Line(target, groups[0])] + Lines(target, groups[1..])
  }

  // ----- byte length (UTF-8) -----

  function CharBytes(c: char): nat {
    var code := c as int;
    if code < 0x80 then 1 else if code < 0x800 then 2 else if code < 0x1_0000 then 3 else 4
  }

  function Bytes(s: string): nat {
    if s == "" then 0 else CharBytes(s[0]) + Bytes(s[1..])
  }

  lemma {:induction false} BytesConcat(a: string, b: string)
    ensures Bytes(a + b) == Bytes(a) + Bytes(b)
  {
    if a == "" {
      assert a + b == b;
    } else {
      assert (a + b)[1..] == a[1..] + b;
      BytesConcat(a[1..], b);
    }
  }

  // ----- the two budgets -----

  predicate WithinModes(maxModes: Option<nat>, params: nat) {
    maxModes.None? || params <= maxModes.value
  }

  /** A line the server takes: both budgets met. */
  predicate Fits(target: string, maxModes: Option<nat>, g: seq<Change>) {
    WithinModes(maxModes, |Params(g)|) && Bytes(Line(target, g)) <= MODE_LINE_BUDGET
  }

  /** A line the packer may produce: one that fits, or a change that has to go alone whatever its size. */
  predicate Allowed(target: string, maxModes: Option<nat>, g: seq<Change>) {
    |g| <= 1 || Fits(target, maxModes, g)
  }

  // ----- the greedy packing -----

  /** Greedy packing of `rest` behind the line under construction `cur`. */
  function PackFrom(target: string, maxModes: Option<nat>, cur: seq<Change>, rest: seq<Change>)
    : seq<seq<Change>>
    decreases |rest|
  {
    if rest == [] then (if cur == [] then [] else [cur])
    else if cur == [] || Fits(target, maxModes, cur + [rest[0]])
      then PackFrom(target, maxModes, cur + [rest[0]], rest[1..])
    else [cur] + PackFrom(target, maxModes, [rest[0]], rest[1..])
  }

  function Pack(target: string, maxModes: Option<nat>, changes: seq<Change>): seq<seq<Change>> {
    PackFrom(target, maxModes, [], changes)
  }

  function Flatten(groups: seq<seq<Change>>): seq<Change> {
    if groups == [] then [] else groups[0] + Flatten(groups[1..])
  }

  /** The limit comes from a positive ISUPPORT number, or is absent. */
  predicate ValidLimit(maxModes: Option<nat>) {
    maxModes.None? || maxModes.value >= 1
  }

  // ----- cost of a line, and its monotonicity -----

  lemma {:induction false} LettersSnoc(inForce: Option<Sign>, g: seq<Change>, c: Change)
    ensures Letters(inForce, g + [c]) == Letters(inForce, g) + Piece(LastSign(inForce, g), c)
    decreases |g|
  {
    if g == [] {
      assert g + [c] == [c];
      assert Letters(Some(c.sign), [c][1..]) == "";
    } else {
      assert (g + [c])[1..] == g[1..] + [c];
      LettersSnoc(Some(g[0].sign), g[1..], c);
    }
  }

  lemma {:induction false} ParamsConcat(a: seq<Change>, b: seq<Change>)
    ensures Params(a + b) == Params(a) + Params(b)
  {
    if a == [] {
      assert a + b == b;
    } else {
      assert (a + b)[1..] == a[1..] + b;
      ParamsConcat(a[1..], b);
    }
  }

  /** Bytes of the parameters, each behind its separating space. */
  function ParamBytes(params: seq<string>): nat {
    if params == [] then 0 else 1 + Bytes(params[0]) + ParamBytes(params[1..])
  }

  lemma {:induction false} ParamBytesConcat(a: seq<string>, b: seq<string>)
    ensures ParamBytes(a + b) == ParamBytes(a) + ParamBytes(b)
  {
    if a == [] {
      assert a + b == b;
    } else {
      assert (a + b)[1..] == a[1..] + b;
      ParamBytesConcat(a[1..], b);
    }
  }

  lemma {:induction false} JoinBytes(params: seq<string>)
    requires params != []
    ensures 1 + Bytes(Join(params)) == ParamBytes(params)
  {
    if |params| > 1 {
      JoinBytes(params[1..]);
      BytesConcat(params[0] + " ", Join(params[1..]));
      BytesConcat(params[0], " ");
      assert Bytes(" ") == 1;
    }
  }

  lemma LineBytes(target: string, g: seq<Change>)
    ensures Bytes(Line(target, g))
         == Bytes("MODE " + target + " ") + Bytes(Letters(None, g)) + ParamBytes(Params(g))
  {
    var head, letters, params := "MODE " + target + " ", Letters(None, g), Params(g);
    BytesConcat(head, letters);
    if params == [] {
      assert Line(target, g) == head + letters;
    } else {
      BytesConcat(head + letters, " " + Join(params));
      BytesConcat(" ", Join(params));
      JoinBytes(params);
      assert Bytes(" ") == 1;
    }
  }

  /** Restating the sign never costs more than the change it stands in for. */
  lemma {:induction false} LettersDropFront(x: Change, b: seq<Change>)
    ensures Bytes(Letters(None, b)) <= Bytes(Letters(None, [x] + b))
  {
    if b != [] {
      var c, rest := b[0], b[1..];
      assert ([x] + b)[1..] == b;
      BytesConcat(Piece(None, x), Letters(Some(x.sign), b));
      BytesConcat(Piece(Some(x.sign), c), Letters(Some(c.sign), rest));
      BytesConcat(Piece(None, c), Letters(Some(c.sign), rest));
      BytesConcat(SignText(x.sign), x.letter);
      BytesConcat(SignText(c.sign), c.letter);
      assert Piece(Some(x.sign), c) == c.letter || Piece(Some(x.sign), c) == SignText(c.sign) + c.letter by {
        assert "" + c.letter == c.letter;
      }
      assert Bytes(SignText(x.sign)) == 1 == Bytes(SignText(c.sign));
    }
  }

  lemma {:induction false} FitsDropFront(target: string, maxModes: Option<nat>, a: seq<Change>, b: seq<Change>)
    requires Fits(target, maxModes, a + b)
    ensures Fits(target, maxModes, b)
  {
    if a == [] {
      assert a + b == b;
    } else {
      var g := a[1..] + b;
      assert a + b == [a[0]] + g;
      ParamsConcat([a[0]], g);
      ParamBytesConcat(Params([a[0]]), Params(g));
      LettersDropFront(a[0], g);
      LineBytes(target, [a[0]] + g);
      LineBytes(target, g);
      FitsDropFront(target, maxModes, a[1..], b);
    }
  }

  lemma {:induction false} FitsDropBack(target: string, maxModes: Option<nat>, a: seq<Change>, b: seq<Change>)
    requires Fits(target, maxModes, a + b)
    ensures Fits(target, maxModes, a)
    decreases |b|
  {
    if b == [] {
      assert a + b == a;
    } else {
      var n := |b| - 1;
      var g := a + b[..n];
      assert a + b == g + [b[n]];
      ParamsConcat(g, [b[n]]);
      ParamBytesConcat(Params(g), Params([b[n]]));
      LettersSnoc(None, g, b[n]);
      BytesConcat(Letters(None, g), Piece(LastSign(None, g), b[n]));
      LineBytes(target, g + [b[n]]);
      LineBytes(target, g);
      FitsDropBack(target, maxModes, a, b[..n]);
    }
  }

  // ----- what packing keeps, and that it is minimal -----

  lemma {:induction false} PackFromKeeps(target: string, maxModes: Option<nat>, cur: seq<Change>, rest: seq<Change>)
    ensures Flatten(PackFrom(target, maxModes, cur, rest)) == cur + rest
    decreases |rest|
  {
    if rest == [] {
      if cur != [] {
        assert Flatten([cur]) == cur + Flatten([]);
      }
    } else if cur == [] || Fits(target, maxModes, cur + [rest[0]]) {
      PackFromKeeps(target, maxModes, cur + [rest[0]], rest[1..]);
      assert cur + [rest[0]] + rest[1..] == cur + rest;
    } else {
      PackFromKeeps(target, maxModes, [rest[0]], rest[1..]);
      assert [rest[0]] + rest[1..] == rest;
    }
  }

  /** Every change is sent exactly once, in the order given. */
  lemma PackKeepsChanges(target: string, maxModes: Option<nat>, changes: seq<Change>)
    ensures Flatten(Pack(target, maxModes, changes)) == changes
  {
    PackFromKeeps(target, maxModes, [], changes);
    assert [] + changes == changes;
  }

  lemma {:induction false} PackFromAllowed(target: string, maxModes: Option<nat>, cur: seq<Change>, rest: seq<Change>, k: nat)
    requires cur == [] || Allowed(target, maxModes, cur)
    requires k < |PackFrom(target, maxModes, cur, rest)|
    ensures var line := PackFrom(target, maxModes, cur, rest)[k]; line != [] && Allowed(target, maxModes, line)
    decreases |rest|
  {
    hide Fits;
    if rest != [] {
      if cur == [] || Fits(target, maxModes, cur + [rest[0]]) {
        PackFromAllowed(target, maxModes, cur + [rest[0]], rest[1..], k);
      } else if k > 0 {
        PackFromAllowed(target, maxModes, [rest[0]], rest[1..], k - 1);
      }
    }
  }

  lemma ParamsAtMostOne(c: Change)
    ensures |Params([c])| <= 1
  {
    assert Params([c][1..]) == [];
  }

  /** No line is empty, none exceeds the parameter limit, and only a line holding a single
      change may exceed the byte budget. */
  lemma PackWithinBudgets(target: string, maxModes: Option<nat>, changes: seq<Change>, k: nat)
    requires ValidLimit(maxModes)
    requires k < |Pack(target, maxModes, changes)|
    ensures var line := Pack(target, maxModes, changes)[k];
            && line != []
            && WithinModes(maxModes, |Params(line)|)
            && (|line| > 1 ==> Bytes(Line(target, line)) <= MODE_LINE_BUDGET)
  {
    PackFromAllowed(target, maxModes, [], changes, k);
    var line := Pack(target, maxModes, changes)[k];
    if |line| == 1 {
      assert line == [line[0]];
      ParamsAtMostOne(line[0]);
    }
  }

  /** The competitor `rival` is never ahead of the greedy packing: it still has to send `behind`,
      which greedy has sent, and everything greedy still holds or has not read. */
  lemma {:induction false} GreedyStaysAhead(
      target: string, maxModes: Option<nat>, behind: seq<Change>, cur: seq<Change>, rest: seq<Change>,
      rival: seq<seq<Change>>)
    requires Flatten(rival) == behind + cur + rest
    requires forall i | 0 <= i < |rival| :: Allowed(target, maxModes, rival[i])
    ensures |PackFrom(target, maxModes, cur, rest)| <= |rival|
    decreases |rest|, |rival|
  {
    if rest == [] {
    } else if cur == [] || Fits(target, maxModes, cur + [rest[0]]) {
      assert behind + cur + rest == behind + (cur + [rest[0]]) + rest[1..];
      GreedyStaysAhead(target, maxModes, behind, cur + [rest[0]], rest[1..], rival);
    } else {
      var line, sent := rival[0], behind + cur;
      assert Flatten(rival) == line + Flatten(rival[1..]);
      if |line| > |sent| {
        // then that line holds greedy's line and the next change, which do not fit together
        var tail := line[|sent| + 1..];
        assert line == (sent + rest)[..|line|];
        assert line == behind + (cur + [rest[0]]) + tail;
        FitsDropBack(target, maxModes, behind + (cur + [rest[0]]), tail);
        FitsDropFront(target, maxModes, behind, cur + [rest[0]]);
      } else {
        assert Flatten(rival[1..]) == (sent + rest)[|line|..];
        assert (sent + rest)[|line|..] == sent[|line|..] + [rest[0]] + rest[1..];
        GreedyStaysAhead(target, maxModes, sent[|line|..], [rest[0]], rest[1..], rival[1..]);
      }
    }
  }

  /** Greedy packing is optimal: no order-preserving split into lines that meet both budgets, or
      hold a single change, has fewer lines. */
  lemma {:induction false} PackIsMinimal(target: string, maxModes: Option<nat>, changes: seq<Change>, rival: seq<seq<Change>>)
    requires Flatten(rival) == changes
    requires forall i | 0 <= i < |rival| :: Allowed(target, maxModes, rival[i])
    ensures |Pack(target, maxModes, changes)| <= |rival|
  {
    assert [] + [] + changes == changes;
    GreedyStaysAhead(target, maxModes, [], [], changes, rival);
  }

  // ----- the packing loop -----

  lemma {:induction false} LinesConcat(target: string, a: seq<seq<Change>>, b: seq<seq<Change>>)
    ensures Lines(target, a + b) == Lines(target, a) + Lines(target, b)
  {
    if a == [] {
      assert a + b == b;
    } else {
      assert (a + b)[1..] == a[1..] + b;
      LinesConcat(target, a[1..], b);
    }
  }

  lemma LineSnoc(g: seq<Change>, c: Change)
    ensures Letters(None, g + [c]) == Letters(None, g) + Piece(LastSign(None, g), c)
    ensures Params(g + [c]) == if c.HasParam() then Params(g) + [c.param.value] else Params(g)
    ensures Letters(None, g + [c]) != ""
  {
    LettersSnoc(None, g, c);
    ParamsConcat(g, [c]);
    assert Params([c][1..]) == [];
    assert g != [] ==> (g + [c])[0] == g[0];
  }

  /** The loop's two tests, taken together, are the budget test on the extended line. */
  lemma FitsTest(target: string, maxModes: Option<nat>, g: seq<Change>, c: Change)
    requires ValidLimit(maxModes) && WithinModes(maxModes, |Params(g)|)
    ensures var full := c.HasParam() && maxModes.Some? && |Params(g)| >= maxModes.value;
            var nextParams := if c.HasParam() then Params(g) + [c.param.value] else Params(g);
            && (Fits(target, maxModes, g + [c]) <==>
                !full && Bytes(Render(target, Letters(None, g) + Piece(LastSign(None, g), c), nextParams)) <= MODE_LINE_BUDGET)
            && (!full ==> WithinModes(maxModes, |nextParams|))
  {
    LineSnoc(g, c);
  }

  lemma ExtendStep(target: string, maxModes: Option<nat>, cur: seq<Change>, rest: seq<Change>)
    requires rest != [] && (cur == [] || Fits(target, maxModes, cur + [rest[0]]))
    ensures PackFrom(target, maxModes, cur, rest) == PackFrom(target, maxModes, cur + [rest[0]], rest[1..])
  {
  }

  lemma LastStep(target: string, maxModes: Option<nat>, cur: seq<Change>)
    ensures Lines(target, PackFrom(target, maxModes, cur, [])) == if cur == [] then [] else [Line(target, cur)]
    ensures Letters(None, []) == "" && Params([]) == []
  {
    assert Lines(target, [cur][1..]) == [];
  }

  lemma FlushStep(target: string, maxModes: Option<nat>, cur: seq<Change>, rest: seq<Change>)
    requires cur != [] && rest != [] && !Fits(target, maxModes, cur + [rest[0]])
    ensures Lines(target, PackFrom(target, maxModes, cur, rest))
         == [Line(target, cur)] + Lines(target, PackFrom(target, maxModes, [rest[0]], rest[1..]))
  {
    var after := PackFrom(target, maxModes, [rest[0]], rest[1..]);
    assert PackFrom(target, maxModes, cur, rest) == [cur] + after;
    assert ([cur] + after)[1..] == after;
  }

  method BatchModeLines(target: string, changes: seq<Change>, maxModes: Option<nat>) returns (lines: seq<string>)
    requires ValidLimit(maxModes)
    ensures lines == Lines(target, Pack(target, maxModes, changes))
  {
    hide Fits, Bytes, PackFrom, Lines, Letters, Params, Join;
    LastStep(target, maxModes, []);
    lines := [];
    var letters: string := "";
    var params: seq<string> := [];
    var lastSign: Option<Sign> := None;
    var paramCount := 0;
    assert changes[0..] == changes;
    ghost var cur: seq<Change> := [];
    for i := 0 to |changes|
      invariant letters == Letters(None, cur) && params == Params(cur) && paramCount == |params|
      invariant lastSign == LastSign(None, cur)
      invariant letters == "" <==> cur == []
      invariant WithinModes(maxModes, paramCount)
      invariant lines + Lines(target, PackFrom(target, maxModes, cur, changes[i..]))
             == Lines(target, Pack(target, maxModes, changes))
    {
      var c := changes[i];
      ghost var rest, before, sent := changes[i..], cur, lines;
      assert rest[0] == c && rest[1..] == changes[i + 1..];
      ghost var fits := cur == [] || Fits(target, maxModes, cur + [c]);
      LineSnoc(cur, c);
      LineSnoc([], c);
      FitsTest(target, maxModes, cur, c);
      assert [] + [c] == [c];
      var hasParam := c.HasParam();
      if hasParam && maxModes.Some? && paramCount >= maxModes.value {
        if letters != "" { lines := lines + [Render(target, letters, params)]; }
        letters, params, lastSign, paramCount := "", [], None, 0;
        cur := [];
      }
      var piece := Piece(lastSign, c);
      var nextParams := if hasParam then params + [c.param.value] else params;
      if letters != "" && Bytes(Render(target, letters + piece, nextParams)) > MODE_LINE_BUDGET {
        lines := lines + [Render(target, letters, params)];
        letters, params, lastSign, paramCount := "", [], None, 0;
        piece := SignText(c.sign) + c.letter;
        cur := [];
      }
      letters := letters + piece;
      lastSign := Some(c.sign);
      if hasParam {
        params := params + [c.param.value];
        paramCount := paramCount + 1;
      }
      cur := cur + [c];
      if fits {
        assert cur == before + [c] && lines == sent;
        ExtendStep(target, maxModes, before, rest);
      } else {
        assert cur == [c] && lines == sent + [Line(target, before)];
        FlushStep(target, maxModes, before, rest);
      }
    }
    assert changes[|changes|..] == [];
    LastStep(target, maxModes, cur);
    if letters != "" { lines := lines + [Render(target, letters, params)]; }
  }

  // ----- reading a line back -----

  predicate SpaceFree(s: string) {
    ' ' !in s
  }

  function Split(s: string): (words: seq<string>)
    ensures words != []
  {
    if s == "" then [""]
    else
      var rest := Split(s[1..]);
      if s[0] == ' ' then [""] + rest else [[s[0]] + rest[0]] + rest[1..]
  }

  /** Distribute parameters over mode letters, as the receiving side does with modeTakesParam. */
  function Distribute(spec: ModeSpec, letters: string, sign: Sign, params: seq<string>): Option<seq<Change>> {
    if letters == "" then (if params == [] then Some([]) else None)
    else if letters[0] == '+' then Distribute(spec, letters[1..], Plus, params)
    else if letters[0] == '-' then Distribute(spec, letters[1..], Minus, params)
    else
      var takes := TakesParam(spec, letters[..1], sign);
      if takes && params == [] then None
      else
        var rest := Distribute(spec, letters[1..], sign, if takes then params[1..] else params);
        if rest.None? then None
        else Some([Change(sign, letters[..1], if takes then Some(params[0]) else None)] + rest.value)
  }

  function ReadLine(spec: ModeSpec, target: string, line: string): Option<seq<Change>> {
    var words := Split(line);
    if |words| < 3 || words[0] != "MODE" || words[1] != target then None
    else Distribute(spec, words[2], Plus, words[3..])
  }

  function ReadLines(spec: ModeSpec, target: string, lines: seq<string>): Option<seq<Change>> {
    if lines == [] then Some([])
    else
      var first, rest := ReadLine(spec, target, lines[0]), ReadLines(spec, target, lines[1..]);
      if first.None? || rest.None? then None else Some(first.value + rest.value)
  }

  /** A change the caller is allowed to send: a one-character letter that is no sign or space, and a
      parameter exactly when the spec wants one, non-empty and without spaces. */
  predicate WellFormed(spec: ModeSpec, c: Change) {
    && |c.letter| == 1 && c.letter != "+" && c.letter != "-" && c.letter != " "
    && c.param.Some? == TakesParam(spec, c.letter, c.sign)
    && (c.param.Some? ==> c.param.value != "" && SpaceFree(c.param.value))
  }

  lemma {:induction false} SplitWord(w: string, rest: string)
    requires SpaceFree(w)
    ensures Split(w + " " + rest) == [w] + Split(rest)
  {
    if w == "" {
      assert w + " " + rest == " " + rest;
    } else {
      assert (w + " " + rest)[1..] == w[1..] + " " + rest;
      SplitWord(w[1..], rest);
      assert [w[0]] + w[1..] == w;
    }
  }

  lemma {:induction false} SplitOneWord(w: string)
    requires SpaceFree(w)
    ensures Split(w) == [w]
  {
    if w != "" {
      SplitOneWord(w[1..]);
      assert [w[0]] + w[1..] == w;
    }
  }

  lemma {:induction false} SplitJoin(words: seq<string>)
    requires words != [] && forall i | 0 <= i < |words| :: SpaceFree(words[i])
    ensures Split(Join(words)) == words
  {
    if |words| == 1 {
      SplitOneWord(words[0]);
    } else {
      SplitJoin(words[1..]);
      SplitWord(words[0], Join(words[1..]));
    }
  }

  lemma {:induction false} LettersSpaceFree(inForce: Option<Sign>, g: seq<Change>)
    requires forall i | 0 <= i < |g| :: |g[i].letter| == 1 && g[i].letter != " "
    ensures SpaceFree(Letters(inForce, g))
    decreases |g|
  {
    if g != [] {
      LettersSpaceFree(Some(g[0].sign), g[1..]);
    }
  }

  lemma {:induction false} ParamsSpaceFree(spec: ModeSpec, g: seq<Change>)
    requires forall i | 0 <= i < |g| :: WellFormed(spec, g[i])
    ensures forall i | 0 <= i < |Params(g)| :: SpaceFree(Params(g)[i])
  {
    if g != [] {
      ParamsSpaceFree(spec, g[1..]);
      assert WellFormed(spec, g[0]);
    }
  }

  /** The sign encoding and the parameter order undo each other. */
  lemma {:induction false} DistributeInverts(spec: ModeSpec, inForce: Option<Sign>, sign: Sign, g: seq<Change>)
    requires forall i | 0 <= i < |g| :: WellFormed(spec, g[i])
    requires inForce.Some? ==> inForce.value == sign
    ensures Distribute(spec, Letters(inForce, g), sign, Params(g)) == Some(g)
    decreases |g|
  {
    if g != [] {
      assert WellFormed(spec, g[0]);
      hide Distribute, WellFormed, Letters, Params;
      var c, rest := g[0], Letters(Some(g[0].sign), g[1..]);
      DistributeInverts(spec, Some(c.sign), c.sign, g[1..]);
      DistributeLetter(spec, c, rest, Params(g[1..]), g[1..]);
      DistributeSign(spec, c.sign, sign, c.letter + rest, Params(g));
      HeadOfGroup(spec, inForce, g);
      hide SignText;
    }
  }

  lemma HeadOfGroup(spec: ModeSpec, inForce: Option<Sign>, g: seq<Change>)
    requires g != [] && WellFormed(spec, g[0])
    ensures var c := g[0];
            && [c] + g[1..] == g
            && Params(g) == (if c.param.Some? then [c.param.value] else []) + Params(g[1..])
            && var body := c.letter + Letters(Some(c.sign), g[1..]);
               Letters(inForce, g) == if inForce == Some(c.sign) then body else SignText(c.sign) + body
  {
  }

  lemma DistributeLetter(spec: ModeSpec, c: Change, rest: string, params: seq<string>, g: seq<Change>)
    requires WellFormed(spec, c) && Distribute(spec, rest, c.sign, params) == Some(g)
    ensures Distribute(spec, c.letter + rest, c.sign, (if c.param.Some? then [c.param.value] else []) + params) == Some([c] + g)
  {
    var body, all := c.letter + rest, (if c.param.Some? then [c.param.value] else []) + params;
    assert body[..1] == c.letter && body[1..] == rest;
    assert body[0] == c.letter[0] && c.letter == [c.letter[0]];
    assert c.param.Some? ==> all[0] == c.param.value && all[1..] == params;
    assert c.param.None? ==> all == params;
  }

  lemma DistributeSign(spec: ModeSpec, s: Sign, inForce: Sign, body: string, params: seq<string>)
    ensures Distribute(spec, SignText(s) + body, inForce, params) == Distribute(spec, body, s, params)
  {
    assert (SignText(s) + body)[1..] == body;
  }

  lemma Regroup(a: string, b: string, c: string)
    ensures (a + " ") + b + " " + c == a + " " + (b + " " + c)
  {
  }

  lemma LineWords(target: string, letters: string, params: seq<string>)
    requires SpaceFree(target) && SpaceFree(letters) && forall i | 0 <= i < |params| :: SpaceFree(params[i])
    ensures Split(Render(target, letters, params)) == ["MODE", target, letters] + params
  {
    hide Join, Split;
    var tail := letters + (if params == [] then "" else " " + Join(params));
    assert Split(tail) == [letters] + params by {
      if params == [] {
        assert tail == letters;
        SplitOneWord(letters);
      } else {
        assert tail == letters + " " + Join(params);
        SplitWord(letters, Join(params));
        SplitJoin(params);
      }
    }
    SplitWord(target, tail);
    SplitWord("MODE", target + " " + tail);
    Regroup("MODE", target, tail);
    assert "MODE" + " " == "MODE ";
    assert ("MODE " + target + " ") + letters + (if params == [] then "" else " " + Join(params))
        == ("MODE " + target + " ") + tail;
  }

  lemma ReadLineInverts(spec: ModeSpec, target: string, g: seq<Change>)
    requires SpaceFree(target)
    requires forall i | 0 <= i < |g| :: WellFormed(spec, g[i])
    ensures ReadLine(spec, target, Line(target, g)) == Some(g)
  {
    assert forall i | 0 <= i < |g| :: WellFormed(spec, g[i]) ==> |g[i].letter| == 1 && g[i].letter != " ";
    LettersSpaceFree(None, g);
    ParamsSpaceFree(spec, g);
    DistributeInverts(spec, None, Plus, g);
    LineWords(target, Letters(None, g), Params(g));
  }

  lemma {:induction false} ReadLinesInvert(spec: ModeSpec, target: string, groups: seq<seq<Change>>)
    requires SpaceFree(target)
    requires forall i | 0 <= i < |Flatten(groups)| :: WellFormed(spec, Flatten(groups)[i])
    ensures ReadLines(spec, target, Lines(target, groups)) == Some(Flatten(groups))
  {
    if groups != [] {
      var all := Flatten(groups);
      assert forall i | 0 <= i < |groups[0]| :: groups[0][i] == all[i];
      assert forall i | 0 <= i < |Flatten(groups[1..])| :: Flatten(groups[1..])[i] == all[|groups[0]| + i];
      ReadLineInverts(spec, target, groups[0]);
      ReadLinesInvert(spec, target, groups[1..]);
    }
  }

  /** Splitting the produced lines back by modeTakesParam returns the original change list. */
  lemma PackRoundTrip(spec: ModeSpec, target: string, maxModes: Option<nat>, changes: seq<Change>)
    requires SpaceFree(target)
    requires forall i | 0 <= i < |changes| :: WellFormed(spec, changes[i])
    ensures ReadLines(spec, target, Lines(target, Pack(target, maxModes, changes))) == Some(changes)
  {
    PackKeepsChanges(target, maxModes, changes);
    ReadLinesInvert(spec, target, Pack(target, maxModes, changes));
  }
}
