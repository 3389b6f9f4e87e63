/** Relay-bot envelopes (shared/parseRelay.ts): templates compiled to literals and slots, matched with the
    laziness of the regular expressions they become, and followed through chains of marked bots. */
module Relay {
  import opened Options
  import opened TextMatch

  datatype Slot = Source | Nick | Message

  /** A template is literal characters and slots; escaping makes every literal stand for itself. */
  datatype Piece = Lit(c: char) | Hole(slot: Slot)

  predicate StartsWith(s: string, prefix: string) {
    |prefix| <= |s| && s[..|prefix|] == prefix
  }

  /** The piece a template starts with, and its length. */
  function Head(t: string): (r: (Piece, nat))
    requires t != ""
    ensures 1 <= r.1 <= |t|
  {
    if StartsWith(t, "{source}") then (Hole(Source), 8)
    else if StartsWith(t, "{nick}") then (Hole(Nick), 6)
    else if StartsWith(t, "{message}") then (Hole(Message), 9)
    else (Lit(t[0]), 1)
  }

  function Pieces(t: string): seq<Piece>
    decreases |t|
  {
    if t == "" then [] else [Head(t).0] + Pieces(t[Head(t).1..])
  }

  /** None without both required placeholders. */
  function Compile(t: string): Option<seq<Piece>> {
    var ps := Pieces(t);
    if Hole(Nick) in ps && Hole(Message) in ps then Some(ps) else None
  }

  // ----- matching -----

  predicate LineEnd(c: char) { c as int in {0x0a, 0x0d, 0x2028, 0x2029} }

  /** What a slot's class takes: `.` for a source or a message, a non-space for a nick. */
  predicate Takes(slot: Slot, c: char) {
    if slot.Nick? then !Space(c) else !LineEnd(c)
  }

  predicate TakesAll(slot: Slot, s: string) {
    forall c <- s :: Takes(slot, c)
  }

  type Captures = seq<(Slot, string)>

  /** The first match in the order a backtracking matcher tries them: source and nick take one character
      or more, as few as possible; a message as many as possible, or none. */
  function Match(ps: seq<Piece>, s: string): Option<Captures>
    decreases |ps|, 1, 0
  {
    if ps == [] then (if s == "" then Some([]) else None)
    else match ps[0]
      case Lit(c) => if s != "" && s[0] == c then Match(ps[1..], s[1..]) else None
      case Hole(slot) => if slot.Message? then Greedy(ps, s, |s|) else Lazy(ps, s, 1)
  }

  function Taken(ps: seq<Piece>, s: string, n: nat): Option<Captures>
    requires ps != [] && ps[0].Hole? && n <= |s|
    decreases |ps|, 0, 0
  {
    if !TakesAll(ps[0].slot, s[..n]) then None
    else
      var rest := Match(ps[1..], s[n..]);
      if rest.Some? then Some([(ps[0].slot, s[..n])] + rest.value) else None
  }

  function Lazy(ps: seq<Piece>, s: string, n: nat): Option<Captures>
    requires ps != [] && ps[0].Hole?
    decreases |ps|, 0, |s| + 1 - n
  {
    if n > |s| then None
    else
      var here := Taken(ps, s, n);
      if here.Some? then here else Lazy(ps, s, n + 1)
  }

  function Greedy(ps: seq<Piece>, s: string, n: nat): Option<Captures>
    requires ps != [] && ps[0].Hole? && n <= |s|
    decreases |ps|, 0, n + 1
  {
    var here := Taken(ps, s, n);
    if here.Some? || n == 0 then here else Greedy(ps, s, n - 1)
  }

  // ----- one envelope -----

  datatype Parse = Parse(source: Option<string>, nick: string, text: string)

  /** The last capture of a slot, as the assignments leave it. */
  function Last(caps: Captures, slot: Slot): Option<string> {
    if caps == [] then None
    else
      var c := caps[|caps| - 1];
      if c.0 == slot then Some(c.1) else Last(caps[..|caps| - 1], slot)
  }

  predicate MemberPrefix(c: char) { c in {'~', '&', '@', '%', '+'} }

  function DropPrefix(nick: string): string {
    if nick != "" && MemberPrefix(nick[0]) then DropPrefix(nick[1..]) else nick
  }

  function OrEmpty(o: Option<string>): string { if o.Some? then o.value else "" }

  /** The last slot of a template, literals skipped. */
  function LastSlot(ps: seq<Piece>): Option<Slot> {
    if ps == [] then None
    else
      var p := ps[|ps| - 1];
      if p.Hole? then Some(p.slot) else LastSlot(ps[..|ps| - 1])
  }

  function TryTemplate(template: string, body: string): Option<Parse> {
    var ps := Compile(template);
    if ps.None? then None
    else
      var caps := Match(ps.value, Strip(body));
      if caps.None? then None
      else
        var nick := DropPrefix(OrEmpty(Last(caps.value, Nick)));
        if nick == "" then None
        else Some(Parse(Last(caps.value, Source), nick, Display(ps.value, body, OrEmpty(Last(caps.value, Message)))))
  }

  /** The message with its formatting: the tail of the raw body that strips to as many characters. */
  function Display(ps: seq<Piece>, body: string, text: string): string {
    if LastSlot(ps) == Some(Message) && |text| <= |Strip(body)| then body[RawIndex(body, |Strip(body)| - |text|)..]
    else if LastSlot(ps) == Some(Message) then body
    else text
  }

  function Trim(s: string): string {
    TrimEnd(TrimStart(s))
  }

  function TrimStart(s: string): string {
    if s != "" && Space(s[0]) then TrimStart(s[1..]) else s
  }

  function TrimEnd(s: string): string {
    if s != "" && Space(s[|s| - 1]) then TrimEnd(s[..|s| - 1]) else s
  }

  const TAGGED := "[{source}] <{nick}> {message}"
  const BARE := "<{nick}> {message}"

  function Templates(pattern: Option<string>): seq<string> {
    var custom := Trim(OrEmpty(pattern));
    if custom != "" then [custom] else [TAGGED, BARE]
  }

  function FirstParse(templates: seq<string>, body: string): Option<Parse> {
    if templates == [] then None
    else
      var p := TryTemplate(templates[0], body);
      if p.Some? then p else FirstParse(templates[1..], body)
  }

  function ParseMessage(body: string, pattern: Option<string>): Option<Parse> {
    if body == "" then None else FirstParse(Templates(pattern), body)
  }

  // ----- chains of marked bots -----

  const MAX_RELAY_DEPTH := 4

  /** The innermost speaker and text win, and the innermost source there is. */
  function Deeper(outer: Parse, inner: Parse): Parse {
    Parse(if inner.source.Some? then inner.source else outer.source, inner.nick, inner.text)
  }

  /** Keep parsing while the speaker revealed is marked, at most to the given depth. */
  function Unwrap(p: Parse, marks: string -> Option<string>, depth: nat): Parse
    decreases MAX_RELAY_DEPTH - depth
  {
    if depth >= MAX_RELAY_DEPTH || marks(p.nick).None? then p
    else
      var inner := ParseMessage(p.text, marks(p.nick));
      if inner.None? then p
      else Unwrap(Deeper(p, inner.value), marks, depth + 1)
  }

  /** One hop. */
  lemma UnwrapStep(p: Parse, marks: string -> Option<string>, depth: nat)
    ensures depth >= MAX_RELAY_DEPTH || marks(p.nick).None? ==> Unwrap(p, marks, depth) == p
    ensures depth < MAX_RELAY_DEPTH && marks(p.nick).Some? ==>
              var inner := ParseMessage(p.text, marks(p.nick));
              Unwrap(p, marks, depth) == if inner.None? then p else Unwrap(Deeper(p, inner.value), marks, depth + 1)
  {
  }

  function ParseChain(body: string, pattern: Option<string>, marks: string -> Option<string>): Option<Parse> {
    var first := ParseMessage(body, pattern);
    if first.None? then None else Some(Unwrap(first.value, marks, 1))
  }

  /** The parser with its cache of compiled templates. */
  class Parser {
    var cache: map<string, Option<seq<Piece>>>

    ghost predicate Valid()
      reads this
    {
      forall t <- cache :: cache[t] == Compile(t)
    }

    constructor ()
      ensures Valid()
    {
      cache := map[];
    }

    method CompileRelayTemplate(template: string) returns (compiled: Option<seq<Piece>>)
      requires Valid()
      modifies this
      ensures Valid() && compiled == Compile(template)
    {
      if template in cache {
        return cache[template];
      }
      hide Head;
      var pieces: seq<Piece> := [];
      var rest := template;
      while rest != ""
        invariant Pieces(template) == pieces + Pieces(rest)
        decreases |rest|
      {
        var (piece, n) := Head(rest);
        pieces, rest := pieces + [piece], rest[n..];
      }
      assert pieces == Pieces(template);
      compiled := if Hole(Nick) in pieces && Hole(Message) in pieces then Some(pieces) else None;
      cache := cache[template := compiled];
    }

    method ParseRelayMessage(body: string, customPattern: Option<string>) returns (parsed: Option<Parse>)
      requires Valid()
      modifies this
      ensures Valid() && parsed == ParseMessage(body, customPattern)
    {
      if body == "" {
        return None;
      }
      var stripped := StripFormatting(body);
      var templates := Templates(customPattern);
      assert templates[0..] == templates;
      for i := 0 to |templates|
        invariant Valid()
        invariant FirstParse(templates, body) == FirstParse(templates[i..], body)
      {
        assert templates[i..][0] == templates[i] && templates[i..][1..] == templates[i + 1..];
        parsed := TryOne(templates[i], body, stripped);
        if parsed.Some? {
          return;
        }
      }
      assert templates[|templates|..] == [];
      return None;
    }

    method TryOne(template: string, body: string, stripped: string) returns (parsed: Option<Parse>)
      requires Valid() && stripped == Strip(body)
      modifies this
      ensures Valid() && parsed == TryTemplate(template, body)
    {
      var compiled := CompileRelayTemplate(template);
      if compiled.None? {
        return None;
      }
      var found := Match(compiled.value, stripped);
      if found.None? {
        return None;
      }
      var source, nick, text := None, None, None;
      for i := 0 to |found.value|
        invariant source == Last(found.value[..i], Source)
        invariant nick == Last(found.value[..i], Nick)
        invariant text == Last(found.value[..i], Message)
      {
        var capture := found.value[i];
        assert found.value[..i + 1][..i] == found.value[..i] && found.value[..i + 1][i] == capture;
        match capture.0
        case Source => source := Some(capture.1);
        case Nick => nick := Some(capture.1);
        case Message => text := Some(capture.1);
      }
      assert found.value[..|found.value|] == found.value;
      var plain := DropPrefix(OrEmpty(nick));
      if plain == "" {
        return None;
      }
      var message := OrEmpty(text);
      var display := message;
      if LastSlot(compiled.value) == Some(Message) {
        var start := RawIndexForVisibleOffset(body, |stripped| - |message|);
        display := body[start..];
      }
      return Some(Parse(source, plain, display));
    }

    method ParseRelayChain(body: string, pattern: Option<string>, marks: string -> Option<string>) returns (parsed: Option<Parse>)
      requires Valid()
      modifies this
      ensures Valid() && parsed == ParseChain(body, pattern, marks)
    {
      hide ParseMessage, Compile, Unwrap, Deeper;
      parsed := ParseRelayMessage(body, pattern);
      if parsed.None? {
        return;
      }
      var depth := 1;
      while depth < MAX_RELAY_DEPTH
        invariant Valid() && parsed.Some? && 1 <= depth <= MAX_RELAY_DEPTH
        invariant ParseChain(body, pattern, marks) == Some(Unwrap(parsed.value, marks, depth))
      {
        UnwrapStep(parsed.value, marks, depth);
        var inner := marks(parsed.value.nick);
        if inner.None? {
          break;
        }
        var next := ParseRelayMessage(parsed.value.text, inner);
        if next.None? {
          break;
        }
        parsed := Some(Deeper(parsed.value, next.value));
        depth := depth + 1;
      }
      UnwrapStep(parsed.value, marks, depth);
    }
  }
}
