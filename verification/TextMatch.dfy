/** IRC formatting codes and the map from stripped offsets back to raw ones (shared/textMatch.ts). */
module TextMatch {
  predicate Digit(c: char) { '0' <= c <= '9' }

  predicate HexDigit(c: char) { Digit(c) || 'A' <= c <= 'F' || 'a' <= c <= 'f' }

  /** The `\s` of a regular expression. */
  predicate Space(c: char) {
    c as int in {0x09, 0x0a, 0x0b, 0x0c, 0x0d, 0x20, 0xa0, 0x1680, 0x2028, 0x2029, 0x202f, 0x205f, 0x3000, 0xfeff}
    || 0x2000 <= c as int <= 0x200a
  }

  const COLOR := 0x03 as char
  const HEX_COLOR := 0x04 as char

  predicate Toggle(c: char) { c as int in {0x02, 0x0f, 0x11, 0x16, 0x1d, 0x1e, 0x1f} }

  /** Where every format code starts, and what no visible character is. */
  predicate Control(c: char) { c == COLOR || c == HEX_COLOR || Toggle(c) }

  /** How many of the next two characters from `i` are digits in a row. */
  function Digits(s: string, i: nat): (n: nat)
    ensures i + n <= |s| || n == 0
    ensures n <= 2
  {
    if i < |s| && Digit(s[i]) then (if i + 1 < |s| && Digit(s[i + 1]) then 2 else 1) else 0
  }

  predicate SixHex(s: string, i: nat) {
    i + 6 <= |s| && forall k | i <= k < i + 6 :: HexDigit(s[k])
  }

  /** The length of the format code at the start of `s`; 0 when a visible character is there. A colour takes
      one or two digits and then, only after those, a comma and one or two more; a hex colour six and six. */
  function CodeLength(s: string): (n: nat)
    ensures n <= |s|
    ensures n > 0 <==> s != "" && Control(s[0])
  {
    if s == "" then 0
    else if s[0] == COLOR then
      var fg := Digits(s, 1);
      var bg := if fg > 0 && 1 + fg < |s| && s[1 + fg] == ',' then Digits(s, 2 + fg) else 0;
      if bg > 0 then 2 + fg + bg else 1 + fg
    else if s[0] == HEX_COLOR then
      if !SixHex(s, 1) then 1 else if 7 < |s| && s[7] == ',' && SixHex(s, 8) then 14 else 7
    else if Toggle(s[0]) then 1
    else 0
  }

  /** stripFormatting. */
  function Strip(s: string): string
    decreases |s|
  {
    if s == "" then ""
    else if CodeLength(s) > 0 then Strip(s[CodeLength(s)..])
    else [s[0]] + Strip(s[1..])
  }

  method StripFormatting(text: string) returns (out: string)
    ensures out == Strip(text)
  {
    hide Strip, CodeLength, Control;
    out := "";
    var i := 0;
    assert text[0..] == text;
    while i < |text|
      invariant i <= |text| && Strip(text) == out + Strip(text[i..])
    {
      StripStep(text[i..]);
      var n := CodeLength(text[i..]);
      assert text[i..][(if n > 0 then n else 1)..] == text[i + (if n > 0 then n else 1)..];
      if n > 0 {
        i := i + n;
      } else {
        out := out + [text[i]];
        i := i + 1;
      }
    }
    StripStep(text[i..]);
  }

  lemma StripStep(s: string)
    ensures s == "" ==> Strip(s) == ""
    ensures s != "" && CodeLength(s) > 0 ==> Strip(s) == Strip(s[CodeLength(s)..])
    ensures s != "" && CodeLength(s) == 0 ==> Strip(s) == [s[0]] + Strip(s[1..])
  {
  }

  predicate Visible(s: string) {
    forall c <- s :: !Control(c)
  }

  /** What is stripped away is all of it. */
  lemma {:induction false} StripIsVisible(s: string)
    ensures Visible(Strip(s)) && |Strip(s)| <= |s|
    decreases |s|
  {
    if s != "" {
      if CodeLength(s) > 0 {
        StripIsVisible(s[CodeLength(s)..]);
      } else {
        StripIsVisible(s[1..]);
      }
    }
  }

  /** Only codes are stripped: visible text in front stays, whatever follows it. */
  lemma {:induction false} VisibleStays(v: string, s: string)
    requires Visible(v)
    ensures Strip(v + s) == v + Strip(s)
    decreases |v|
  {
    if v == "" {
      assert v + s == s;
    } else {
      assert (v + s)[0] == v[0] && (v + s)[1..] == v[1..] + s && v[0] in v;
      VisibleStays(v[1..], s);
      assert [v[0]] + (v[1..] + Strip(s)) == v + Strip(s);
    }
  }

  lemma StripTwice(s: string)
    ensures Strip(Strip(s)) == Strip(s)
  {
    StripIsVisible(s);
    VisibleStays(Strip(s), "");
    assert Strip(s) + "" == Strip(s);
  }

  /** The raw index in front of visible offset k: whole codes are skipped on the way, but not the ones in
      front of the character at k. */
  function RawIndex(s: string, k: nat): (r: nat)
    ensures r <= |s|
    decreases |s|
  {
    if k == 0 || s == "" then 0
    else if CodeLength(s) > 0 then CodeLength(s) + RawIndex(s[CodeLength(s)..], k)
    else 1 + RawIndex(s[1..], k - 1)
  }

  method RawIndexForVisibleOffset(raw: string, visibleOffset: int) returns (index: nat)
    ensures index == if visibleOffset <= 0 then 0 else RawIndex(raw, visibleOffset)
  {
    hide RawIndex, CodeLength, Control;
    if visibleOffset <= 0 {
      return 0;
    }
    assert raw[0..] == raw;
    var visible := 0;
    var i := 0;
    while i < |raw|
      invariant visible <= visibleOffset && i <= |raw|
      invariant RawIndex(raw, visibleOffset) == i + RawIndex(raw[i..], visibleOffset - visible)
    {
      RawIndexStep(raw[i..], visibleOffset - visible);
      if visible >= visibleOffset {
        return i;
      }
      var n := CodeLength(raw[i..]);
      assert raw[i..][(if n > 0 then n else 1)..] == raw[i + (if n > 0 then n else 1)..];
      if n > 0 {
        i := i + n;
      } else {
        visible := visible + 1;
        i := i + 1;
      }
    }
    RawIndexStep(raw[i..], visibleOffset - visible);
    return |raw|;
  }

  /** One step of the walk. */
  lemma RawIndexStep(s: string, k: nat)
    ensures k == 0 || s == "" ==> RawIndex(s, k) == 0
    ensures k > 0 && s != "" && CodeLength(s) > 0 ==> RawIndex(s, k) == CodeLength(s) + RawIndex(s[CodeLength(s)..], k)
    ensures k > 0 && s != "" && CodeLength(s) == 0 ==> RawIndex(s, k) == 1 + RawIndex(s[1..], k - 1)
  {
  }

  /** Cutting the raw text at the index of a visible offset cuts the stripped text there; an offset past
      the end cuts off everything. */
  lemma {:induction false} CutAtVisibleOffset(s: string, k: nat)
    ensures k <= |Strip(s)| ==> Strip(s[RawIndex(s, k)..]) == Strip(s)[k..]
    ensures k > |Strip(s)| ==> RawIndex(s, k) == |s|
    decreases |s|
  {
    RawIndexStep(s, k);
    StripStep(s);
    hide Strip, RawIndex, CodeLength, Control;
    if k == 0 || s == "" {
      assert s[0..] == s && Strip(s)[0..] == Strip(s);
    } else {
      var n := if CodeLength(s) > 0 then CodeLength(s) else 1;
      var rest := if CodeLength(s) > 0 then k else k - 1;
      CutAtVisibleOffset(s[n..], rest);
      assert s[n..][RawIndex(s[n..], rest)..] == s[RawIndex(s, k)..];
    }
  }

  /** Formatting of the tail is kept: what stands right in front of the cut is the visible character k - 1. */
  lemma {:induction false} CutKeepsTailCodes(s: string, k: nat)
    requires 0 < k <= |Strip(s)|
    ensures RawIndex(s, k) > 0 && s[RawIndex(s, k) - 1] == Strip(s)[k - 1]
    decreases |s|
  {
    if CodeLength(s) > 0 {
      CutKeepsTailCodes(s[CodeLength(s)..], k);
    } else if k > 1 {
      CutKeepsTailCodes(s[1..], k - 1);
    }
  }

  /** Behind visible text the cut falls exactly where that text ends. */
  lemma {:induction false} CutBehindVisible(v: string, s: string)
    requires Visible(v)
    ensures RawIndex(v + s, |v|) == |v|
    decreases |v|
  {
    if v != "" {
      assert (v + s)[0] == v[0] && (v + s)[1..] == v[1..] + s && v[0] in v;
      CutBehindVisible(v[1..], s);
    }
  }

  // ----- what a format code is -----

  predicate OneOrTwoDigits(t: string) { 1 <= |t| <= 2 && forall c <- t :: Digit(c) }

  predicate SixHexDigits(t: string) { |t| == 6 && forall c <- t :: HexDigit(c) }

  /** A lead character alone, or with one colour, or with two and a comma between. */
  ghost predicate ColorForm(t: string, lead: char, color: string -> bool) {
    && t != "" && t[0] == lead
    && (|t| == 1 || color(t[1..]) || exists k :: 1 < k < |t| && t[k] == ',' && color(t[1..k]) && color(t[k + 1..]))
  }

  ghost predicate IsCode(t: string) {
    ColorForm(t, COLOR, OneOrTwoDigits) || ColorForm(t, HEX_COLOR, SixHexDigits) || (|t| == 1 && Toggle(t[0]))
  }

  /** The tokenizer takes the longest format code there is at the start of the text, and 0 only when none
      is there. */
  lemma LongestCode(s: string)
    ensures CodeLength(s) > 0 ==> IsCode(s[..CodeLength(s)])
    ensures forall n | CodeLength(s) < n <= |s| :: !IsCode(s[..n])
  {
    if s != "" {
      if s[0] == COLOR {
        LongestColor(s);
      } else if s[0] == HEX_COLOR {
        LongestHex(s);
      }
    }
  }

  lemma LongestColor(s: string)
    requires s != "" && s[0] == COLOR
    ensures ColorForm(s[..CodeLength(s)], COLOR, OneOrTwoDigits)
    ensures forall n | CodeLength(s) < n <= |s| :: !IsCode(s[..n])
  {
    var n := CodeLength(s);
    var t := s[..n];
    var fg := Digits(s, 1);
    if n > 1 + fg {
      assert t[1 + fg] == ',' && OneOrTwoDigits(t[1..1 + fg]) && OneOrTwoDigits(t[2 + fg..]);
    } else if n > 1 {
      assert OneOrTwoDigits(t[1..]);
    }
    forall m | n < m <= |s| ensures !IsCode(s[..m]) {
      if IsCode(s[..m]) {
        ColorFits(s, m);
      }
    }
  }

  lemma ColorFits(s: string, m: nat)
    requires m <= |s| && ColorForm(s[..m], COLOR, OneOrTwoDigits)
    ensures m <= CodeLength(s)
  {
    var t := s[..m];
    if OneOrTwoDigits(t[1..]) {
      assert t[1..][0] == s[1] && (m == 3 ==> t[1..][1] == s[2]);
    } else if |t| > 1 {
      var k :| 1 < k < |t| && t[k] == ',' && OneOrTwoDigits(t[1..k]) && OneOrTwoDigits(t[k + 1..]);
      assert t[1..k][0] == s[1] && (k == 3 ==> t[1..k][1] == s[2]) && !Digit(',');
      assert Digits(s, 1) == k - 1;
      assert t[k + 1..][0] == s[k + 1] && (m == k + 3 ==> t[k + 1..][1] == s[k + 2]);
    }
  }

  lemma LongestHex(s: string)
    requires s != "" && s[0] == HEX_COLOR
    ensures ColorForm(s[..CodeLength(s)], HEX_COLOR, SixHexDigits)
    ensures forall n | CodeLength(s) < n <= |s| :: !IsCode(s[..n])
  {
    var n := CodeLength(s);
    var t := s[..n];
    if n == 14 {
      assert t[7] == ',' && SixHexDigits(t[1..7]) && SixHexDigits(t[8..]);
    } else if n == 7 {
      assert SixHexDigits(t[1..]);
    }
    forall m | n < m <= |s| ensures !IsCode(s[..m]) {
      if IsCode(s[..m]) {
        HexFits(s, m);
      }
    }
  }

  lemma HexFits(s: string, m: nat)
    requires m <= |s| && ColorForm(s[..m], HEX_COLOR, SixHexDigits)
    ensures m <= CodeLength(s)
  {
    var t := s[..m];
    if SixHexDigits(t[1..]) {
      assert forall i | 1 <= i < 7 :: s[i] == t[1..][i - 1];
      assert SixHex(s, 1);
    } else if |t| > 1 {
      var k :| 1 < k < |t| && t[k] == ',' && SixHexDigits(t[1..k]) && SixHexDigits(t[k + 1..]);
      assert k == 7 && m == 14;
      assert forall i | 1 <= i < 7 :: s[i] == t[1..k][i - 1];
      assert forall i | 8 <= i < 14 :: s[i] == t[k + 1..][i - 8];
      assert SixHex(s, 1) && SixHex(s, 8);
    }
  }
}
