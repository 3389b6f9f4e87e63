/** The code points the text rules turn on (shared/textMatch.ts, server/db/casemapping.ts). */
module TextPoints {
  import opened Options
  import opened TextMatch
  import opened Casemapping

  /** The format codes: bold, colour, hex colour, reset, monospace, reverse, italics, strikethrough, underline. */
  lemma Controls(c: char)
    ensures Control(c) <==> c as int in {2, 3, 4, 15, 17, 22, 29, 30, 31}
    ensures Toggle(c) <==> c as int in {2, 15, 17, 22, 29, 30, 31}
    ensures COLOR as int == 3 && HEX_COLOR as int == 4
    ensures Digit(c) <==> c in "0123456789"
    ensures HexDigit(c) <==> c in "0123456789abcdefABCDEF"
    ensures Space(c) <==> c as int in {9, 10, 11, 12, 13, 32, 160, 5760, 8232, 8233, 8239, 8287, 12288, 65279} || 8192 <= c as int <= 8202
  {
  }

  /** A colour code takes one or two digits, and a comma and one or two more only if both are there; a hex
      colour six hex digits likewise; a toggle stands alone. */
  lemma SampleCodes()
    ensures CodeLength([COLOR] + "4,12x") == 5 && CodeLength([COLOR] + "412") == 3 && CodeLength([COLOR] + "4,x") == 2
    ensures CodeLength([COLOR] + "x") == 1 && CodeLength([HEX_COLOR] + "00ffAA1") == 7 && CodeLength([HEX_COLOR] + "00ff") == 1
    ensures CodeLength("x") == 0
  {
  }

  /** The bounded mappings lower-case ASCII capitals as pairs 32 apart, and each the brackets of its own. */
  lemma FoldOfChar(m: Mapping, c: char)
    requires !m.Rfc7613?
    ensures FoldChar(m, c) ==
      if 'A' <= c <= 'Z' || (!m.Ascii? && (c == '[' || c == '\\' || c == ']')) || (m.Rfc1459? && c == '^') then c + 32 as char else c
  {
  }

  /** A name is folded character by character under those, and as text in lower case otherwise. */
  lemma FoldOfName(lower: string -> string, m: Option<Mapping>, target: string)
    ensures m.None? || m == Some(Rfc7613) ==> Fold(lower, m, target) == lower(target)
    ensures m.Some? && m != Some(Rfc7613) ==>
              && |Fold(lower, m, target)| == |target|
              && forall i | 0 <= i < |target| :: Fold(lower, m, target)[i] == FoldChar(m.value, target[i])
  {
  }
}
