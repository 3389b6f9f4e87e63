/** Target folding under the server-declared CASEMAPPING (server/db/casemapping.ts). `lower` is the
    legacy rule, which undeclared networks and rfc7613 use. */
module Casemapping {
  import opened Options

  datatype Mapping = Ascii | Rfc1459 | Rfc1459Strict | Rfc7613

  /** Everything from 'A' to the bound is upper case and folds 32 up. */
  function UpperBound(m: Mapping): int {
    match m
    case Ascii => 'Z' as int
    case Rfc1459Strict => ']' as int
    case Rfc1459 => '^' as int
    case Rfc7613 => 0
  }

  function FoldChar(m: Mapping, c: char): char {
    if 'A' as int <= c as int <= UpperBound(m) then c + 32 as char else c
  }

  predicate Legacy(m: Option<Mapping>) {
    m.None? || m.value.Rfc7613?
  }

  function Fold(lower: string -> string, m: Option<Mapping>, target: string): string {
    if Legacy(m) then lower(target)
    else seq(|target|, i requires 0 <= i < |target| => FoldChar(m.value, target[i]))
  }

  method FoldTargetWith(lower: string -> string, m: Option<Mapping>, target: string) returns (folded: string)
    ensures folded == Fold(lower, m, target)
  {
    if m.None? || m.value.Rfc7613? {
      return lower(target);
    }
    var bound := UpperBound(m.value);
    folded := "";
    for i := 0 to |target|
      invariant |folded| == i && forall j | 0 <= j < i :: folded[j] == FoldChar(m.value, target[j])
    {
      var c := target[i];
      folded := folded + [if 65 <= c as int <= bound then (c as int + 32) as char else c];
    }
  }

  /** Folding is idempotent: a folded name is its own fold. */
  lemma FoldTwice(lower: string -> string, m: Option<Mapping>, target: string)
    requires Legacy(m) ==> lower(lower(target)) == lower(target)
    ensures Fold(lower, m, Fold(lower, m, target)) == Fold(lower, m, target)
  {
    if !Legacy(m) {
      var once := Fold(lower, m, target);
      forall i | 0 <= i < |target| ensures FoldChar(m.value, once[i]) == once[i] {
        FoldCharTwice(m.value, target[i]);
      }
    }
  }

  lemma FoldCharTwice(m: Mapping, c: char)
    ensures FoldChar(m, FoldChar(m, c)) == FoldChar(m, c)
  {
    assert 'Z' as int == 90 && '^' as int == 94 && ']' as int == 93 && 'A' as int == 65;
  }

  /** The bounded mappings only get coarser: names equal under ascii are equal under rfc1459-strict, and
      those are equal under rfc1459. */
  lemma CoarserMappings(lower: string -> string, a: string, b: string)
    ensures Fold(lower, Some(Ascii), a) == Fold(lower, Some(Ascii), b) ==>
              Fold(lower, Some(Rfc1459Strict), a) == Fold(lower, Some(Rfc1459Strict), b)
    ensures Fold(lower, Some(Rfc1459Strict), a) == Fold(lower, Some(Rfc1459Strict), b) ==>
              Fold(lower, Some(Rfc1459), a) == Fold(lower, Some(Rfc1459), b)
  {
    if Fold(lower, Some(Ascii), a) == Fold(lower, Some(Ascii), b) {
      Coarsen(lower, Ascii, Rfc1459Strict, a, b);
    }
    if Fold(lower, Some(Rfc1459Strict), a) == Fold(lower, Some(Rfc1459Strict), b) {
      Coarsen(lower, Rfc1459Strict, Rfc1459, a, b);
    }
  }

  lemma Coarsen(lower: string -> string, fine: Mapping, coarse: Mapping, a: string, b: string)
    requires !fine.Rfc7613? && !coarse.Rfc7613? && UpperBound(fine) <= UpperBound(coarse)
    requires Fold(lower, Some(fine), a) == Fold(lower, Some(fine), b)
    ensures Fold(lower, Some(coarse), a) == Fold(lower, Some(coarse), b)
  {
    assert |Fold(lower, Some(fine), a)| == |a| && |Fold(lower, Some(fine), b)| == |b|;
    forall i | 0 <= i < |a| ensures FoldChar(coarse, a[i]) == FoldChar(coarse, b[i]) {
      assert Fold(lower, Some(fine), a)[i] == FoldChar(fine, a[i]);
      assert Fold(lower, Some(fine), b)[i] == FoldChar(fine, b[i]);
      CoarsenChar(fine, coarse, a[i], b[i]);
    }
    assert Fold(lower, Some(coarse), a) == Fold(lower, Some(coarse), b);
  }

  lemma CoarsenChar(fine: Mapping, coarse: Mapping, a: char, b: char)
    requires !fine.Rfc7613? && !coarse.Rfc7613? && UpperBound(fine) <= UpperBound(coarse)
    requires FoldChar(fine, a) == FoldChar(fine, b)
    ensures FoldChar(coarse, a) == FoldChar(coarse, b)
  {
  }

  /** The direction servers run: '^' folds to '~' under rfc1459, not the other way round, and the strict
      mapping keeps the two apart. */
  lemma CaretFoldsToTilde(lower: string -> string)
    ensures Fold(lower, Some(Rfc1459), "^") == "~" == Fold(lower, Some(Rfc1459), "~")
    ensures Fold(lower, Some(Rfc1459Strict), "^") != Fold(lower, Some(Rfc1459Strict), "~")
  {
    assert '^' as int == 94 && '~' as int == 126 && ']' as int == 93;
    assert ('^' + 32 as char) == '~';
    assert Fold(lower, Some(Rfc1459Strict), "^")[0] == '^' && Fold(lower, Some(Rfc1459Strict), "~")[0] == '~';
  }

  /** The punctuation pairs of each mapping, and what no bounded mapping touches. */
  lemma PunctuationPairs(lower: string -> string)
    ensures Fold(lower, Some(Rfc1459), "[\\]^") == "{|}~"
    ensures Fold(lower, Some(Rfc1459Strict), "[\\]^") == "{|}^"
    ensures Fold(lower, Some(Ascii), "[\\]^") == "[\\]^"
    ensures forall m: Mapping, c: char | !m.Rfc7613? :: FoldChar(m, c) != c ==> c in "ABCDEFGHIJKLMNOPQRSTUVWXYZ[\\]^"
  {
    assert 'Z' as int == 90 && '[' as int == 91 && '\\' as int == 92 && ']' as int == 93 && '^' as int == 94;
    assert '{' as int == 123 && '|' as int == 124 && '}' as int == 125 && '~' as int == 126;
    assert '[' + 32 as char == '{' && '\\' + 32 as char == '|' && ']' + 32 as char == '}' && '^' + 32 as char == '~';
    var upper := "ABCDEFGHIJKLMNOPQRSTUVWXYZ[\\]^";
    forall m: Mapping, c: char | !m.Rfc7613? && FoldChar(m, c) != c ensures c in upper {
      assert 65 <= c as int <= 94;
      UpperInOrder(c as int - 65);
      assert upper[c as int - 65] == c;
    }
  }

  lemma UpperInOrder(i: nat)
    requires i < 30
    ensures "ABCDEFGHIJKLMNOPQRSTUVWXYZ[\\]^"[i] as int == 65 + i
  {
  }
}
