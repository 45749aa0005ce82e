/**
 * Strings as the search predicate and the message templates see them:
 * substring containment and an abstract per-character case folding.
 */
module Text {

  /** `pattern` occurs in `text` starting at position `i`. */
  ghost predicate OccursAt(text: string, pattern: string, i: nat) {
    i + |pattern| <= |text| && text[i..i + |pattern|] == pattern
  }

  /** Substring test (`CONTAINS`): is `pattern` a prefix of some suffix of `text`? */
  function Contains(text: string, pattern: string): bool
  {
    pattern <= text || (text != [] && Contains(text[1..], pattern))
  }

  /** `Contains` finds exactly the occurrences there are. */
  lemma {:induction false} ContainsIffOccurs(text: string, pattern: string)
    ensures Contains(text, pattern) <==> exists i: nat :: OccursAt(text, pattern, i)
  {
    if pattern <= text {
      assert text[0..|pattern|] == pattern;
      assert OccursAt(text, pattern, 0);
    } else if text == [] {
    } else {
      ContainsIffOccurs(text[1..], pattern);
      if Contains(text, pattern) {
        var i: nat :| OccursAt(text[1..], pattern, i);
        assert text[i + 1..i + 1 + |pattern|] == text[1..][i..i + |pattern|];
        assert OccursAt(text, pattern, i + 1);
      }
      if exists j: nat :: OccursAt(text, pattern, j) {
        var j: nat :| OccursAt(text, pattern, j);
        assert j != 0;
        assert text[1..][j - 1..j - 1 + |pattern|] == text[j..j + |pattern|];
        assert OccursAt(text[1..], pattern, j - 1);
      }
    }
  }

  /** The empty pattern is contained in every text. */
  lemma ContainsEmpty(text: string)
    ensures Contains(text, [])
  {
  }

  /** A string spliced into a template is contained in the result. */
  lemma {:induction false} ContainsInfix(prefix: string, middle: string, suffix: string)
    ensures Contains(prefix + middle + suffix, middle)
  {
    if prefix == [] {
      assert prefix + middle + suffix == middle + suffix;
      assert middle <= middle + suffix;
    } else {
      ContainsInfix(prefix[1..], middle, suffix);
      assert (prefix + middle + suffix)[1..] == prefix[1..] + middle + suffix;
    }
  }

  /** `s` with every character replaced by its folded form. */
  function Folded(s: string, fold: char -> char): string
  {
    if s == [] then [] else [fold(s[0])] + Folded(s[1..], fold)
  }

  /** Folding keeps the length and folds each character in place. */
  lemma {:induction false} FoldedChars(s: string, fold: char -> char)
    ensures |Folded(s, fold)| == |s|
    ensures forall i :: 0 <= i < |s| ==> Folded(s, fold)[i] == fold(s[i])
  {
    if s != [] {
      FoldedChars(s[1..], fold);
      assert forall i :: 1 <= i < |s| ==> Folded(s, fold)[i] == Folded(s[1..], fold)[i - 1];
    }
  }

  /** Case-insensitive containment (`CONTAINS[c]`): containment after folding both sides. */
  function ContainsFolded(text: string, pattern: string, fold: char -> char): bool
  {
    Contains(Folded(text, fold), Folded(pattern, fold))
  }
}
