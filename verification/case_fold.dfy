/**
 * Case-insensitive name comparison, as used when a server discovered in a
 * source is matched against the names the operator asked for.
 *
 * Folding is restricted to ASCII: 'A'..'Z' fold to 'a'..'z' and every other
 * character compares exactly.
 */
module CaseFold {

  /** One character folded to lower case when it is an ASCII capital. */
  function FoldChar(c: char): char {
    if 'A' <= c <= 'Z' then (c as int + 32) as char else c
  }

  /** The whole string folded character by character. */
  function Fold(s: string): (t: string)
    ensures |t| == |s|
  {
    if |s| == 0 then [] else [FoldChar(s[0])] + Fold(s[1..])
  }

  /**
   * Two strings are equal up to case: same length, same folded character at
   * every position. This is the same as comparing the folded strings.
   */
  predicate EqualFold(a: string, b: string)
    ensures EqualFold(a, b) <==> Fold(a) == Fold(b)
  {
    FoldAt(a);
    FoldAt(b);
    |a| == |b| && forall i :: 0 <= i < |a| ==> FoldChar(a[i]) == FoldChar(b[i])
  }

  /** Position `i` of the folded string is the folded character `i`. */
  lemma {:induction false} FoldAt(s: string)
    ensures forall i :: 0 <= i < |s| ==> Fold(s)[i] == FoldChar(s[i])
  {
    if |s| > 0 {
      FoldAt(s[1..]);
    }
  }

  /** Equality up to case is an equivalence relation. */
  lemma EqualFoldIsEquivalence(a: string, b: string, c: string)
    ensures EqualFold(a, a)
    ensures EqualFold(a, b) ==> EqualFold(b, a)
    ensures EqualFold(a, b) && EqualFold(b, c) ==> EqualFold(a, c)
  {
  }

  /**
   * Whether `name` occurs in `names` up to case. The scan stops at the first
   * match; an empty list contains nothing.
   */
  function IncludesName(names: seq<string>, name: string): (r: bool)
    ensures r <==> exists i :: 0 <= i < |names| && EqualFold(names[i], name)
    ensures |names| == 0 ==> !r
  {
    if |names| == 0 then false
    else if EqualFold(names[0], name) then true
    else
      assert forall i :: 1 <= i < |names| ==> names[i] == names[1..][i - 1];
      IncludesName(names[1..], name)
  }

  /** Membership does not depend on the case of the name looked up. */
  lemma IncludesNameIgnoresCase(names: seq<string>, name: string, other: string)
    requires EqualFold(name, other)
    ensures IncludesName(names, name) <==> IncludesName(names, other)
  {
  }
}
