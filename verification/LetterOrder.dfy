/** Texts made of the letters a and b, which tell two orders apart. */
module LetterOrder {

  /** What the k-th delta says instead is never empty. */
  ghost predicate SaysSomething(text: nat -> string) {
    forall k :: text(k) != ""
  }

  predicate Only(s: string, c: char) {
    forall i :: 0 <= i < |s| ==> s[i] == c
  }

  /** No b comes before an a. */
  predicate Sorted(s: string) {
    forall i, j :: 0 <= i < j < |s| ==> !(s[i] == 'b' && s[j] == 'a')
  }

  lemma NotSorted(before: string, s: string)
    requires 'b' in before && before + "a" <= s
    ensures !Sorted(s)
  {
    var i :| 0 <= i < |before| && before[i] == 'b';
    assert (before + "a")[i] == 'b' && (before + "a")[|before|] == 'a';
    assert s[i] == 'b' && s[|before|] == 'a';
  }
}
