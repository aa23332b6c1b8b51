/** ASCII case folding, shared by the SQL inspector and the policy engine. */
module Text {

  // `tolower` in the "C" locale.
  function Lower(c: char): char {
    if 'A' <= c <= 'Z' then (c as int + 32) as char else c
  }

  const CAPITALS := "ABCDEFGHIJKLMNOPQRSTUVWXYZ"
  const SMALL_LETTERS := "abcdefghijklmnopqrstuvwxyz"

  // Each capital becomes its small letter, any other character stays.
  lemma LowerExactly(c: char, i: nat)
    requires i < 26
    ensures Lower(CAPITALS[i]) == SMALL_LETTERS[i]
    ensures c !in CAPITALS ==> Lower(c) == c
  {
    if 'A' <= c <= 'Z' {
      assert CAPITALS[c as int - 'A' as int] == c;
    }
  }

  function Fold(s: string): (r: string)
    ensures |r| == |s|
    ensures forall i :: 0 <= i < |s| ==> r[i] == Lower(s[i])
  {
    seq(|s|, i requires 0 <= i < |s| => Lower(s[i]))
  }

  lemma FoldIdempotent(s: string)
    ensures Fold(Fold(s)) == Fold(s)
  {
  }

  lemma FoldEmpty(s: string)
    ensures Fold(s) == "" <==> s == ""
  {
    assert |Fold(s)| == |s|;
  }
}
