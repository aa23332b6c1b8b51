/** The `*`-only, case-insensitive glob matcher of the policy engine. */
module Glob {
  import opened Text

  // What a pattern means: some replacement of every `*` by a string turns the
  // folded pattern into the folded value.
  ghost predicate Substitution(pattern: string, pieces: seq<string>) {
    && |pieces| == |pattern|
    && forall i :: 0 <= i < |pattern| && pattern[i] != '*' ==> pieces[i] == [Lower(pattern[i])]
  }

  function Flat(pieces: seq<string>): string {
    if pieces == [] then "" else pieces[0] + Flat(pieces[1..])
  }

  ghost predicate Denotes(pattern: string, value: string) {
    exists pieces :: Substitution(pattern, pieces) && Flat(pieces) == Fold(value)
  }

  // The same relation read off the two strings position by position.
  ghost predicate MatchesAt(p: string, v: string, i: nat, j: nat)
    requires i <= |p| && j <= |v|
    decreases |p| - i
  {
    if i == |p| then j == |v|
    else if p[i] == '*' then var rest := i + 1; exists k :: j <= k <= |v| && MatchesAt(p, v, rest, k)
    else j < |v| && Lower(p[i]) == Lower(v[j]) && MatchesAt(p, v, i + 1, j + 1)
  }

  // The pattern from i on matches from some position of the value >= from.
  ghost predicate SomeRestart(p: string, v: string, i: nat, from: nat)
    requires i <= |p| && from <= |v|
  {
    exists k :: from <= k <= |v| && MatchesAt(p, v, i, k)
  }

  // p[i..i+n] holds no star and equals v[j..j+n] up to case.
  ghost predicate LiteralRun(p: string, v: string, i: nat, j: nat, n: nat)
    requires i + n <= |p| && j + n <= |v|
  {
    forall t :: i <= t < i + n ==> p[t] != '*' && Lower(p[t]) == Lower(v[t - i + j])
  }

  lemma {:induction false} SkipLiteralRun(p: string, v: string, i: nat, j: nat, n: nat)
    requires i + n <= |p| && j + n <= |v|
    requires LiteralRun(p, v, i, j, n)
    ensures MatchesAt(p, v, i, j) <==> MatchesAt(p, v, i + n, j + n)
    decreases n
  {
    if n > 0 {
      SkipLiteralRun(p, v, i + 1, j + 1, n - 1);
    }
  }

  // A star-free stretch of the pattern consumes exactly as many characters.
  lemma {:induction false} LiteralConsumes(p: string, v: string, i: nat, j: nat, n: nat)
    requires i + n <= |p| && j <= |v|
    requires forall t :: i <= t < i + n ==> p[t] != '*'
    requires MatchesAt(p, v, i, j)
    ensures j + n <= |v| && MatchesAt(p, v, i + n, j + n)
    decreases n
  {
    if n > 0 {
      LiteralConsumes(p, v, i + 1, j + 1, n - 1);
    }
  }

  // Meeting a second star makes the first one irrelevant: this is why keeping
  // only the last star is enough.
  lemma LaterStarSubsumes(p: string, v: string, i: nat, from: nat, n: nat)
    requires i + n < |p| && from + n <= |v|
    requires LiteralRun(p, v, i, from, n)
    requires p[i + n] == '*'
    ensures SomeRestart(p, v, i, from) <==> SomeRestart(p, v, i + n + 1, from + n)
  {
    if SomeRestart(p, v, i, from) {
      var k :| from <= k <= |v| && MatchesAt(p, v, i, k);
      LiteralConsumes(p, v, i, k, n);
    }
    if SomeRestart(p, v, i + n + 1, from + n) {
      SkipLiteralRun(p, v, i, from, n);
      assert MatchesAt(p, v, i + n, from + n);
    }
  }

  lemma RestartFails(p: string, v: string, i: nat, from: nat, n: nat)
    requires i + n <= |p| && from + n < |v|
    requires LiteralRun(p, v, i, from, n)
    requires i + n < |p| ==> p[i + n] != '*' && Lower(p[i + n]) != Lower(v[from + n])
    ensures SomeRestart(p, v, i, from) <==> SomeRestart(p, v, i, from + 1)
  {
    SkipLiteralRun(p, v, i, from, n);
    assert !MatchesAt(p, v, i + n, from + n);
  }

  lemma {:induction false} OnlyStarsMatchNothing(p: string, v: string, i: nat)
    requires i <= |p|
    ensures MatchesAt(p, v, i, |v|) <==> forall t :: i <= t < |p| ==> p[t] == '*'
    decreases |p| - i
  {
    if i < |p| {
      OnlyStarsMatchNothing(p, v, i + 1);
    }
  }

  lemma RestartAtEnd(p: string, v: string, i: nat, from: nat, n: nat)
    requires i + n <= |p| && from + n == |v|
    requires LiteralRun(p, v, i, from, n)
    ensures SomeRestart(p, v, i, from) <==> MatchesAt(p, v, i + n, |v|)
  {
    SkipLiteralRun(p, v, i, from, n);
    if SomeRestart(p, v, i, from) {
      var k :| from <= k <= |v| && MatchesAt(p, v, i, k);
      LiteralConsumes(p, v, i, k, n);
    }
  }

  lemma {:induction false} MatchesAtGivesPieces(p: string, v: string, i: nat, j: nat) returns (pieces: seq<string>)
    requires i <= |p| && j <= |v|
    requires MatchesAt(p, v, i, j)
    ensures Substitution(p[i..], pieces) && Flat(pieces) == Fold(v[j..])
    decreases |p| - i
  {
    if i == |p| {
      pieces := [];
    } else {
      var k := j + 1;
      if p[i] == '*' {
        k :| j <= k <= |v| && MatchesAt(p, v, i + 1, k);
      }
      var rest := MatchesAtGivesPieces(p, v, i + 1, k);
      var head := Fold(v[j..k]);
      pieces := [head] + rest;
      assert Fold(v[j..]) == head + Fold(v[k..]);
      assert pieces[1..] == rest;
      forall t | 0 <= t < |p[i..]| && p[i..][t] != '*' ensures pieces[t] == [Lower(p[i..][t])] {
        if t > 0 {
          assert p[i..][t] == p[i + 1..][t - 1];
        }
      }
    }
  }

  lemma {:induction false} PiecesGiveMatchesAt(p: string, v: string, i: nat, j: nat, pieces: seq<string>)
    requires i <= |p| && j <= |v|
    requires Substitution(p[i..], pieces) && Flat(pieces) == Fold(v[j..])
    ensures MatchesAt(p, v, i, j)
    decreases |p| - i
  {
    if i < |p| {
      var n := |pieces[0]|;
      var rest := pieces[1..];
      assert Flat(pieces) == pieces[0] + Flat(rest);
      assert |Fold(v[j..])| == |v| - j;
      assert Flat(rest) == Fold(v[j..])[n..] == Fold(v[j + n..]);
      forall t | 0 <= t < |p[i + 1..]| && p[i + 1..][t] != '*' ensures rest[t] == [Lower(p[i + 1..][t])] {
        assert p[i + 1..][t] == p[i..][t + 1];
      }
      PiecesGiveMatchesAt(p, v, i + 1, j + n, rest);
      if p[i] != '*' {
        assert p[i..][0] == p[i];
        assert Fold(v[j..])[0] == Lower(v[j]);
      }
    }
  }

  lemma MatchesAtIffDenotes(p: string, v: string)
    ensures MatchesAt(p, v, 0, 0) <==> Denotes(p, v)
  {
    assert p[0..] == p && v[0..] == v;
    if MatchesAt(p, v, 0, 0) {
      var pieces := MatchesAtGivesPieces(p, v, 0, 0);
    }
    if Denotes(p, v) {
      var pieces :| Substitution(p, pieces) && Flat(pieces) == Fold(v);
      PiecesGiveMatchesAt(p, v, 0, 0, pieces);
    }
  }

  // ---- The greedy matcher: on a mismatch it goes back to the last star only ----

  // Where the matcher stands, and what is left to decide there.
  ghost predicate Stands(p: string, v: string, pi: nat, vi: nat, starSeen: bool, starP: nat, starV: nat) {
    && pi <= |p| && vi <= |v| && starV <= vi
    && if starSeen then
         && starP < pi && pi - starP - 1 == vi - starV
         && LiteralRun(p, v, starP + 1, starV, vi - starV)
         && (MatchesAt(p, v, 0, 0) <==> SomeRestart(p, v, starP + 1, starV))
       else
         starV == 0 && (MatchesAt(p, v, 0, 0) <==> MatchesAt(p, v, pi, vi))
  }

  lemma StarMet(p: string, v: string, pi: nat, vi: nat, starSeen: bool, starP: nat, starV: nat)
    requires Stands(p, v, pi, vi, starSeen, starP, starV) && pi < |p| && p[pi] == '*'
    ensures Stands(p, v, pi + 1, vi, true, pi, vi)
  {
    if starSeen {
      LaterStarSubsumes(p, v, starP + 1, starV, vi - starV);
    } else {
      assert MatchesAt(p, v, pi, vi) <==> SomeRestart(p, v, pi + 1, vi);
    }
  }

  lemma LiteralMet(p: string, v: string, pi: nat, vi: nat, starSeen: bool, starP: nat, starV: nat)
    requires Stands(p, v, pi, vi, starSeen, starP, starV) && pi < |p| && vi < |v|
    requires p[pi] != '*' && Lower(p[pi]) == Lower(v[vi])
    ensures Stands(p, v, pi + 1, vi + 1, starSeen, starP, starV)
  {
  }

  lemma Restarted(p: string, v: string, pi: nat, vi: nat, starP: nat, starV: nat)
    requires Stands(p, v, pi, vi, true, starP, starV) && vi < |v|
    requires pi < |p| ==> p[pi] != '*' && Lower(p[pi]) != Lower(v[vi])
    ensures Stands(p, v, starP + 1, starV + 1, true, starP, starV + 1)
  {
    RestartFails(p, v, starP + 1, starV, vi - starV);
  }

  lemma ValueUsedUp(p: string, v: string, pi: nat, vi: nat, starSeen: bool, starP: nat, starV: nat)
    requires Stands(p, v, pi, vi, starSeen, starP, starV) && vi == |v|
    ensures MatchesAt(p, v, 0, 0) <==> forall t :: pi <= t < |p| ==> p[t] == '*'
  {
    if starSeen {
      RestartAtEnd(p, v, starP + 1, starV, vi - starV);
    }
    OnlyStarsMatchNothing(p, v, pi);
  }

  method GlobMatch(pattern: string, value: string) returns (matched: bool)
    ensures matched <==> Denotes(pattern, value)
  {
    MatchesAtIffDenotes(pattern, value);
    var pi, vi := 0, 0;
    var starSeen, starP, starV := false, 0, 0;
    while vi < |value|
      invariant Stands(pattern, value, pi, vi, starSeen, starP, starV)
      decreases |value| - starV, |value| - vi, |pattern| - pi
    {
      if pi < |pattern| && pattern[pi] == '*' {
        StarMet(pattern, value, pi, vi, starSeen, starP, starV);
        starSeen, starP, starV := true, pi, vi;
        pi := pi + 1;
      } else if pi < |pattern| && Lower(pattern[pi]) == Lower(value[vi]) {
        LiteralMet(pattern, value, pi, vi, starSeen, starP, starV);
        pi, vi := pi + 1, vi + 1;
      } else if starSeen {
        Restarted(pattern, value, pi, vi, starP, starV);
        starV := starV + 1;
        pi, vi := starP + 1, starV;
      } else {
        return false;
      }
    }
    ValueUsedUp(pattern, value, pi, vi, starSeen, starP, starV);
    ghost var stop := pi;
    while pi < |pattern| && pattern[pi] == '*'
      invariant stop <= pi <= |pattern|
      invariant forall t :: stop <= t < pi ==> pattern[t] == '*'
    {
      pi := pi + 1;
    }
    matched := pi == |pattern|;
  }

  lemma SubstitutionIgnoresCase(p: string, pieces: seq<string>)
    ensures Substitution(Fold(p), pieces) <==> Substitution(p, pieces)
  {
    forall i | 0 <= i < |p|
      ensures Lower(Lower(p[i])) == Lower(p[i]) && (Lower(p[i]) == '*' <==> p[i] == '*')
    {
    }
  }

  lemma CaseDoesNotMatter(p: string, v: string)
    ensures Denotes(Fold(p), v) <==> Denotes(p, v)
    ensures Denotes(p, Fold(v)) <==> Denotes(p, v)
  {
    FoldIdempotent(v);
    if Denotes(p, v) {
      var pieces :| Substitution(p, pieces) && Flat(pieces) == Fold(v);
      SubstitutionIgnoresCase(p, pieces);
    }
    if Denotes(Fold(p), v) {
      var pieces :| Substitution(Fold(p), pieces) && Flat(pieces) == Fold(v);
      SubstitutionIgnoresCase(p, pieces);
    }
  }
}
