module Seqs {

  function Erase<T>(s: seq<T>, i: nat): seq<T>
    requires i < |s|
  {
    s[..i] + s[i + 1..]
  }

  // A sequence that rises step by step rises altogether.
  lemma {:induction false} RisingChain(stamps: seq<int>, i: nat, m: nat)
    requires i <= m < |stamps| && forall x :: i <= x < m ==> stamps[x] <= stamps[x + 1]
    ensures stamps[i] <= stamps[m]
    decreases m
  {
    if i < m {
      RisingChain(stamps, i, m - 1);
      assert stamps[m - 1] <= stamps[m - 1 + 1];
    }
  }

  // A number between the first and the last bound lies between two neighbours.
  lemma {:induction false} FindInterval(bounds: seq<int>, m: int) returns (i: nat)
    requires |bounds| > 0 && bounds[0] <= m < bounds[|bounds| - 1]
    ensures i + 1 < |bounds| && bounds[i] <= m < bounds[i + 1]
    decreases |bounds|
  {
    var n := |bounds| - 2;
    if bounds[n] <= m {
      i := n;
    } else {
      i := FindInterval(bounds[..n + 1], m);
    }
  }

  function Members(s: seq<string>): set<string> {
    set x | x in s
  }

  lemma {:induction false} MembersCount(s: seq<string>)
    ensures |Members(s)| <= |s|
  {
    if s == [] {
      assert Members(s) == {};
    } else {
      MembersCount(s[1..]);
      assert s == [s[0]] + s[1..];
      assert Members(s) == {s[0]} + Members(s[1..]);
    }
  }

  lemma {:induction false} SubsetCount(a: set<string>, b: set<string>)
    requires a <= b
    ensures |a| <= |b|
  {
    if a != {} {
      var x :| x in a;
      SubsetCount(a - {x}, b - {x});
    }
  }

  lemma DroppingNeverAdds(s: set<string>, x: string)
    ensures |s - {x}| == if x in s then |s| - 1 else |s|
  {
    if x !in s {
      assert s - {x} == s;
    }
  }
}
