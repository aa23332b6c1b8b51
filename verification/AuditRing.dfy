/** The ring of recent audit events: it shows the last ones pushed, in order. */
module AuditRingImpl {
  import opened Arithmetic
  import opened AuditLine

  const BLANK := Event(0, TokenRejected, "", "", "", "", "", "")

  lemma ModOfSum(a: nat, b: nat, m: nat)
    requires m > 0
    ensures (a % m + b) % m == (a + b) % m
  {
    var s := a % m + b;
    assert a + b == (a / m + s / m) * m + s % m;
    DivideExactly(a + b, m, a / m + s / m, s % m);
  }

  // Stepping back `back` places around the ring of size m from position a % m.
  lemma StepBack(a: nat, back: nat, m: nat)
    requires m > 0 && back <= a && back <= m
    ensures (a % m + m - back) % m == (a - back) % m
  {
    ModOfSum(a, m - back, m);
    var r := (a - back) % m;
    assert a + (m - back) == ((a - back) / m + 1) * m + r;
    DivideExactly(a + (m - back), m, (a - back) / m + 1, r);
  }

  lemma SlotsDiffer(i: nat, j: nat, m: nat)
    requires m > 0 && i < j < i + m
    ensures i % m != j % m
  {
    var r, k := i % m, j - i;
    if r + k < m {
      DivideExactly(j, m, i / m, r + k);
    } else {
      DivideExactly(j, m, i / m + 1, r + k - m);
    }
  }

  class AuditRing {
    const ring: array<Event>
    var head: nat
    var count: nat
    ghost var history: seq<Event>

    ghost predicate Valid()
      reads this, ring
    {
      && ring.Length > 0 && count <= ring.Length && count <= |history|
      && (count < ring.Length ==> count == |history|)
      && head == |history| % ring.Length
      && forall i :: |history| - count <= i < |history| ==> ring[i % ring.Length] == history[i]
    }

    constructor (capacity: nat)
      ensures Valid() && fresh(ring) && history == [] && ring.Length == if capacity > 0 then capacity else 1
    {
      ring := new Event[if capacity > 0 then capacity else 1](_ => BLANK);
      head, count, history := 0, 0, [];
    }

    method Push(event: Event)
      requires Valid()
      modifies this, ring
      ensures Valid() && history == old(history) + [event]
    {
      forall i | |history| - count <= i < |history| && i > |history| - ring.Length
        ensures i % ring.Length != head
      {
        SlotsDiffer(i, |history|, ring.Length);
      }
      ModOfSum(|history|, 1, ring.Length);
      ring[head] := event;
      head := (head + 1) % ring.Length;
      if count < ring.Length {
        count := count + 1;
      }
      history := history + [event];
    }

    // Where the i-th of the events kept is found.
    lemma SlotHolds(start: nat, i: nat)
      requires Valid() && i < count && start == (head + ring.Length - count) % ring.Length
      ensures ring[(start + i) % ring.Length] == history[|history| - count + i]
    {
      StepBack(|history|, count, ring.Length);
      ModOfSum(|history| - count, i, ring.Length);
    }

    // The last events pushed, oldest first, as many as the ring holds.
    method Snapshot() returns (out: seq<Event>)
      requires Valid()
      ensures |out| == if |history| < ring.Length then |history| else ring.Length
      ensures out == history[|history| - |out|..]
    {
      out := [];
      var start := (head + ring.Length - count) % ring.Length;
      for i := 0 to count
        invariant out == history[|history| - count..|history| - count + i]
      {
        SlotHolds(start, i);
        out := out + [ring[(start + i) % ring.Length]];
      }
    }
  }
}
