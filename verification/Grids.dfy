/** The sampling grids of the observers: multiples of a step, and what the advance loops make of them
    (cpp/research/native_dataset_exporter.cpp:272-283, level_lifecycle.cpp:240-255,
    queue_sensitivity.cpp:129-140). */
module Grids {
  ghost predicate IsMultiple(n: nat, m: nat, step: nat) {
    n == m * step
  }

  ghost predicate OnGrid(n: nat, step: nat) {
    exists m :: IsMultiple(n, m, step)
  }

  lemma GridInstant(local: nat, step: nat)
    requires step > 0
    ensures OnGrid(if local % step == 0 then local else local + (step - local % step), step)
  {
    var q := local / step;
    assert local == q * step + local % step;
    assert IsMultiple(q * step, q, step);
    assert (q + 1) * step == q * step + step;
    assert IsMultiple((q + 1) * step, q + 1, step);
  }

  /** The first grid instant at or after a stamp. */
  function NextInstant(local: nat, step: nat): (n: nat)
    requires step > 0
    ensures local <= n < local + step
  {
    if local % step == 0 then local else local + (step - local % step)
  }

  /** Where a grid stands once it has caught up with a stamp: at its first instant at or after it (or
      strictly after it). */
  ghost function NextFrom(next: nat, local: nat, inclusive: bool, step: nat): (n: nat)
    requires step > 0
    ensures n >= next && n >= local && (inclusive ==> n > local)
    ensures n == next || n < local + step || (inclusive && n == local + step)
    decreases local + 1 - next
  {
    if next < local || (inclusive && next == local) then NextFrom(next + step, local, inclusive, step) else next
  }

  lemma Multiples(a: nat, b: nat, step: nat)
    requires a <= b
    ensures a * step <= b * step
  {
  }

  /** Grid instants lie at least a step apart. */
  lemma GridGap(t: nat, n: nat, step: nat)
    requires step > 0 && OnGrid(t, step) && OnGrid(n, step) && t < n
    ensures t + step <= n
  {
    var a: nat :| IsMultiple(t, a, step);
    var b: nat :| IsMultiple(n, b, step);
    if a < b {
      Multiples(a + 1, b, step);
      assert (a + 1) * step == a * step + step;
    } else {
      Multiples(b, a, step);
    }
  }

  lemma NextOnGrid(n: nat, step: nat)
    requires OnGrid(n, step)
    ensures OnGrid(n + step, step)
  {
    var m: nat :| IsMultiple(n, m, step);
    assert (m + 1) * step == m * step + step;
    assert IsMultiple(n + step, m + 1, step);
  }

  lemma {:induction false} NextFromOnGrid(next: nat, local: nat, inclusive: bool, step: nat)
    requires step > 0 && OnGrid(next, step)
    ensures OnGrid(NextFrom(next, local, inclusive, step), step)
    decreases local + 1 - next
  {
    if next < local || (inclusive && next == local) {
      NextOnGrid(next, step);
      NextFromOnGrid(next + step, local, inclusive, step);
    }
  }

  /** The instants passed on the way. */
  ghost function Instants(next: nat, local: nat, inclusive: bool, step: nat): (ns: seq<nat>)
    requires step > 0
    decreases local + 1 - next
  {
    if next < local || (inclusive && next == local) then [next] + Instants(next + step, local, inclusive, step) else []
  }

  /** They lie one step apart, up to where the grid stands. */
  lemma {:induction false} InstantsAt(next: nat, local: nat, inclusive: bool, step: nat)
    requires step > 0
    ensures var ns := Instants(next, local, inclusive, step);
            && NextFrom(next, local, inclusive, step) == next + |ns| * step
            && forall i | 0 <= i < |ns| :: ns[i] == next + i * step
    decreases local + 1 - next
  {
    if next < local || (inclusive && next == local) {
      InstantsAt(next + step, local, inclusive, step);
      var rest := Instants(next + step, local, inclusive, step);
      assert step + |rest| * step == (1 + |rest|) * step;
      forall i | 0 < i <= |rest| ensures rest[i - 1] == next + i * step {
        assert step + (i - 1) * step == i * step;
      }
    }
  }

  /** And they are exactly the grid instants from `next` up to the stamp. */
  lemma {:induction false} InstantsAreGrid(next: nat, local: nat, inclusive: bool, step: nat, t: nat)
    requires step > 0 && OnGrid(next, step)
    ensures t in Instants(next, local, inclusive, step) <==> OnGrid(t, step) && next <= t && (t < local || (inclusive && t == local))
    decreases local + 1 - next
  {
    if next < local || (inclusive && next == local) {
      NextOnGrid(next, step);
      InstantsAreGrid(next + step, local, inclusive, step, t);
      if OnGrid(t, step) && next < t {
        GridGap(next, t, step);
      }
    }
  }

  ghost predicate Ascending(ns: seq<nat>) {
    forall i, j | 0 <= i < j < |ns| :: ns[i] < ns[j]
  }

  ghost predicate Below(ns: seq<nat>, t: nat) {
    forall i | 0 <= i < |ns| :: ns[i] < t
  }

  /** Everything from index `base` on lies at or after t. */
  ghost predicate From(ns: seq<nat>, base: nat, t: nat) {
    forall k | base <= k < |ns| :: ns[k] >= t
  }

  lemma {:induction false} InstantsAscend(next: nat, local: nat, inclusive: bool, step: nat)
    requires step > 0
    ensures var ns := Instants(next, local, inclusive, step);
            && Ascending(ns) && From(ns, 0, next) && Below(ns, NextFrom(next, local, inclusive, step))
            && Below(ns, local + (if inclusive then 1 else 0))
    decreases local + 1 - next
  {
    if next < local || (inclusive && next == local) {
      InstantsAscend(next + step, local, inclusive, step);
    }
  }

  /** An advance keeps samples in order. */
  lemma AdvanceAscends(was: seq<nat>, next: nat, local: nat, inclusive: bool, step: nat)
    requires step > 0 && Ascending(was) && Below(was, next) && Below(was, local + (if inclusive then 1 else 0))
    ensures var placed := was + Instants(next, local, inclusive, step);
            && Ascending(placed) && From(placed, |was|, next) && Below(placed, NextFrom(next, local, inclusive, step))
            && Below(placed, local + (if inclusive then 1 else 0))
  {
    InstantsAscend(next, local, inclusive, step);
  }

  /** Catching up stops at the first instant beyond the stamp. */
  lemma InstantsReach(next: nat, local: nat, inclusive: bool, step: nat, t: nat)
    requires step > 0 && OnGrid(next, step) && OnGrid(t, step) && next <= t < NextFrom(next, local, inclusive, step)
    ensures t in Instants(next, local, inclusive, step)
  {
    NextFromOnGrid(next, local, inclusive, step);
    GridGap(t, NextFrom(next, local, inclusive, step), step);
    InstantsAreGrid(next, local, inclusive, step, t);
  }

  lemma StandsFirst(next: nat, local: nat, inclusive: bool, step: nat, t: nat)
    requires step > 0 && OnGrid(next, step) && OnGrid(t, step) && t >= local && (inclusive ==> t > local) && t >= next
    ensures t >= NextFrom(next, local, inclusive, step)
  {
    InstantsAreGrid(next, local, inclusive, step, t);
    if next <= t < NextFrom(next, local, inclusive, step) {
      InstantsReach(next, local, inclusive, step, t);
    }
  }

  /** The first instant at or after a stamp is the first one. */
  lemma NextInstantIsFirst(local: nat, step: nat, t: nat)
    requires step > 0 && OnGrid(t, step) && t >= local
    ensures OnGrid(NextInstant(local, step), step) && t >= NextInstant(local, step)
  {
    GridInstant(local, step);
    if t < NextInstant(local, step) {
      GridGap(t, NextInstant(local, step), step);
    }
  }

  /** Nothing an advance adds comes before where the grid stood. */
  lemma FromNext(was: seq<nat>, next: nat, local: nat, inclusive: bool, step: nat)
    requires step > 0
    ensures From(was + Instants(next, local, inclusive, step), |was|, next)
  {
    InstantsAscend(next, local, inclusive, step);
  }

  /** The first grid instant after a stamp. */
  ghost function NextAfter(t: nat, step: nat): (n: nat)
    requires step > 0
    ensures t < n <= t + step
  {
    NextFrom(NextInstant(t, step), t, true, step)
  }

  lemma NextAfterOnGrid(t: nat, step: nat)
    requires step > 0
    ensures OnGrid(NextAfter(t, step), step)
  {
    GridInstant(t, step);
    NextFromOnGrid(NextInstant(t, step), t, true, step);
  }

  lemma OnlyAfter(n: nat, t: nat, step: nat)
    requires step > 0 && OnGrid(n, step) && t < n <= t + step
    ensures n == NextAfter(t, step)
  {
    NextAfterOnGrid(t, step);
    if n < NextAfter(t, step) {
      GridGap(n, NextAfter(t, step), step);
    } else if NextAfter(t, step) < n {
      GridGap(NextAfter(t, step), n, step);
    }
  }

  /** A grid that stood within a step of a stamp, and has caught up with a later one, stands at the first
      instant after that. */
  lemma CaughtUp(next: nat, was: nat, local: nat, step: nat)
    requires step > 0 && OnGrid(next, step) && was <= local && next <= was + step
    ensures NextFrom(NextFrom(next, local, false, step), local, true, step) == NextAfter(local, step)
  {
    NextFromOnGrid(next, local, false, step);
    NextFromOnGrid(NextFrom(next, local, false, step), local, true, step);
    OnlyAfter(NextFrom(NextFrom(next, local, false, step), local, true, step), local, step);
  }

  /** A bid and an ask at every instant. */
  ghost function PairsAt(ns: seq<nat>): (ks: seq<(nat, bool)>)
    ensures |ks| == 2 * |ns| && forall k | 0 <= k < |ns| :: ks[2 * k] == (ns[k], true) && ks[2 * k + 1] == (ns[k], false)
  {
    if ns == [] then [] else PairsAt(ns[..|ns| - 1]) + [(ns[|ns| - 1], true), (ns[|ns| - 1], false)]
  }

  lemma {:induction false} PairsJoin(a: seq<nat>, b: seq<nat>)
    ensures PairsAt(a + b) == PairsAt(a) + PairsAt(b)
  {
    if b == [] {
      assert a + b == a;
    } else {
      var front, last := b[..|b| - 1], b[|b| - 1];
      PairsJoin(a, front);
      assert (a + b)[..|a + b| - 1] == a + front && (a + b)[|a + b| - 1] == last;
      assert PairsAt(a + b) == PairsAt(a) + (PairsAt(front) + [(last, true), (last, false)]);
    }
  }

  lemma PairsHead(n: nat, ns: seq<nat>)
    ensures PairsAt([n] + ns) == [(n, true), (n, false)] + PairsAt(ns)
  {
    PairsJoin([n], ns);
    assert PairsAt([n]) == PairsAt([]) + [(n, true), (n, false)] == [(n, true), (n, false)];
  }

  lemma Regroup<T>(a: seq<T>, b: seq<T>, c: seq<T>)
    ensures a + (b + c) == (a + b) + c
  {
  }
}
