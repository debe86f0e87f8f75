/** The trailing windows of the native dataset (cpp/research/native_dataset_exporter.cpp:195-226, 228-240):
    several running sums over one shared queue of contributions, each with its own head index, the
    queue being trimmed and every index rebased once the widest window has moved on. */
module NativeWindows {

  datatype Contribution = Contribution(ns: nat, values: seq<int>)

  ghost predicate Shaped(f: seq<Contribution>, counters: nat) {
    forall k | 0 <= k < |f| :: |f[k].values| == counters
  }

  ghost predicate InOrder(f: seq<Contribution>) {
    forall j, k | 0 <= j < k < |f| :: f[j].ns <= f[k].ns
  }

  /** Counter i summed from the k-th contribution on. */
  ghost function SumFrom(f: seq<Contribution>, counters: nat, i: nat, k: nat): int
    requires Shaped(f, counters) && i < counters && k <= |f|
    decreases |f| - k
  {
    if k == |f| then 0 else f[k].values[i] + SumFrom(f, counters, i, k + 1)
  }

  /** What a window should hold at a sample: everything ever pushed that is still inside it. */
  ghost function Inside(f: seq<Contribution>, counters: nat, i: nat, width: nat, sample: nat, n: nat): int
    requires Shaped(f, counters) && i < counters && n <= |f|
  {
    if n == 0 then 0
    else Inside(f, counters, i, width, sample, n - 1) + if f[n - 1].ns + width > sample then f[n - 1].values[i] else 0
  }

  ghost predicate Expired(f: seq<Contribution>, width: nat, sample: nat, n: nat) {
    forall k | 0 <= k < n && k < |f| :: f[k].ns + width <= sample
  }

  lemma {:induction false} SumFromAppended(f: seq<Contribution>, x: Contribution, counters: nat, i: nat, k: nat)
    requires Shaped(f, counters) && |x.values| == counters && i < counters && k <= |f|
    ensures Shaped(f + [x], counters) && SumFrom(f + [x], counters, i, k) == SumFrom(f, counters, i, k) + x.values[i]
    decreases |f| - k
  {
    assert Shaped(f + [x], counters);
    if k < |f| {
      SumFromAppended(f, x, counters, i, k + 1);
    } else {
      assert SumFrom(f + [x], counters, i, k + 1) == 0;
    }
  }

  /** In stamp order a window is a suffix: once its head is at the first unexpired contribution, the
      sum from the head on is everything still inside. */
  lemma {:induction false} InsideIsSuffix(f: seq<Contribution>, counters: nat, i: nat, width: nat, sample: nat, head: nat, n: nat)
    requires Shaped(f, counters) && InOrder(f) && i < counters && head <= n <= |f|
    requires Expired(f, width, sample, head) && (head < |f| ==> f[head].ns + width > sample)
    ensures Inside(f, counters, i, width, sample, n) + SumFrom(f, counters, i, n) == SumFrom(f, counters, i, head)
    decreases n
  {
    if n > head {
      InsideIsSuffix(f, counters, i, width, sample, head, n - 1);
    } else {
      NothingInside(f, counters, i, width, sample, n);
    }
  }

  lemma {:induction false} NothingInside(f: seq<Contribution>, counters: nat, i: nat, width: nat, sample: nat, n: nat)
    requires Shaped(f, counters) && i < counters && n <= |f| && Expired(f, width, sample, n)
    ensures Inside(f, counters, i, width, sample, n) == 0
  {
    if n > 0 {
      NothingInside(f, counters, i, width, sample, n - 1);
    }
  }

  function Plus(a: seq<int>, b: seq<int>): (r: seq<int>)
    requires |a| == |b|
    ensures |r| == |a| && forall i | 0 <= i < |a| :: r[i] == a[i] + b[i]
  {
    seq(|a|, i requires 0 <= i < |a| => a[i] + b[i])
  }

  function Minus(a: seq<int>, b: seq<int>): (r: seq<int>)
    requires |a| == |b|
    ensures |r| == |a| && forall i | 0 <= i < |a| :: r[i] == a[i] - b[i]
  {
    seq(|a|, i requires 0 <= i < |a| => a[i] - b[i])
  }

  function Least(heads: seq<nat>, n: nat): (m: nat)
    requires 0 < n <= |heads|
    ensures forall w | 0 <= w < n :: m <= heads[w]
    ensures exists w | 0 <= w < n :: m == heads[w]
  {
    if n == 1 then heads[0] else
      var m := Least(heads, n - 1);
      if heads[n - 1] < m then heads[n - 1] else m
  }

  /** One window: its sum is everything from its head on, and what it left behind has expired. */
  ghost predicate WindowOk(pushed: seq<Contribution>, counters: nat, at: int, sum: seq<int>, width: nat, sample: nat) {
    && Shaped(pushed, counters)
    && 0 <= at <= |pushed| && |sum| == counters
    && (forall i | 0 <= i < counters :: sum[i] == SumFrom(pushed, counters, i, at))
    && Expired(pushed, width, sample, at)
  }

  ghost predicate AllWindows(pushed: seq<Contribution>, counters: nat, cut: nat, heads: seq<nat>, sums: seq<seq<int>>,
                             widths: seq<nat>, sample: nat) {
    && |heads| == |sums| == |widths|
    && forall w {:trigger heads[w]} {:trigger sums[w]} | 0 <= w < |widths| :: WindowOk(pushed, counters, cut + heads[w], sums[w], widths[w], sample)
  }

  /** The head stands at the first contribution still inside the window. */
  ghost predicate Settled(pushed: seq<Contribution>, at: int, width: nat, sample: nat) {
    0 <= at < |pushed| ==> pushed[at].ns + width > sample
  }

  function PlusAll(sums: seq<seq<int>>, values: seq<int>): (r: seq<seq<int>>)
    requires forall w | 0 <= w < |sums| :: |sums[w]| == |values|
    ensures |r| == |sums| && forall w | 0 <= w < |sums| :: r[w] == Plus(sums[w], values)
  {
    seq(|sums|, w requires 0 <= w < |sums| => Plus(sums[w], values))
  }

  lemma PushKeepsWindow(pushed: seq<Contribution>, counters: nat, at: int, sum: seq<int>, width: nat, sample: nat, x: Contribution)
    requires WindowOk(pushed, counters, at, sum, width, sample) && |x.values| == counters
    ensures WindowOk(pushed + [x], counters, at, Plus(sum, x.values), width, sample)
  {
    forall i | 0 <= i < counters ensures Plus(sum, x.values)[i] == SumFrom(pushed + [x], counters, i, at) {
      SumFromAppended(pushed, x, counters, i, at);
    }
  }

  lemma PushKeepsAll(pushed: seq<Contribution>, counters: nat, cut: nat, heads: seq<nat>, sums: seq<seq<int>>,
                     widths: seq<nat>, sample: nat, x: Contribution)
    requires AllWindows(pushed, counters, cut, heads, sums, widths, sample) && |x.values| == counters
    ensures forall w | 0 <= w < |sums| :: |sums[w]| == counters
    ensures AllWindows(pushed + [x], counters, cut, heads, PlusAll(sums, x.values), widths, sample)
  {
    assert forall w | 0 <= w < |sums| :: |sums[w]| == counters;
    forall w | 0 <= w < |widths| ensures WindowOk(pushed + [x], counters, cut + heads[w], PlusAll(sums, x.values)[w], widths[w], sample) {
      PushKeepsWindow(pushed, counters, cut + heads[w], sums[w], widths[w], sample, x);
    }
  }

  /** A window drops the contribution at its head. */
  lemma AdvanceKeepsAll(pushed: seq<Contribution>, counters: nat, cut: nat, heads: seq<nat>, sums: seq<seq<int>>,
                        widths: seq<nat>, sample: nat, w: nat)
    requires AllWindows(pushed, counters, cut, heads, sums, widths, sample) && w < |widths|
    requires cut + heads[w] < |pushed| && pushed[cut + heads[w]].ns + widths[w] <= sample
    ensures |sums[w]| == |pushed[cut + heads[w]].values|
    ensures AllWindows(pushed, counters, cut, heads[w := heads[w] + 1], sums[w := Minus(sums[w], pushed[cut + heads[w]].values)], widths, sample)
  {
  }

  lemma LaterSampleKeepsAll(pushed: seq<Contribution>, counters: nat, cut: nat, heads: seq<nat>, sums: seq<seq<int>>,
                            widths: seq<nat>, was: nat, sample: nat)
    requires AllWindows(pushed, counters, cut, heads, sums, widths, was) && was <= sample
    ensures AllWindows(pushed, counters, cut, heads, sums, widths, sample)
  {
  }

  /** In stamp order a settled window holds exactly what is still inside it. */
  lemma SettledIsExact(pushed: seq<Contribution>, counters: nat, at: int, sum: seq<int>, width: nat, sample: nat)
    requires WindowOk(pushed, counters, at, sum, width, sample) && Settled(pushed, at, width, sample) && InOrder(pushed)
    ensures forall i | 0 <= i < counters :: sum[i] == Inside(pushed, counters, i, width, sample, |pushed|)
  {
    forall i | 0 <= i < counters ensures sum[i] == Inside(pushed, counters, i, width, sample, |pushed|) {
      InsideIsSuffix(pushed, counters, i, width, sample, at, |pushed|);
    }
  }

  lemma SettledAreExact(pushed: seq<Contribution>, counters: nat, cut: nat, heads: seq<nat>, sums: seq<seq<int>>,
                        widths: seq<nat>, sample: nat)
    requires AllWindows(pushed, counters, cut, heads, sums, widths, sample) && InOrder(pushed)
    requires forall w | 0 <= w < |widths| :: Settled(pushed, cut + heads[w], widths[w], sample)
    requires Shaped(pushed, counters)
    ensures forall w, i | 0 <= w < |widths| && 0 <= i < counters ::
              sums[w][i] == Inside(pushed, counters, i, widths[w], sample, |pushed|)
  {
    forall w | 0 <= w < |widths|
      ensures forall i | 0 <= i < counters :: sums[w][i] == Inside(pushed, counters, i, widths[w], sample, |pushed|)
    {
      SettledIsExact(pushed, counters, cut + heads[w], sums[w], widths[w], sample);
    }
  }

  function Rebased(heads: seq<nat>, base: nat): (r: seq<nat>)
    requires forall w | 0 <= w < |heads| :: base <= heads[w]
    ensures |r| == |heads| && forall w | 0 <= w < |heads| :: r[w] == heads[w] - base
  {
    seq(|heads|, w requires 0 <= w < |heads| => heads[w] - base)
  }

  class WindowedFlow {
    const widths: seq<nat>
    const counters: nat
    var flow: seq<Contribution>
    var sums: seq<seq<int>>
    var heads: seq<nat>
    /** Everything pushed since the segment opened, how much of it the queue has forgotten, and the last
        sample the windows were pruned to. */
    ghost var pushed: seq<Contribution>
    ghost var cut: nat
    ghost var lastSample: nat

    ghost predicate Valid()
      reads this
    {
      && |widths| > 0 && Shaped(pushed, counters)
      && cut <= |pushed| && flow == pushed[cut..]
      && AllWindows(pushed, counters, cut, heads, sums, widths, lastSample)
    }

    constructor (widths: seq<nat>, counters: nat)
      requires |widths| > 0
      ensures Valid() && this.widths == widths && this.counters == counters && pushed == [] && lastSample == 0
    {
      this.widths, this.counters := widths, counters;
      flow, pushed, cut, lastSample := [], [], 0, 0;
      heads := seq(|widths|, _ => 0);
      sums := seq(|widths|, _ => seq(counters, _ => 0));
    }

    /** open_segment and close_segment forget everything. */
    method Clear()
      requires Valid()
      modifies this
      ensures Valid() && pushed == [] && flow == []
    {
      flow, pushed, cut, lastSample := [], [], 0, 0;
      heads := seq(|widths|, _ => 0);
      sums := seq(|widths|, _ => seq(counters, _ => 0));
    }

    /** push_contribution: every window takes it. */
    method Push(x: Contribution)
      requires Valid() && |x.values| == counters
      modifies this
      ensures Valid() && pushed == old(pushed) + [x] && lastSample == old(lastSample)
    {
      PushKeepsAll(pushed, counters, cut, heads, sums, widths, lastSample, x);
      var w := 0;
      while w < |sums|
        modifies `sums
        invariant 0 <= w <= |sums| == |widths|
        invariant forall v | 0 <= v < |sums| :: sums[v] == if v < w then Plus(old(sums)[v], x.values) else old(sums)[v]
      {
        sums := sums[w := Plus(sums[w], x.values)];
        w := w + 1;
      }
      assert sums == PlusAll(old(sums), x.values);
      flow := flow + [x];
      pushed := pushed + [x];
    }

    method Advance(w: nat)
      requires Valid() && w < |widths| && heads[w] < |flow| && flow[heads[w]].ns + widths[w] <= lastSample
      modifies `sums, `heads
      ensures Valid() && heads == old(heads)[w := old(heads)[w] + 1]
    {
      AdvanceKeepsAll(pushed, counters, cut, heads, sums, widths, lastSample, w);
      sums := sums[w := Minus(sums[w], flow[heads[w]].values)];
      heads := heads[w := heads[w] + 1];
    }

    /** One window drops what has left it. */
    method PruneOne(w: nat, sample: nat)
      requires Valid() && w < |widths| && sample == lastSample
      modifies `sums, `heads
      ensures Valid() && Settled(pushed, cut + heads[w], widths[w], lastSample)
      ensures forall v | 0 <= v < |widths| && v != w :: heads[v] == old(heads)[v]
    {
      while heads[w] < |flow| && flow[heads[w]].ns + widths[w] <= sample
        invariant Valid()
        invariant forall v | 0 <= v < |widths| && v != w :: heads[v] == old(heads)[v]
        decreases |flow| - heads[w]
      {
        Advance(w);
      }
    }

    /** The widest window bounds what is still referenced: drop the rest and rebase every head. */
    method EraseConsumed()
      requires Valid()
      modifies `flow, `heads, `cut
      ensures Valid() && (exists w :: 0 <= w < |heads| && heads[w] == 0)
      ensures forall w | 0 <= w < |widths| :: cut + heads[w] == old(cut) + old(heads)[w]
    {
      var widest := Least(heads, |heads|);
      assert cut + heads[0] <= |pushed|;
      if widest > 0 {
        flow := flow[widest..];
        cut := cut + widest;
        heads := Rebased(heads, widest);
      }
    }

    /** prune_windows: in stamp order every running sum is exactly what is still inside its window. */
    method Prune(sample: nat)
      requires Valid() && sample >= lastSample
      modifies this
      ensures Valid() && pushed == old(pushed) && lastSample == sample
      ensures InOrder(pushed) ==> forall w, i | 0 <= w < |widths| && 0 <= i < counters ::
                sums[w][i] == Inside(pushed, counters, i, widths[w], sample, |pushed|)
      ensures exists w :: 0 <= w < |heads| && heads[w] == 0
    {
      LaterSampleKeepsAll(pushed, counters, cut, heads, sums, widths, lastSample, sample);
      lastSample := sample;
      var w := 0;
      while w < |widths|
        invariant 0 <= w <= |widths| && Valid() && lastSample == sample && pushed == old(pushed)
        invariant forall v | 0 <= v < w :: Settled(pushed, cut + heads[v], widths[v], sample)
      {
        PruneOne(w, sample);
        w := w + 1;
      }
      EraseConsumed();
      if InOrder(pushed) {
        SettledAreExact(pushed, counters, cut, heads, sums, widths, sample);
      }
    }
  }
}
