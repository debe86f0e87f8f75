/** How large a fill the inventory limits bear (pyresearch/obi/continuous_mm.py:64-128, 161-239). Nothing
    checks the size of a fill; this is the exact bound on it under which no schedule violates a limit. */
module MarketLimits {
  import opened Wrappers
  import opened MarketMaker
  import opened MarketDay

  /** Fills of at most q fit above every inventory at which a quote is permitted, are all ignored, or are
      never reached because no quote is ever permitted. */
  predicate Harmless(q: real, spec: Spec) {
    || q <= spec.qty || q <= spec.hard + 2.0 * spec.tol - spec.soft
    || q <= spec.tol || spec.soft <= spec.tol || spec.hard + spec.tol < spec.qty
  }

  /** No schedule with fills of at most q violates a limit, under any policy and any selector. */
  ghost predicate NeverViolates(q: real, spec: Spec, s0: State) {
    forall rows: seq<Row>, c: Config {:trigger Final(s0, rows, c)} |
      c.spec == spec && Faultless(s0, rows, |rows|, c) && Sized(rows, q, |rows|) :: Final(s0, rows, c).violations == 0
  }

  lemma HarmlessFits(q: real, spec: Spec) returns (limit: real)
    requires spec.Sane() && Harmless(q, spec)
    ensures Admits(limit, q, spec) && limit <= spec.hard + spec.tol
  {
    limit := if spec.soft <= spec.tol || spec.hard + spec.tol < spec.qty then 0.0 else spec.hard + spec.tol;
  }

  /** The schedule that passes the hard limit: n times a bid filled with q and an ask filled with d less,
      and one bid more. */
  function Row(i: nat, q: real, d: real, spec: Spec): MarketMaker.Row {
    MarketMaker.Row(i, if i % 2 == 0 then Bid else Ask, spec.qty, 1.0, i, None, Full, Some(i), Some(i),
                    if i % 2 == 0 then q else q - d, true)
  }

  function Schedule(n: nat, q: real, d: real, spec: Spec): (rows: seq<MarketMaker.Row>)
    ensures |rows| == 2 * n + 1 && forall i | 0 <= i < |rows| :: rows[i] == Row(i, q, d, spec)
  {
    seq(2 * n + 1, i requires 0 <= i < 2 * n + 1 => Row(i, q, d, spec))
  }

  /** n steps of d. */
  function Up(n: nat, d: real): real {
    if n == 0 then 0.0 else Up(n - 1, d) + d
  }

  /** The inventory before the i-th row. */
  function Climb(i: nat, q: real, d: real): real {
    Up(i / 2, d) + if i % 2 == 0 then 0.0 else q
  }

  lemma {:induction false} UpGrows(j: nat, n: nat, d: real)
    requires j <= n && d >= 0.0
    ensures 0.0 <= Up(j, d) <= Up(n, d)
    decreases n
  {
    if j < n {
      UpGrows(j, n - 1, d);
    } else if n > 0 {
      UpGrows(n - 1, n - 1, d);
    }
  }

  lemma {:induction false} UpIsProduct(n: nat, d: real)
    ensures Up(n, d) == n as real * d
  {
    if n > 0 {
      UpIsProduct(n - 1, d);
    }
  }

  /** Enough steps pass any height, by at most one step. */
  lemma Steps(l: real, d: real) returns (n: nat)
    requires l >= 0.0 && d > 0.0
    ensures l < Up(n, d) <= l + d
  {
    var x := l / d;
    assert x * d == l;
    n := x.Floor + 1;
    assert n as real - 1.0 <= x < n as real;
    Times(x, n as real, d);
    Times(n as real - 1.0, x, d);
    UpIsProduct(n, d);
  }

  lemma Times(x: real, y: real, d: real)
    requires d > 0.0
    ensures (x <= y ==> x * d <= y * d) && (x < y ==> x * d < y * d)
    ensures (y - 1.0) * d == y * d - d
  {
  }

  lemma {:induction false} AllUpTo(fs: seq<Fill>, t: int, n: nat)
    requires n <= |fs| && forall k | 0 <= k < n :: fs[k].time <= t
    ensures NetUpTo(fs, t, n) == Net(fs, n)
  {
    if n > 0 {
      AllUpTo(fs, t, n - 1);
    }
  }

  /** Everything the climb needs of its numbers. */
  ghost predicate Climbable(n: nat, q: real, d: real, spec: Spec) {
    && spec.Sane() && q > spec.qty && q > spec.tol && 0.0 <= d && q - d > spec.tol && spec.soft > spec.tol
    && Up(n, d) + spec.qty <= spec.hard + spec.tol && Up(n, d) < spec.soft - spec.tol
  }

  lemma RoomToClimb(n: nat, i: nat, q: real, d: real, spec: Spec)
    requires Climbable(n, q, d, spec) && i <= 2 * n
    ensures Room(if i % 2 == 0 then Bid else Ask, Climb(i, q, d), spec)
    ensures Climb(i + 1, q, d) == Climb(i, q, d) + if i % 2 == 0 then q else -(q - d)
  {
    UpGrows(i / 2, n, d);
    RoomAt(Up(i / 2, d), Up(n, d), q, spec);
    assert i % 2 == 1 ==> (i + 1) / 2 == i / 2 + 1;
  }

  lemma RoomAt(x: real, top: real, q: real, spec: Spec)
    requires 0.0 <= x <= top && spec.Sane() && q > spec.qty && spec.soft > spec.tol
    requires top + spec.qty <= spec.hard + spec.tol && top < spec.soft - spec.tol
    ensures Room(Bid, x, spec) && Room(Ask, x + q, spec)
  {
  }

  /** What the first i rows of the schedule come to. */
  ghost predicate Climbed(s0: State, rows: seq<MarketMaker.Row>, i: nat, q: real, d: real, c: Config)
    requires i <= |rows|
  {
    var s, accepted := After(s0, rows, i, c), Accepted(s0, rows, i, c);
    && Faultless(s0, rows, i, c) && s.bidEnd < i && s.askEnd < i
    && |accepted| == i && (forall k | 0 <= k < i :: accepted[k].time <= i) && Net(accepted, i) == Climb(i, q, d)
  }

  lemma {:induction false} ScheduleRuns(s0: State, n: nat, i: nat, q: real, d: real, c: Config)
    requires Fresh(s0) && Climbable(n, q, d, c.spec) && c.policy == Neutral && !c.selector && i <= 2 * n + 1
    ensures Climbed(s0, Schedule(n, q, d, c.spec), i, q, d, c)
  {
    var rows := Schedule(n, q, d, c.spec);
    if i == 0 {
      assert After(s0, rows, 0, c) == s0 && Accepted(s0, rows, 0, c) == [];
    } else {
      ScheduleRuns(s0, n, i - 1, q, d, c);
      ClimbOn(s0, n, i - 1, q, d, c);
    }
  }

  lemma ClimbOn(s0: State, n: nat, i: nat, q: real, d: real, c: Config)
    requires Fresh(s0) && Climbable(n, q, d, c.spec) && c.policy == Neutral && !c.selector && i < 2 * n + 1
    requires Climbed(s0, Schedule(n, q, d, c.spec), i, q, d, c)
    ensures Climbed(s0, Schedule(n, q, d, c.spec), i + 1, q, d, c)
  {
    var rows := Schedule(n, q, d, c.spec);
    var accepted, seen := Accepted(s0, rows, i, c), Seen(s0, rows, i, c);
    ClimbSees(s0, n, i, q, d, c);
    RoomToClimb(n, i, q, d, c.spec);
    RowIsTried(seen, i, q, d, c);
    HandledEnds(seen, rows[i], c);
    var e := Fill(i, |accepted| + 1, rows[i].side, rows[i].filledQty, 1.0, true);
    assert Accepted(s0, rows, i + 1, c) == accepted + [e];
    NetPrefix(accepted, [e], 0, i);
  }

  lemma ClimbSees(s0: State, n: nat, i: nat, q: real, d: real, c: Config)
    requires Fresh(s0) && Climbable(n, q, d, c.spec) && i < 2 * n + 1
    requires Climbed(s0, Schedule(n, q, d, c.spec), i, q, d, c)
    ensures var seen := Seen(s0, Schedule(n, q, d, c.spec), i, c);
            seen.inventory == Climb(i, q, d) && seen.bidEnd < i && seen.askEnd < i
  {
    var rows := Schedule(n, q, d, c.spec);
    DecisionSees(s0, rows, i, c);
    AllUpTo(Accepted(s0, rows, i, c), i, i);
    SeenEnds(s0, rows, i, c);
  }

  lemma RowIsTried(s: State, i: nat, q: real, d: real, c: Config)
    requires c.policy == Neutral && !c.selector && c.spec.Sane() && s.bidEnd < i && s.askEnd < i && q > c.spec.tol && q - d > c.spec.tol
    requires Room(if i % 2 == 0 then Bid else Ask, s.inventory, c.spec)
    ensures var row := Row(i, q, d, c.spec);
            && FateOf(row, s.End(row.side), s.inventory, c) == Tried && !Fault(row, s.End(row.side), s.inventory, c)
            && forall k: nat :: FillsOf(row, Tried, k, c.spec.tol) == [Fill(i, k, row.side, row.filledQty, 1.0, true)]
  {
  }

  /** A larger fill than that breaks the hard limit on some schedule whose fills are at most q. */
  lemma HarmfulViolates(q: real, spec: Spec, s0: State) returns (rows: seq<MarketMaker.Row>, c: Config)
    requires spec.Sane() && Fresh(s0) && !Harmless(q, spec)
    ensures c.spec == spec && Sorted(rows) && Faultless(s0, rows, |rows|, c) && Sized(rows, q, |rows|)
    ensures Final(s0, rows, c).violations > 0
  {
    c := Config(Neutral, false, false, spec);
    var n, d := Climbs(q, spec);
    rows := Schedule(n, q, d, spec);
    ClimbViolates(s0, n, q, d, c);
  }

  lemma ClimbViolates(s0: State, n: nat, q: real, d: real, c: Config)
    requires Fresh(s0) && Climbable(n, q, d, c.spec) && c.policy == Neutral && !c.selector
    requires Up(n, d) + q > c.spec.hard + c.spec.tol
    ensures var rows := Schedule(n, q, d, c.spec); Faultless(s0, rows, |rows|, c) && Final(s0, rows, c).violations > 0
  {
    var rows := Schedule(n, q, d, c.spec);
    ScheduleRuns(s0, n, 2 * n + 1, q, d, c);
    DayKeeps(s0, rows, c);
    ClimbTop(n, q, d);
    TooHigh(Final(s0, rows, c), Climb(2 * n + 1, q, d), c.spec);
  }

  lemma ClimbTop(n: nat, q: real, d: real)
    ensures Climb(2 * n + 1, q, d) == Up(n, d) + q
  {
    assert (2 * n + 1) / 2 == n && (2 * n + 1) % 2 == 1;
  }

  lemma TooHigh(s: State, x: real, spec: Spec)
    requires Marked(s, spec) && s.inventory == x > spec.hard + spec.tol && spec.Sane()
    ensures s.violations > 0
  {
  }

  /** The numbers of a climb that ends above the hard limit. */
  lemma Climbs(q: real, spec: Spec) returns (n: nat, d: real)
    requires spec.Sane() && !Harmless(q, spec)
    ensures Climbable(n, q, d, spec) && Up(n, d) + q > spec.hard + spec.tol
  {
    var l := spec.hard + spec.tol - q;
    if l < 0.0 {
      n, d := 0, 0.0;
      assert Up(n, d) == 0.0;
    } else {
      var top := if spec.hard + spec.tol - spec.qty < spec.soft - spec.tol then spec.hard + spec.tol - spec.qty else spec.soft - spec.tol;
      d := if (q - spec.tol) / 2.0 < (top - l) / 2.0 then (q - spec.tol) / 2.0 else (top - l) / 2.0;
      n := Steps(l, d);
    }
  }

  /** Exactly how large a fill may be: no schedule with fills of at most q violates the limits if and only if
      q is at most the quoted size, or at most what the hard limit leaves above the soft one, or so small
      that it is ignored, or the limits permit no quote at all. */
  lemma FillBoundIsExact(q: real, spec: Spec, s0: State)
    requires spec.Sane() && Fresh(s0)
    ensures NeverViolates(q, spec, s0) <==> Harmless(q, spec)
  {
    if Harmless(q, spec) {
      var limit := HarmlessFits(q, spec);
      forall rows: seq<MarketMaker.Row>, c: Config | c.spec == spec && Faultless(s0, rows, |rows|, c) && Sized(rows, q, |rows|)
        ensures Final(s0, rows, c).violations == 0
      {
        DayStaysInside(s0, rows, c, limit, q);
        DayKeeps(s0, rows, c);
      }
    } else {
      var rows, c := HarmfulViolates(q, spec, s0);
    }
  }

  /** Such a schedule through the simulator. */
  method Overfill(n: nat, q: real, d: real, spec: Spec) returns (r: Result<Day>)
    requires Climbable(n, q, d, spec) && Up(n, d) + q > spec.hard + spec.tol
    ensures r.Ok? && r.value.state.violations > 0
  {
    var c := Config(Neutral, false, false, spec);
    ghost var s0;
    r, s0 := Simulate(Schedule(n, q, d, spec), 1.0, 1.0, c);
    ClimbViolates(s0, n, q, d, c);
  }

  /** One and a half times the quoted size is enough: quotes of 1 under limits of 2 and 3. */
  lemma SlightlyOversized(spec: Spec)
    requires spec.qty == 1.0 && spec.soft == 2.0 && spec.hard == 3.0 && spec.tol == 0.0
    ensures Climbable(7, 1.5, 0.25, spec) && Up(7, 0.25) + 1.5 > spec.hard + spec.tol && !Harmless(1.5, spec)
  {
    UpIsProduct(7, 0.25);
  }
}
