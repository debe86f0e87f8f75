/** A whole day of the market maker (pyresearch/obi/continuous_mm.py:131-269): the loop over the schedule,
    the last fills and the day-end liquidation. */
module MarketDay {
  import opened Wrappers
  import opened MarketMaker
  import opened MarketBooks

  /** What a finished day reports. */
  datatype Day = Day(state: State, inventory: real, gross: real, net: real)

  ghost predicate Sorted(rows: seq<Row>) {
    forall i, j {:trigger rows[i].placement, rows[j].placement} | 0 <= i < j < |rows| :: rows[i].placement <= rows[j].placement
  }

  ghost predicate Sized(rows: seq<Row>, q: real, n: nat)
    requires n <= |rows|
  {
    forall i {:trigger rows[i].filledQty} | 0 <= i < n :: rows[i].filledQty <= q
  }

  /** The state after the first n rows, were no row to stop the run. */
  ghost function After(s0: State, rows: seq<Row>, n: nat, c: Config): State
    requires n <= |rows|
    decreases n, 0
  {
    if n == 0 then s0 else Handled(Seen(s0, rows, n - 1, c), rows[n - 1], c)
  }

  /** The state the i-th row is decided on. */
  ghost function Seen(s0: State, rows: seq<Row>, i: nat, c: Config): State
    requires i < |rows|
    decreases i, 1
  {
    Drained(After(s0, rows, i, c), rows[i].placement, c.spec)
  }

  ghost function FateAt(s0: State, rows: seq<Row>, i: nat, c: Config): Fate
    requires i < |rows|
  {
    var d := Seen(s0, rows, i, c);
    FateOf(rows[i], d.End(rows[i].side), d.inventory, c)
  }

  ghost predicate FaultAt(s0: State, rows: seq<Row>, i: nat, c: Config)
    requires i < |rows|
  {
    var d := Seen(s0, rows, i, c);
    Fault(rows[i], d.End(rows[i].side), d.inventory, c)
  }

  ghost predicate Faultless(s0: State, rows: seq<Row>, n: nat, c: Config)
    requires n <= |rows|
  {
    forall i {:trigger FaultAt(s0, rows, i, c)} | 0 <= i < n :: !FaultAt(s0, rows, i, c)
  }

  /** The fills of the first n rows: one for each row tried whose quantity is above tolerance, in order. */
  ghost function Accepted(s0: State, rows: seq<Row>, n: nat, c: Config): seq<Fill>
    requires n <= |rows|
  {
    if n == 0 then []
    else
      var before := Accepted(s0, rows, n - 1, c);
      before + FillsOf(rows[n - 1], FateAt(s0, rows, n - 1, c), |before| + 1, c.spec.tol)
  }

  /** How many of the first n rows met a fate. */
  ghost function CountOf(s0: State, rows: seq<Row>, n: nat, c: Config, f: Fate): nat
    requires n <= |rows|
  {
    if n == 0 then 0 else CountOf(s0, rows, n - 1, c, f) + if FateAt(s0, rows, n - 1, c) == f then 1 else 0
  }

  /** Each counter counts the rows of its fate. */
  ghost predicate Tallied(s: State, s0: State, rows: seq<Row>, n: nat, c: Config)
    requires n <= |rows|
  {
    && s.conflicts == CountOf(s0, rows, n, c, Conflict) && s.invalid == CountOf(s0, rows, n, c, Unusable)
    && s.byInventory == CountOf(s0, rows, n, c, OverLimit) && s.byObi == CountOf(s0, rows, n, c, Toxic)
    && s.bySelector == CountOf(s0, rows, n, c, NotSelected) && s.attempts == CountOf(s0, rows, n, c, Tried)
  }

  /** Every row has exactly one fate. */
  lemma {:induction false} FatesCover(s0: State, rows: seq<Row>, n: nat, c: Config)
    requires n <= |rows|
    ensures CountOf(s0, rows, n, c, Conflict) + CountOf(s0, rows, n, c, Unusable) + CountOf(s0, rows, n, c, OverLimit)
            + CountOf(s0, rows, n, c, Toxic) + CountOf(s0, rows, n, c, NotSelected) + CountOf(s0, rows, n, c, Tried) == n
  {
    if n > 0 {
      FatesCover(s0, rows, n - 1, c);
    }
  }

  /** The ledger on every run: the inventory and cash not yet delivered are those of the accepted fills. */
  lemma {:induction false} RunKeeps(s0: State, rows: seq<Row>, n: nat, c: Config)
    requires n <= |rows| && c.spec.Sane() && Fresh(s0) && Faultless(s0, rows, n, c)
    ensures Kept(After(s0, rows, n, c), Accepted(s0, rows, n, c)) && Marked(After(s0, rows, n, c), c.spec)
  {
    if n == 0 {
      StartKeeps(s0, rows, c);
    } else {
      RunKeeps(s0, rows, n - 1, c);
      assert !FaultAt(s0, rows, n - 1, c);
      StepKeeps(s0, rows, n - 1, c);
    }
  }

  lemma StartKeeps(s0: State, rows: seq<Row>, c: Config)
    requires c.spec.Sane() && Fresh(s0)
    ensures Kept(After(s0, rows, 0, c), Accepted(s0, rows, 0, c)) && Marked(After(s0, rows, 0, c), c.spec)
  {
    var s, accepted := After(s0, rows, 0, c), Accepted(s0, rows, 0, c);
    assert s == s0 && accepted == [];
    FreshKept(s);
    FreshMarked(s, c.spec);
  }

  lemma StepKeeps(s0: State, rows: seq<Row>, i: nat, c: Config)
    requires i < |rows| && c.spec.Sane() && !FaultAt(s0, rows, i, c)
    requires Kept(After(s0, rows, i, c), Accepted(s0, rows, i, c)) && Marked(After(s0, rows, i, c), c.spec)
    ensures Kept(After(s0, rows, i + 1, c), Accepted(s0, rows, i + 1, c)) && Marked(After(s0, rows, i + 1, c), c.spec)
  {
    DrainKeeps(After(s0, rows, i, c), rows[i].placement, c.spec, Accepted(s0, rows, i, c), 0.0);
    HandledKeeps(Seen(s0, rows, i, c), rows[i], c, Accepted(s0, rows, i, c), 0.0, 0.0);
  }

  /** A limit that admits every fill is kept on every run. */
  lemma {:induction false} RunStaysInside(s0: State, rows: seq<Row>, n: nat, c: Config, limit: real, q: real)
    requires n <= |rows| && c.spec.Sane() && Fresh(s0) && Faultless(s0, rows, n, c)
    requires Admits(limit, q, c.spec) && Sized(rows, q, n)
    ensures Safe(After(s0, rows, n, c), limit)
  {
    if n == 0 {
      FreshSafe(s0, limit);
    } else {
      RunStaysInside(s0, rows, n - 1, c, limit, q);
      RunKeeps(s0, rows, n - 1, c);
      DrainKeeps(After(s0, rows, n - 1, c), rows[n - 1].placement, c.spec, Accepted(s0, rows, n - 1, c), limit);
      assert !FaultAt(s0, rows, n - 1, c) && rows[n - 1].filledQty <= q;
      HandledKeeps(Seen(s0, rows, n - 1, c), rows[n - 1], c, Accepted(s0, rows, n - 1, c), limit, q);
    }
  }

  lemma {:induction false} RunTallies(s0: State, rows: seq<Row>, n: nat, c: Config)
    requires n <= |rows| && c.spec.Sane() && Fresh(s0) && Faultless(s0, rows, n, c)
    ensures Tallied(After(s0, rows, n, c), s0, rows, n, c)
  {
    if n > 0 {
      RunTallies(s0, rows, n - 1, c);
      RunKeeps(s0, rows, n - 1, c);
      DrainKeeps(After(s0, rows, n - 1, c), rows[n - 1].placement, c.spec, Accepted(s0, rows, n - 1, c), 0.0);
      assert !FaultAt(s0, rows, n - 1, c);
      HandledCounts(Seen(s0, rows, n - 1, c), rows[n - 1], c);
    }
  }

  lemma HandledCounts(s: State, row: Row, c: Config)
    requires !Fault(row, s.End(row.side), s.inventory, c)
    ensures var n, f := Handled(s, row, c), FateOf(row, s.End(row.side), s.inventory, c);
            && n.conflicts == s.conflicts + (if f == Conflict then 1 else 0)
            && n.invalid == s.invalid + (if f == Unusable then 1 else 0)
            && n.byInventory == s.byInventory + (if f == OverLimit then 1 else 0)
            && n.byObi == s.byObi + (if f == Toxic then 1 else 0)
            && n.bySelector == s.bySelector + (if f == NotSelected then 1 else 0)
            && n.attempts == s.attempts + (if f == Tried then 1 else 0)
  {
  }

  /** In placement order the queue holds exactly the accepted fills after the last placement. */
  lemma {:induction false} RunOnTime(s0: State, rows: seq<Row>, n: nat, c: Config, clock: int)
    requires n <= |rows| && c.spec.Sane() && Fresh(s0) && Faultless(s0, rows, n, c) && Sorted(rows)
    requires if n == 0 then true else clock == rows[n - 1].placement
    ensures OnTime(After(s0, rows, n, c), Accepted(s0, rows, n, c), clock)
  {
    if n == 0 {
      FreshOnTime(s0, clock);
    } else {
      var before := if n == 1 then clock else rows[n - 2].placement;
      RunOnTime(s0, rows, n - 1, c, before);
      RunKeeps(s0, rows, n - 1, c);
      var s, accepted := After(s0, rows, n - 1, c), Accepted(s0, rows, n - 1, c);
      DrainOnTime(s, clock, c.spec, accepted, before);
      DrainKeeps(s, clock, c.spec, accepted, 0.0);
      HandledOnTime(Seen(s0, rows, n - 1, c), rows[n - 1], c, accepted, clock);
    }
  }

  /** The inventory a decision looks at is exactly what earlier orders have been filled by its placement. */
  lemma DecisionSees(s0: State, rows: seq<Row>, i: nat, c: Config)
    requires i < |rows| && c.spec.Sane() && Fresh(s0) && Faultless(s0, rows, i, c) && Sorted(rows)
    ensures Seen(s0, rows, i, c).inventory == NetUpTo(Accepted(s0, rows, i, c), rows[i].placement, |Accepted(s0, rows, i, c)|)
  {
    var t := rows[i].placement;
    var before := if i == 0 then t else rows[i - 1].placement;
    RunOnTime(s0, rows, i, c, before);
    RunKeeps(s0, rows, i, c);
    DrainOnTime(After(s0, rows, i, c), t, c.spec, Accepted(s0, rows, i, c), before);
    DrainKeeps(After(s0, rows, i, c), t, c.spec, Accepted(s0, rows, i, c), 0.0);
    DecisionInventory(Seen(s0, rows, i, c), Accepted(s0, rows, i, c), t);
  }

  /** The same day without a heap: the orders so far and when each side is free again. */
  datatype Plan = Plan(fills: seq<Fill>, bidEnd: int, askEnd: int) {
    function End(side: Side): int { if side == Bid then bidEnd else askEnd }
    ghost function Inventory(t: int): real { NetUpTo(fills, t, |fills|) }
  }

  ghost function PlanAt(rows: seq<Row>, n: nat, c: Config): Plan
    requires n <= |rows|
  {
    if n == 0 then Plan([], -1, -1)
    else PlanAfter(PlanAt(rows, n - 1, c), rows[n - 1], c)
  }

  ghost function PlanAfter(p: Plan, row: Row, c: Config): Plan {
    var fate := FateOf(row, p.End(row.side), p.Inventory(row.placement), c);
    Plan(p.fills + FillsOf(row, fate, |p.fills| + 1, c.spec.tol), EndAfter(row, fate, Bid, p.bidEnd), EndAfter(row, fate, Ask, p.askEnd))
  }

  /** In placement order the heap changes nothing: every row meets the fate, and every order brings the
      fill, that the orders before it and their fill stamps alone determine. */
  lemma {:induction false} RunIsPlan(s0: State, rows: seq<Row>, n: nat, c: Config)
    requires n <= |rows| && c.spec.Sane() && Fresh(s0) && Faultless(s0, rows, n, c) && Sorted(rows)
    ensures Matches(After(s0, rows, n, c), Accepted(s0, rows, n, c), PlanAt(rows, n, c))
  {
    if n > 0 {
      RunIsPlan(s0, rows, n - 1, c);
      DecisionSees(s0, rows, n - 1, c);
      SeenEnds(s0, rows, n - 1, c);
      PlanStep(Seen(s0, rows, n - 1, c), Accepted(s0, rows, n - 1, c), PlanAt(rows, n - 1, c), rows[n - 1], c);
    }
  }

  ghost predicate Matches(s: State, accepted: seq<Fill>, p: Plan) {
    p.fills == accepted && p.bidEnd == s.bidEnd && p.askEnd == s.askEnd
  }

  lemma PlanStep(d: State, accepted: seq<Fill>, p: Plan, row: Row, c: Config)
    requires Matches(d, accepted, p) && d.inventory == p.Inventory(row.placement)
    ensures var fate := FateOf(row, d.End(row.side), d.inventory, c);
            Matches(Handled(d, row, c), accepted + FillsOf(row, fate, |accepted| + 1, c.spec.tol), PlanAfter(p, row, c))
  {
    HandledEnds(d, row, c);
  }

  lemma SeenEnds(s0: State, rows: seq<Row>, i: nat, c: Config)
    requires i < |rows| && c.spec.Sane() && Fresh(s0) && Faultless(s0, rows, i, c)
    ensures var d, s := Seen(s0, rows, i, c), After(s0, rows, i, c); d.bidEnd == s.bidEnd && d.askEnd == s.askEnd
  {
    RunKeeps(s0, rows, i, c);
    DrainKeeps(After(s0, rows, i, c), rows[i].placement, c.spec, Accepted(s0, rows, i, c), 0.0);
  }

  /** So the same plan alone tells which row stops the run. */
  lemma FaultIsPlanned(s0: State, rows: seq<Row>, i: nat, c: Config)
    requires i < |rows| && c.spec.Sane() && Fresh(s0) && Faultless(s0, rows, i, c) && Sorted(rows)
    ensures var p, row := PlanAt(rows, i, c), rows[i];
            FaultAt(s0, rows, i, c) <==> Fault(row, p.End(row.side), p.Inventory(row.placement), c)
  {
    RunIsPlan(s0, rows, i, c);
    DecisionSees(s0, rows, i, c);
    SeenEnds(s0, rows, i, c);
  }

  lemma HandledEnds(s: State, row: Row, c: Config)
    ensures var n, f := Handled(s, row, c), FateOf(row, s.End(row.side), s.inventory, c);
            n.bidEnd == EndAfter(row, f, Bid, s.bidEnd) && n.askEnd == EndAfter(row, f, Ask, s.askEnd)
  {
  }

  method Begin() returns (s: State)
    ensures Fresh(s)
  {
    s := State(0.0, 0.0, 0.0, 0.0, 0.0, 0.0, 0, 0, 0, 0.0, 0, 0, 0, 0, 0, 0, -1, -1, Done, 0);
  }

  /** The loop over the schedule stops at the first faulty row. */
  method RunRows(s0: State, rows: seq<Row>, c: Config) returns (r: Result<State>)
    ensures r.Ok? <==> Faultless(s0, rows, |rows|, c)
    ensures r.Ok? ==> r.value == After(s0, rows, |rows|, c)
  {
    var s := s0;
    var i := 0;
    while i < |rows|
      invariant 0 <= i <= |rows| && s == After(s0, rows, i, c) && Faultless(s0, rows, i, c)
    {
      var d := DrainDue(s, rows[i].placement, c.spec);
      assert d == Seen(s0, rows, i, c);
      r := HandleRow(d, rows[i], c);
      if r.Err? {
        assert FaultAt(s0, rows, i, c);
        return;
      }
      s := r.value;
      i := i + 1;
    }
    r := Ok(s);
  }

  /** The day-end liquidation at the last quotes. */
  function Liquidate(s: State, lastBid: real, lastAsk: real, spec: Spec): Day {
    var notional := if s.inventory > spec.tol then s.inventory * lastBid else if s.inventory < -spec.tol then -s.inventory * lastAsk else 0.0;
    var gross := if s.inventory > spec.tol then s.cash + notional else s.cash - notional;
    Day(s, s.inventory, gross, gross - (s.fees + notional * spec.takerFee))
  }

  /** The books of every run. */
  lemma {:induction false} RunBooks(s0: State, rows: seq<Row>, n: nat, c: Config)
    requires n <= |rows| && c.spec.Sane() && Fresh(s0) && Faultless(s0, rows, n, c)
    ensures Booked(After(s0, rows, n, c), Accepted(s0, rows, n, c)) && Charged(After(s0, rows, n, c), c.spec)
  {
    if n == 0 {
      FreshBooked(s0, c.spec);
    } else {
      RunBooks(s0, rows, n - 1, c);
      BookStep(s0, rows, n - 1, c);
    }
  }

  lemma BookStep(s0: State, rows: seq<Row>, i: nat, c: Config)
    requires i < |rows| && c.spec.Sane() && Fresh(s0) && Faultless(s0, rows, i, c)
    requires Booked(After(s0, rows, i, c), Accepted(s0, rows, i, c)) && Charged(After(s0, rows, i, c), c.spec)
    ensures Booked(After(s0, rows, i + 1, c), Accepted(s0, rows, i + 1, c)) && Charged(After(s0, rows, i + 1, c), c.spec)
  {
    var accepted, seen := Accepted(s0, rows, i, c), Seen(s0, rows, i, c);
    RunKeeps(s0, rows, i, c);
    DrainKeeps(After(s0, rows, i, c), rows[i].placement, c.spec, accepted, 0.0);
    DrainBooked(After(s0, rows, i, c), rows[i].placement, accepted, c.spec);
    HandledBooked(seen, rows[i], c, accepted);
    HandledCharged(seen, rows[i], c);
  }

  /** A finished day, in terms of its fills. */
  ghost predicate Settled(d: Day, fs: seq<Fill>, lastBid: real, lastAsk: real, spec: Spec) {
    && d.inventory == Lots(fs, Bid, |fs|) - Lots(fs, Ask, |fs|) && d.state.fullOrders == Wholes(fs, |fs|)
    && exists closing :: Closes(d.inventory, closing, lastBid, lastAsk, spec.tol) && Settles(d.gross, d.net, fs, closing, spec)
  }

  /** What a day without a faulty row earns, told of its fills alone. */
  lemma DaySettles(s0: State, rows: seq<Row>, c: Config, lastBid: real, lastAsk: real)
    requires c.spec.Sane() && Fresh(s0) && Faultless(s0, rows, |rows|, c)
    ensures Settled(Liquidate(Final(s0, rows, c), lastBid, lastAsk, c.spec), Accepted(s0, rows, |rows|, c), lastBid, lastAsk, c.spec)
  {
    var fs, s := Accepted(s0, rows, |rows|, c), Final(s0, rows, c);
    RunBooks(s0, rows, |rows|, c);
    DrainAllBooked(After(s0, rows, |rows|, c), fs, c.spec);
    LiquidateSettles(s, fs, lastBid, lastAsk, c.spec);
  }

  lemma LiquidateSettles(s: State, fs: seq<Fill>, lastBid: real, lastAsk: real, spec: Spec)
    requires Booked(s, fs) && Charged(s, spec) && s.pending == Done && spec.tol >= 0.0
    ensures var d := Liquidate(s, lastBid, lastAsk, spec);
            exists closing :: Closes(d.inventory, closing, lastBid, lastAsk, spec.tol) && Settles(d.gross, d.net, fs, closing, spec)
  {
    var d, left := Liquidate(s, lastBid, lastAsk, spec), s.inventory;
    if left > spec.tol {
      ClosingAddsUp(s, fs, left * lastBid, left * lastBid, spec);
      assert Closes(left, left * lastBid, lastBid, lastAsk, spec.tol);
    } else if left < -spec.tol {
      Signs(left, lastAsk);
      ClosingAddsUp(s, fs, left * lastAsk, -(left * lastAsk), spec);
      assert Closes(left, left * lastAsk, lastBid, lastAsk, spec.tol);
    } else {
      ClosingAddsUp(s, fs, 0.0, 0.0, spec);
      assert Closes(left, 0.0, lastBid, lastAsk, spec.tol);
    }
  }

  /** The closing trade on top of the fills; its fee is charged on what it turns over. */
  lemma ClosingAddsUp(s: State, fs: seq<Fill>, closing: real, turned: real, spec: Spec)
    requires Booked(s, fs) && Charged(s, spec) && s.pending == Done
    requires turned == (if s.inventory < 0.0 then -closing else closing)
    ensures Settles(s.cash + closing, s.cash + closing - (s.fees + turned * spec.takerFee), fs, closing, spec)
  {
  }

  lemma Signs(left: real, price: real)
    ensures -left * price == -(left * price)
  {
  }

  /** The state a day ends in. */
  ghost function Final(s0: State, rows: seq<Row>, c: Config): State {
    DrainedAll(After(s0, rows, |rows|, c), c.spec)
  }

  /** What a day without a faulty row comes to: the inventory and cash are those of the fills of exactly the
      rows tried, all of them delivered once, and each counter counts the rows of its fate. */
  lemma DayKeeps(s0: State, rows: seq<Row>, c: Config)
    requires c.spec.Sane() && Fresh(s0) && Faultless(s0, rows, |rows|, c)
    ensures var s, accepted := Final(s0, rows, c), Accepted(s0, rows, |rows|, c);
            && s.inventory == Net(accepted, |accepted|) == s.bought - s.sold && s.cash == Cash(accepted, |accepted|)
            && s.fullOrders + s.partialOrders == |accepted| && Marked(s, c.spec)
            && Tallied(s, s0, rows, |rows|, c) && Counters(s) == |rows|
  {
    RunKeeps(s0, rows, |rows|, c);
    DrainAllKeeps(After(s0, rows, |rows|, c), c.spec, Accepted(s0, rows, |rows|, c), 0.0);
    RunTallies(s0, rows, |rows|, c);
    FatesCover(s0, rows, |rows|, c);
  }

  /** A limit that admits every fill of the schedule is never passed, under any policy and any selector. */
  lemma DayStaysInside(s0: State, rows: seq<Row>, c: Config, limit: real, q: real)
    requires c.spec.Sane() && Fresh(s0) && Faultless(s0, rows, |rows|, c) && Admits(limit, q, c.spec) && Sized(rows, q, |rows|)
    ensures Final(s0, rows, c).maxAbs <= limit
  {
    RunKeeps(s0, rows, |rows|, c);
    RunStaysInside(s0, rows, |rows|, c, limit, q);
    DrainAllKeeps(After(s0, rows, |rows|, c), c.spec, Accepted(s0, rows, |rows|, c), limit);
  }

  /** A whole day: it stops exactly on a faulty row, and otherwise liquidates the final state. */
  method Simulate(rows: seq<Row>, lastBid: real, lastAsk: real, c: Config) returns (r: Result<Day>, ghost s0: State)
    requires c.spec.Sane()
    ensures Fresh(s0) && (r.Ok? <==> Faultless(s0, rows, |rows|, c))
    ensures r.Ok? ==> r.value == Liquidate(Final(s0, rows, c), lastBid, lastAsk, c.spec)
    ensures r.Ok? ==> (var s, accepted := r.value.state, Accepted(s0, rows, |rows|, c);
                       && s.inventory == Net(accepted, |accepted|) && s.cash == Cash(accepted, |accepted|)
                       && s.fullOrders + s.partialOrders == |accepted| && Counters(s) == |rows| && Tallied(s, s0, rows, |rows|, c))
    ensures r.Ok? ==> Settled(r.value, Accepted(s0, rows, |rows|, c), lastBid, lastAsk, c.spec)
    ensures r.Ok? && Sorted(rows) ==> Accepted(s0, rows, |rows|, c) == PlanAt(rows, |rows|, c).fills
    ensures r.Ok? && Sized(rows, c.spec.qty, |rows|) ==> r.value.state.violations == 0 && r.value.state.maxAbs <= c.spec.Cap()
  {
    var s := Begin();
    s0 := s;
    var run := RunRows(s, rows, c);
    if run.Err? {
      return Err(run.error), s0;
    }
    var last := DrainAll(run.value, c.spec);
    DayKeeps(s0, rows, c);
    DaySettles(s0, rows, c, lastBid, lastAsk);
    if Sorted(rows) {
      RunIsPlan(s0, rows, |rows|, c);
    }
    if Sized(rows, c.spec.qty, |rows|) {
      QuotedFits(c.spec);
      DayStaysInside(s0, rows, c, c.spec.Cap(), c.spec.qty);
    }
    r := Ok(Liquidate(last, lastBid, lastAsk, c.spec));
  }

  /** Fills of at most the quoted size stay inside both the hard and the soft bound. */
  lemma QuotedFits(spec: Spec)
    requires spec.Sane()
    ensures Admits(spec.Cap(), spec.qty, spec) && spec.Cap() <= spec.hard + spec.tol && spec.Cap() <= spec.soft - spec.tol + spec.qty
  {
  }
}
