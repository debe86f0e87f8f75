/** The money of a day in terms of its fills (pyresearch/obi/continuous_mm.py:105-131, 239-269): what was bought
    and sold, what that cost and brought, and the fees on it. */
module MarketBooks {
  import opened MarketMaker

  /** What a fill comes to. */
  function Amount(e: Fill): real {
    e.qty * e.price
  }

  /** Lots filled on a side, and what they came to, over the first n fills. */
  ghost function Lots(fs: seq<Fill>, side: Side, n: nat): real
    requires n <= |fs|
  {
    if n == 0 then 0.0 else Lots(fs, side, n - 1) + if fs[n - 1].side == side then fs[n - 1].qty else 0.0
  }

  ghost function Paid(fs: seq<Fill>, side: Side, n: nat): real
    requires n <= |fs|
  {
    if n == 0 then 0.0 else Paid(fs, side, n - 1) + if fs[n - 1].side == side then Amount(fs[n - 1]) else 0.0
  }

  ghost function Wholes(fs: seq<Fill>, n: nat): nat
    requires n <= |fs|
  {
    if n == 0 then 0 else Wholes(fs, n - 1) + if fs[n - 1].full then 1 else 0
  }

  /** The same of fills still to come. */
  ghost function Coming(q: Queue, side: Side): real {
    if q.Done? then 0.0 else Coming(q.rest, side) + if q.head.side == side then q.head.qty else 0.0
  }

  ghost function Owed(q: Queue, side: Side): real {
    if q.Done? then 0.0 else Owed(q.rest, side) + if q.head.side == side then Amount(q.head) else 0.0
  }

  ghost function WholesComing(q: Queue): nat {
    if q.Done? then 0 else WholesComing(q.rest) + if q.head.full then 1 else 0
  }

  /** Delivered and still to come make up all fills: on either side their lots and their price, what they
      turned over, and how many orders were filled whole. */
  ghost predicate Booked(s: State, fs: seq<Fill>) {
    && s.bought + Coming(s.pending, Bid) == Lots(fs, Bid, |fs|) && s.sold + Coming(s.pending, Ask) == Lots(fs, Ask, |fs|)
    && s.inventory == s.bought - s.sold
    && s.cash + Owed(s.pending, Ask) - Owed(s.pending, Bid) == Paid(fs, Ask, |fs|) - Paid(fs, Bid, |fs|)
    && s.turnover + Owed(s.pending, Ask) + Owed(s.pending, Bid) == Paid(fs, Ask, |fs|) + Paid(fs, Bid, |fs|)
    && s.fullOrders + WholesComing(s.pending) == Wholes(fs, |fs|)
  }

  /** The fees so far are those on what has been turned over. */
  ghost predicate Charged(s: State, spec: Spec) {
    s.fees == spec.makerFee * s.turnover
  }

  lemma FreshBooked(s: State, spec: Spec)
    requires Fresh(s)
    ensures Booked(s, []) && Charged(s, spec)
  {
  }

  lemma PopBooked(s: State, fs: seq<Fill>, spec: Spec)
    requires Booked(s, fs) && s.pending.Next?
    ensures Booked(Popped(s, spec), fs)
  {
  }

  lemma PopCharged(s: State, spec: Spec)
    requires Charged(s, spec) && s.pending.Next?
    ensures Charged(Popped(s, spec), spec)
  {
    FeesAddUp(spec.makerFee, s.turnover, s.pending.head.Notional());
  }

  lemma FeesAddUp(fee: real, a: real, b: real)
    ensures fee * a + b * fee == fee * (a + b)
  {
  }

  lemma {:induction false} DrainBooked(s: State, t: int, fs: seq<Fill>, spec: Spec)
    requires Booked(s, fs) && Charged(s, spec)
    ensures Booked(Drained(s, t, spec), fs) && Charged(Drained(s, t, spec), spec)
    decreases s.pending
  {
    if s.pending.Next? && s.pending.head.time <= t {
      PopBooked(s, fs, spec);
      PopCharged(s, spec);
      DrainBooked(Popped(s, spec), t, fs, spec);
    }
  }

  lemma {:induction false} DrainAllBooked(s: State, fs: seq<Fill>, spec: Spec)
    requires Booked(s, fs) && Charged(s, spec)
    ensures Booked(DrainedAll(s, spec), fs) && Charged(DrainedAll(s, spec), spec) && DrainedAll(s, spec).pending == Done
    decreases s.pending
  {
    if s.pending.Next? {
      PopBooked(s, fs, spec);
      PopCharged(s, spec);
      DrainAllBooked(Popped(s, spec), fs, spec);
    }
  }

  lemma {:induction false} PushBooks(q: Queue, e: Fill, side: Side)
    ensures var p := Push(q, e);
            && Coming(p, side) == Coming(q, side) + (if e.side == side then e.qty else 0.0)
            && Owed(p, side) == Owed(q, side) + (if e.side == side then Amount(e) else 0.0)
            && WholesComing(p) == WholesComing(q) + (if e.full then 1 else 0)
  {
    if q.Next? && !Before(e, q.head) {
      PushBooks(q.rest, e, side);
    }
  }

  lemma {:induction false} FrontBooks(fs: seq<Fill>, e: Fill, side: Side, n: nat)
    requires n <= |fs|
    ensures Lots(fs + [e], side, n) == Lots(fs, side, n) && Paid(fs + [e], side, n) == Paid(fs, side, n)
    ensures Wholes(fs + [e], n) == Wholes(fs, n)
  {
    if n > 0 {
      FrontBooks(fs, e, side, n - 1);
    }
  }

  lemma EnqueuedBooked(s: State, e: Fill, fs: seq<Fill>)
    requires Booked(s, fs)
    ensures Booked(Enqueued(s, e), fs + [e])
  {
    PushBooks(s.pending, e, Bid);
    PushBooks(s.pending, e, Ask);
    FrontBooks(fs, e, Bid, |fs|);
    FrontBooks(fs, e, Ask, |fs|);
  }

  /** States with the same money and the same fills to come. */
  ghost predicate SameBooks(s: State, n: State) {
    && n.bought == s.bought && n.sold == s.sold && n.inventory == s.inventory && n.cash == s.cash && n.turnover == s.turnover
    && n.fullOrders == s.fullOrders && n.pending == s.pending
  }

  lemma SameBooked(s: State, n: State, fs: seq<Fill>)
    requires Booked(s, fs) && SameBooks(s, n)
    ensures Booked(n, fs)
  {
  }

  lemma HandledIs(s: State, row: Row, c: Config)
    ensures var fills := FillsOf(row, FateOf(row, s.End(row.side), s.inventory, c), s.sequence + 1, c.spec.tol);
            if fills == [] then SameBooks(s, Handled(s, row, c))
            else Labelled(row) && Handled(s, row, c) == Enqueued(Placed(s, row, EndOf(row)), fills[0]) && SameBooks(s, Placed(s, row, EndOf(row)))
  {
  }

  lemma HandledBooked(s: State, row: Row, c: Config, fs: seq<Fill>)
    requires Booked(s, fs) && s.sequence == |fs|
    ensures Booked(Handled(s, row, c), fs + FillsOf(row, FateOf(row, s.End(row.side), s.inventory, c), |fs| + 1, c.spec.tol))
  {
    var fills := FillsOf(row, FateOf(row, s.End(row.side), s.inventory, c), |fs| + 1, c.spec.tol);
    HandledIs(s, row, c);
    if fills == [] {
      SameBooked(s, Handled(s, row, c), fs);
      assert fs + fills == fs;
    } else {
      SameBooked(s, Placed(s, row, EndOf(row)), fs);
      EnqueuedBooked(Placed(s, row, EndOf(row)), fills[0], fs);
      assert fills == [fills[0]];
    }
  }

  lemma HandledCharged(s: State, row: Row, c: Config)
    requires Charged(s, c.spec)
    ensures Charged(Handled(s, row, c), c.spec)
  {
    var h := Handled(s, row, c);
    assert h.fees == s.fees && h.turnover == s.turnover;
  }

  /** The closing trade: what is left is sold at the last bid, or bought back at the last ask if too much was
      sold; a rest within tolerance is left alone. */
  ghost predicate Closes(left: real, closing: real, lastBid: real, lastAsk: real, tol: real) {
    if left > tol then closing == left * lastBid else if left < -tol then closing == left * lastAsk else closing == 0.0
  }

  /** The day before and after fees: what sales brought less what purchases cost and the closing trade came to;
      then the maker fee on every fill and the taker fee on the closing trade. */
  ghost predicate Settles(gross: real, net: real, fs: seq<Fill>, closing: real, spec: Spec) {
    var cost, proceeds := Paid(fs, Bid, |fs|), Paid(fs, Ask, |fs|);
    && gross == proceeds - cost + closing
    && net == gross - (spec.makerFee * (proceeds + cost) + spec.takerFee * (if Lots(fs, Bid, |fs|) < Lots(fs, Ask, |fs|) then -closing else closing))
  }
}
