/** What the report of a taker's day says of its signals and trades (pyresearch/execution/engine.py:88-153,
    171-350), in terms of the day's samples alone. */
module DayTrades {
  import opened Wrappers
  import opened BookWalk
  import opened DayRun

  /** Latency rounds up to whole samples, and the horizon is a whole number of them. */
  lemma StepsAreTimes(s: Settings)
    requires s.Sane()
    ensures 100 * s.LatencySteps() >= s.latencyMs > 100 * (s.LatencySteps() - 1) && 100 * s.HorizonSteps() == s.horizonMs
  {
  }

  predicate Steps(quantity: int, step: int, n: int) {
    quantity == n * step
  }

  /** A whole number of steps that the notional still buys at the touch, when one step more it would not. */
  ghost predicate Largest(quantity: int, notional: int, touch: int, step: int) {
    (exists n :: Steps(quantity, step, n)) && quantity * touch <= notional < (quantity + step) * touch
  }

  lemma QuantityIsLargest(notional: int, touch: int, step: int)
    ensures var q := FloorQuantity(notional, touch, step);
            if notional <= 0 || touch <= 0 || step <= 0 then q == 0 else q >= 0 && Largest(q, notional, touch, step)
  {
    if notional > 0 && touch > 0 && step > 0 {
      var lot := touch * step;
      var k := notional / lot;
      assert lot > 0 && lot * k <= notional < lot * k + lot;
      assert k * step * touch == lot * k && (k * step + step) * touch == lot * k + lot by {
        Distributes(k, step, touch);
      }
      assert Steps(k * step, step, k);
    }
  }

  lemma Distributes(k: int, step: int, touch: int)
    ensures k * step * touch == touch * step * k && (k * step + step) * touch == touch * step * k + touch * step
  {
  }

  /** A signal is a prediction of at least the threshold, either way, that is not zero. */
  lemma SignalsAre(prediction: seq<Option<int>>, threshold: int, d: nat)
    requires threshold >= 0
    ensures d in Signals(prediction, threshold, |prediction|)
       <==> d < |prediction| && prediction[d].Some?
            && (if prediction[d].value > 0 then prediction[d].value >= threshold else prediction[d].value < 0 && prediction[d].value <= -threshold)
  {
  }

  /** Some way of taking a quantity from a book's usable levels costs that much, and no way costs a buyer less
      or brings a seller more. */
  ghost predicate BestPrice(book: seq<Level>, quantity: int, buy: bool, notional: int) {
    var levels := Present(book, |book|);
    && (exists taken :: Feasible(levels, taken) && Total(taken, |levels|) == quantity && Cost(levels, taken, |levels|) == notional)
    && forall taken {:trigger Feasible(levels, taken)} | Feasible(levels, taken) && Total(taken, |levels|) == quantity ::
         if buy then notional <= Cost(levels, taken, |levels|) else notional >= Cost(levels, taken, |levels|)
  }

  lemma {:induction false} LastTouched(levels: seq<Level>, quantity: int, n: nat) returns (last: nat)
    requires n <= |levels| && 0 < quantity <= Volume(levels, n)
    ensures last < n && Volume(levels, last) < quantity <= Volume(levels, last + 1)
  {
    if quantity <= Volume(levels, n - 1) {
      last := LastTouched(levels, quantity, n - 1);
    } else {
      last := n - 1;
    }
  }

  lemma ChargeIsBest(book: seq<Level>, quantity: int, buy: bool)
    requires var levels := Present(book, |book|); Ordered(levels, buy) && 0 < quantity <= Volume(levels, |levels|)
    ensures BestPrice(book, quantity, buy, Charge(book, quantity))
  {
    var levels := Present(book, |book|);
    WalkFills(levels, quantity);
    var last := LastTouched(levels, quantity, |levels|);
    forall taken | Feasible(levels, taken) && Total(taken, |levels|) == quantity
      ensures if buy then Charge(book, quantity) <= Cost(levels, taken, |levels|) else Charge(book, quantity) >= Cost(levels, taken, |levels|)
    {
      WalkIsOptimal(levels, quantity, taken, buy, last);
    }
  }

  /** A trade is entered the latency after its decision and left at the horizon, inside one segment whose
      books are usable there; */
  ghost predicate Timed(t: Trade, s: Settings, samples: seq<Sample>) {
    && 0 <= t.decision <= t.entry < |samples| && t.decision < t.exit < |samples|
    && 100 * (t.entry - t.decision) >= s.latencyMs > 100 * (t.entry - t.decision - 1) && 100 * (t.exit - t.decision) == s.horizonMs
    && samples[t.decision].segment.Some? && samples[t.entry].segment == samples[t.exit].segment == samples[t.decision].segment
    && samples[t.decision].validBook && samples[t.entry].validBook && samples[t.exit].validBook
  }

  /** it is as large as the notional allows at the delayed touch, and entered and left at the best price the
      books then show. */
  ghost predicate Priced(t: Trade, s: Settings, samples: seq<Sample>, long: bool)
    requires Timed(t, s, samples)
  {
    var entry, exit := samples[t.entry], samples[t.exit];
    && t.direction == (if long then 1 else -1)
    && t.quantity > 0 && Largest(t.quantity, s.notional, if long then entry.bestAsk else entry.bestBid, s.step)
    && BestPrice(if long then entry.asks else entry.bids, t.quantity, long, t.entryNotional)
    && BestPrice(if long then exit.bids else exit.asks, t.quantity, !long, t.exitNotional)
  }

  lemma TradeTimed(s: Settings, samples: seq<Sample>, prediction: seq<Option<int>>, d: int)
    requires s.Sane() && |prediction| == |samples| && 0 <= d < |samples| && prediction[d].Some?
    requires FateOf(s, samples, prediction, d).Traded?
    ensures var t := FateOf(s, samples, prediction, d).trade; t.decision == d && Timed(t, s, samples)
  {
    StepsAreTimes(s);
  }

  lemma SidesAre(sample: Sample, long: bool)
    ensures Side(sample, long) == (if long then sample.asks else sample.bids) && Side(sample, !long) == (if long then sample.bids else sample.asks)
  {
  }

  /** Fillable and in order, a side charges its best price. */
  lemma SidePaid(s: Settings, book: seq<Level>, quantity: int, buy: bool)
    requires Fillable(book, quantity, buy, s.tick) && !(s.tick > 0 && Misordered(book, buy))
    ensures BestPrice(book, quantity, buy, Charge(book, quantity))
  {
    ChargeIsBest(book, quantity, buy);
  }

  lemma TradeSays(s: Settings, samples: seq<Sample>, prediction: seq<Option<int>>, d: int)
    requires s.Sane() && |prediction| == |samples| && 0 <= d < |samples| && prediction[d].Some?
    requires FateOf(s, samples, prediction, d).Traded?
    ensures var t := FateOf(s, samples, prediction, d).trade;
            t.decision == d && Timed(t, s, samples) && Priced(t, s, samples, prediction[d].value > 0)
  {
    var long, t := prediction[d].value > 0, FateOf(s, samples, prediction, d).trade;
    TradeTimed(s, samples, prediction, d);
    TradeIs(s, samples, prediction, d);
    QuantityIsLargest(s.notional, if long then samples[t.entry].bestAsk else samples[t.entry].bestBid, s.step);
    SidePaid(s, Side(samples[t.entry], long), t.quantity, long);
    SidePaid(s, Side(samples[t.exit], !long), t.quantity, !long);
    SidesAre(samples[t.entry], long);
    SidesAre(samples[t.exit], long);
  }

  lemma TradeIs(s: Settings, samples: seq<Sample>, prediction: seq<Option<int>>, d: int)
    requires s.Sane() && |prediction| == |samples| && 0 <= d < |samples| && prediction[d].Some?
    requires FateOf(s, samples, prediction, d).Traded?
    ensures var t, long := FateOf(s, samples, prediction, d).trade, prediction[d].value > 0;
            && 0 <= t.entry < |samples| && 0 <= t.exit < |samples| && t.direction == (if long then 1 else -1)
            && t.quantity > 0 && t.quantity == FloorQuantity(s.notional, if long then samples[t.entry].bestAsk else samples[t.entry].bestBid, s.step)
            && Fillable(Side(samples[t.entry], long), t.quantity, long, s.tick) && !(s.tick > 0 && Misordered(Side(samples[t.entry], long), long))
            && Fillable(Side(samples[t.exit], !long), t.quantity, !long, s.tick) && !(s.tick > 0 && Misordered(Side(samples[t.exit], !long), !long))
            && t.entryNotional == Charge(Side(samples[t.entry], long), t.quantity)
            && t.exitNotional == Charge(Side(samples[t.exit], !long), t.quantity)
  {
  }

  /** How many of the first k signals the account was free for and that came to a fate. */
  datatype Kind = AtBoundary | InGap | WithoutQuantity | WithoutDepth | Completed

  function KindOf(f: Fate): Kind
    requires !f.BadBook?
  {
    match f
    case Boundary => AtBoundary
    case Gap => InGap
    case NoQuantity => WithoutQuantity
    case NoDepth => WithoutDepth
    case Traded(_) => Completed
  }

  ghost function Came(s: Settings, samples: seq<Sample>, prediction: seq<Option<int>>, signals: seq<nat>, kind: Kind, k: nat): nat
    requires s.Sane() && |prediction| == |samples| && Sound(prediction, signals) && k <= |signals|
  {
    if k == 0 then 0
    else
      var f := FateOf(s, samples, prediction, signals[k - 1]);
      Came(s, samples, prediction, signals, kind, k - 1)
      + if Considered(s, samples, prediction, signals, k - 1) && !f.BadBook? && KindOf(f) == kind then 1 else 0
  }

  ghost function Overlapped(s: Settings, samples: seq<Sample>, prediction: seq<Option<int>>, signals: seq<nat>, k: nat): nat
    requires s.Sane() && |prediction| == |samples| && Sound(prediction, signals) && k <= |signals|
  {
    if k == 0 then 0
    else Overlapped(s, samples, prediction, signals, k - 1) + if Considered(s, samples, prediction, signals, k - 1) then 0 else 1
  }

  /** Each counter counts just those. */
  lemma {:induction false} CountersCount(s: Settings, samples: seq<Sample>, prediction: seq<Option<int>>, signals: seq<nat>, k: nat)
    requires s.Sane() && |prediction| == |samples| && Sound(prediction, signals) && k <= |signals| && Clear(s, samples, prediction, signals, k)
    ensures var n := Account(s, samples, prediction, signals, k).counters;
            && n.boundary == Came(s, samples, prediction, signals, AtBoundary, k) && n.gap == Came(s, samples, prediction, signals, InGap, k)
            && n.quantity == Came(s, samples, prediction, signals, WithoutQuantity, k)
            && n.depth == Came(s, samples, prediction, signals, WithoutDepth, k) && n.completed == Came(s, samples, prediction, signals, Completed, k)
            && n.overlap == Overlapped(s, samples, prediction, signals, k)
  {
    if k > 0 {
      assert !Stuck(s, samples, prediction, signals, k - 1);
      CountersCount(s, samples, prediction, signals, k - 1);
    }
  }
}
