/** The non-overlapping taker (pyresearch/execution/engine.py:171-350): signals in time order, one
    position at a time, every signal accounted for. */
module DayRun {
  import opened Wrappers
  import opened BookWalk

  /** One 100 ms sample. */
  datatype Sample = Sample(validBook: bool, segment: Option<int>, bestBid: int, bestAsk: int, bids: seq<Level>, asks: seq<Level>)

  datatype Settings = Settings(horizonMs: int, latencyMs: int, threshold: int, notional: int, tick: int, step: int) {
    function HorizonSteps(): int { horizonMs / 100 }
    /** Latency rounds up to whole samples. */
    function LatencySteps(): int { (latencyMs + 99) / 100 }
    predicate Sane() { horizonMs > 0 && horizonMs % 100 == 0 && latencyMs >= 0 && threshold >= 0 }
  }

  datatype Trade = Trade(decision: int, entry: int, exit: int, direction: int, quantity: int, entryNotional: int, exitNotional: int)

  datatype Counters = Counters(signals: nat, latency: nat, boundary: nat, gap: nat, quantity: nat, depth: nat, overlap: nat, completed: nat)

  function Magnitude(x: int): int { if x < 0 then -x else x }

  predicate IsSignal(prediction: Option<int>, threshold: int) {
    prediction.Some? && prediction.value != 0 && Magnitude(prediction.value) >= threshold
  }

  /** Whole steps the notional buys at the touch. */
  function FloorQuantity(notional: int, touch: int, step: int): int {
    if notional <= 0 || touch <= 0 || step <= 0 then 0 else notional / (touch * step) * step
  }

  predicate InDay(s: Settings, samples: seq<Sample>, d: int) {
    0 <= d && d + s.LatencySteps() < |samples| && d + s.HorizonSteps() < |samples|
  }

  /** The whole position lies in one segment with a usable book at every step it needs. */
  predicate Continuous(s: Settings, samples: seq<Sample>, d: int)
    requires s.Sane() && InDay(s, samples, d)
  {
    var entry, exit := d + s.LatencySteps(), d + s.HorizonSteps();
    && samples[d].segment.Some? && samples[d].validBook && samples[entry].validBook && samples[exit].validBook
    && samples[entry].segment == samples[d].segment && samples[exit].segment == samples[d].segment
  }

  function Quantity(s: Settings, samples: seq<Sample>, d: int, long: bool): int
    requires s.Sane() && InDay(s, samples, d)
  {
    var entry := samples[d + s.LatencySteps()];
    FloorQuantity(s.notional, if long then entry.bestAsk else entry.bestBid, s.step)
  }

  function Side(sample: Sample, buy: bool): seq<Level> {
    if buy then sample.asks else sample.bids
  }

  predicate Fillable(book: seq<Level>, quantity: int, buy: bool, tick: int) {
    var levels := Present(book, |book|);
    quantity > 0 && tick > 0 && levels != [] && Volume(levels, |levels|) >= quantity
  }

  /** All four fills the report needs: entry and exit, with and without the latency. */
  predicate Liquid(s: Settings, samples: seq<Sample>, d: int, long: bool)
    requires s.Sane() && InDay(s, samples, d)
  {
    var q := Quantity(s, samples, d, long);
    var entry, exit := samples[d + s.LatencySteps()], samples[d + s.HorizonSteps()];
    && Fillable(Side(samples[d], long), q, long, s.tick) && Fillable(Side(exit, !long), q, !long, s.tick)
    && Fillable(Side(entry, long), q, long, s.tick)
  }

  /** A signal that would trade if the account were free. */
  predicate Tradeable(s: Settings, samples: seq<Sample>, prediction: seq<Option<int>>, d: int)
    requires s.Sane() && |prediction| == |samples|
  {
    && InDay(s, samples, d) && Continuous(s, samples, d) && prediction[d].Some?
    && Quantity(s, samples, d, prediction[d].value > 0) > 0 && Liquid(s, samples, d, prediction[d].value > 0)
  }

  /** flatnonzero: the indices of the signals, ascending. */
  function Signals(prediction: seq<Option<int>>, threshold: int, n: nat): (r: seq<nat>)
    requires n <= |prediction|
    ensures forall i | 0 <= i < |r| :: r[i] < n && IsSignal(prediction[r[i]], threshold)
    ensures forall i, j | 0 <= i < j < |r| :: r[i] < r[j]
    ensures forall k | 0 <= k < n && IsSignal(prediction[k], threshold) :: k in r
  {
    if n == 0 then [] else Signals(prediction, threshold, n - 1) + if IsSignal(prediction[n - 1], threshold) then [n - 1] else []
  }

  /** What a signal came to. */
  datatype Fate = Boundary | Gap | NoQuantity | NoDepth | Traded(trade: Trade) | BadBook

  /** What the visible book charges, or pays, for a quantity. */
  ghost function Charge(book: seq<Level>, quantity: int): int {
    var levels := Present(book, |book|);
    Cost(levels, Walked(levels, quantity), |levels|)
  }

  /** A walk over this book would find its prices out of order. */
  ghost predicate Misordered(book: seq<Level>, buy: bool) {
    var levels := Present(book, |book|);
    levels != [] && !Ordered(levels, buy)
  }

  /** One of the books the report walks is out of order. */
  ghost predicate Disordered(s: Settings, samples: seq<Sample>, d: int, long: bool)
    requires s.Sane() && InDay(s, samples, d)
  {
    var entry, exit := samples[d + s.LatencySteps()], samples[d + s.HorizonSteps()];
    s.tick > 0 && (Misordered(Side(samples[d], long), long) || Misordered(Side(exit, !long), !long) || Misordered(Side(entry, long), long))
  }

  /** The position a signal takes, at what the delayed book and the book at its exit charge. */
  ghost function TradeAt(s: Settings, samples: seq<Sample>, d: int, long: bool): Fate
    requires s.Sane() && InDay(s, samples, d)
  {
    var entry, exit, q := d + s.LatencySteps(), d + s.HorizonSteps(), Quantity(s, samples, d, long);
    Traded(Trade(d, entry, exit, if long then 1 else -1, q, Charge(Side(samples[entry], long), q), Charge(Side(samples[exit], !long), q)))
  }

  /** What a signal comes to on its own: the first reason against it that applies, or its trade at what the
      books charge. */
  ghost function FateOf(s: Settings, samples: seq<Sample>, prediction: seq<Option<int>>, d: int): Fate
    requires s.Sane() && |prediction| == |samples| && 0 <= d < |samples| && prediction[d].Some?
  {
    var long := prediction[d].value > 0;
    if !InDay(s, samples, d) then Boundary
    else if !Continuous(s, samples, d) then Gap
    else if Quantity(s, samples, d, long) <= 0 then NoQuantity
    else if Disordered(s, samples, d, long) then BadBook
    else if !Liquid(s, samples, d, long) then NoDepth
    else TradeAt(s, samples, d, long)
  }

  /** One decision taken on its own. */
  method Decide(s: Settings, samples: seq<Sample>, prediction: seq<Option<int>>, d: int) returns (f: Fate)
    requires s.Sane() && |prediction| == |samples| && 0 <= d < |samples| && prediction[d].Some?
    ensures f == FateOf(s, samples, prediction, d)
  {
    var entry, exit := d + s.LatencySteps(), d + s.HorizonSteps();
    if entry >= |samples| || exit >= |samples| {
      return Boundary;
    }
    if samples[d].segment.None? || !samples[d].validBook || !samples[entry].validBook || !samples[exit].validBook
       || samples[entry].segment != samples[d].segment || samples[exit].segment != samples[d].segment {
      return Gap;
    }
    var long := prediction[d].value > 0;
    var quantity := FloorQuantity(s.notional, if long then samples[entry].bestAsk else samples[entry].bestBid, s.step);
    if quantity <= 0 {
      return NoQuantity;
    }
    f := TakeFills(s, samples, d, long, quantity);
  }

  /** One fill of the report. */
  method FillSide(book: seq<Level>, quantity: int, buy: bool, tick: int) returns (r: Outcome)
    requires quantity > 0
    ensures r.Unordered? <==> tick > 0 && Misordered(book, buy)
    ensures r.NoFill? ==> !Fillable(book, quantity, buy, tick)
    ensures r.Filled? ==> Fillable(book, quantity, buy, tick) && r.fill.notional == Charge(book, quantity)
  {
    r := WalkVisibleBook(book, quantity, buy, tick);
  }

  /** The four fills of the report. */
  method TakeFills(s: Settings, samples: seq<Sample>, d: int, long: bool, quantity: int) returns (f: Fate)
    requires s.Sane() && InDay(s, samples, d) && quantity == Quantity(s, samples, d, long) > 0
    ensures f.BadBook? <==> Disordered(s, samples, d, long)
    ensures f.NoDepth? <==> !Disordered(s, samples, d, long) && !Liquid(s, samples, d, long)
    ensures f.BadBook? || f.NoDepth? || f == TradeAt(s, samples, d, long)
  {
    var entry, exit := d + s.LatencySteps(), d + s.HorizonSteps();
    var zeroEntry := FillSide(Side(samples[d], long), quantity, long, s.tick);
    if zeroEntry.Unordered? { return BadBook; }
    var zeroExit := FillSide(Side(samples[exit], !long), quantity, !long, s.tick);
    if zeroExit.Unordered? { return BadBook; }
    var actualEntry := FillSide(Side(samples[entry], long), quantity, long, s.tick);
    if actualEntry.Unordered? { return BadBook; }
    var actualExit := FillSide(Side(samples[exit], !long), quantity, !long, s.tick);
    if actualExit.Unordered? { return BadBook; }
    if zeroEntry.NoFill? || zeroExit.NoFill? || actualEntry.NoFill? || actualExit.NoFill? {
      return NoDepth;
    }
    f := Traded(Trade(d, entry, exit, if long then 1 else -1, quantity, actualEntry.fill.notional, actualExit.fill.notional));
  }

  /** A signal trades exactly when it could and no book it walks is out of order. */
  lemma TradesIff(s: Settings, samples: seq<Sample>, prediction: seq<Option<int>>, d: int)
    requires s.Sane() && |prediction| == |samples| && 0 <= d < |samples| && prediction[d].Some?
    ensures FateOf(s, samples, prediction, d).Traded?
       <==> Tradeable(s, samples, prediction, d) && !Disordered(s, samples, d, prediction[d].value > 0)
  {
  }

  /** The first cursor whose signal is at or after a sample. */
  method SearchSorted(signals: seq<nat>, value: int, from: nat) returns (k: nat)
    requires from <= |signals| && forall i, j | 0 <= i < j < |signals| :: signals[i] < signals[j]
    requires from > 0 ==> signals[from - 1] < value
    ensures from <= k <= |signals|
    ensures forall i | 0 <= i < k :: signals[i] < value
    ensures forall i | k <= i < |signals| :: signals[i] >= value
  {
    k := from;
    while k < |signals| && signals[k] < value
      invariant from <= k <= |signals| && forall i | 0 <= i < k :: signals[i] < value
    {
      k := k + 1;
    }
  }

  /** Positions follow one another: each is closed before the next decision. */
  ghost predicate NoOverlap(trades: seq<Trade>) {
    && (forall i | 0 <= i < |trades| :: trades[i].decision <= trades[i].entry && trades[i].decision < trades[i].exit)
    && (forall i, j | 0 <= i < j < |trades| :: trades[i].exit <= trades[j].decision)
  }

  /** Nothing is passed over: a signal traded, could not trade, or fell inside an open position. */
  ghost predicate Explained(s: Settings, samples: seq<Sample>, prediction: seq<Option<int>>, trades: seq<Trade>, d: int)
    requires s.Sane() && |prediction| == |samples|
  {
    || !Tradeable(s, samples, prediction, d)
    || (exists i :: 0 <= i < |trades| && trades[i].decision <= d < trades[i].exit)
  }

  ghost predicate AllExplained(s: Settings, samples: seq<Sample>, prediction: seq<Option<int>>, trades: seq<Trade>, signals: seq<nat>, n: nat)
    requires s.Sane() && |prediction| == |samples| && n <= |signals|
  {
    forall i {:trigger Explained(s, samples, prediction, trades, signals[i])} | 0 <= i < n :: Explained(s, samples, prediction, trades, signals[i])
  }

  function Sum(c: Counters): nat {
    c.latency + c.boundary + c.gap + c.quantity + c.depth + c.overlap + c.completed
  }

  function Count(c: Counters, f: Fate): Counters
    requires !f.BadBook?
  {
    match f
    case Boundary => c.(boundary := c.boundary + 1)
    case Gap => c.(gap := c.gap + 1)
    case NoQuantity => c.(quantity := c.quantity + 1)
    case NoDepth => c.(depth := c.depth + 1)
    case Traded(_) => c.(completed := c.completed + 1)
  }

  datatype Day = Day(trades: seq<Trade>, counters: Counters)

  /** Signals, ascending, each with a prediction. */
  ghost predicate Sound(prediction: seq<Option<int>>, signals: seq<nat>) {
    && (forall i, j | 0 <= i < j < |signals| :: signals[i] < signals[j])
    && (forall i | 0 <= i < |signals| :: signals[i] < |prediction| && prediction[signals[i]].Some?)
  }

  /** The sample from which the account is free again once the first k signals are behind it. */
  ghost function FreeFrom(s: Settings, samples: seq<Sample>, prediction: seq<Option<int>>, signals: seq<nat>, k: nat): int
    requires s.Sane() && |prediction| == |samples| && Sound(prediction, signals) && k <= |signals|
  {
    if k == 0 then 0
    else
      var free := FreeFrom(s, samples, prediction, signals, k - 1);
      if signals[k - 1] < free then free
      else
        var f := FateOf(s, samples, prediction, signals[k - 1]);
        if f.Traded? then f.trade.exit else free
  }

  /** The account is free when signal k comes. */
  ghost predicate Considered(s: Settings, samples: seq<Sample>, prediction: seq<Option<int>>, signals: seq<nat>, k: nat)
    requires s.Sane() && |prediction| == |samples| && Sound(prediction, signals) && k < |signals|
  {
    signals[k] >= FreeFrom(s, samples, prediction, signals, k)
  }

  /** A signal the account is free for meets a book out of order. */
  ghost predicate Stuck(s: Settings, samples: seq<Sample>, prediction: seq<Option<int>>, signals: seq<nat>, k: nat)
    requires s.Sane() && |prediction| == |samples| && Sound(prediction, signals) && k < |signals|
  {
    Considered(s, samples, prediction, signals, k) && FateOf(s, samples, prediction, signals[k]).BadBook?
  }

  /** None of the first k signals does. */
  ghost predicate Clear(s: Settings, samples: seq<Sample>, prediction: seq<Option<int>>, signals: seq<nat>, k: nat)
    requires s.Sane() && |prediction| == |samples| && Sound(prediction, signals) && k <= |signals|
  {
    forall i {:trigger Stuck(s, samples, prediction, signals, i)} | 0 <= i < k :: !Stuck(s, samples, prediction, signals, i)
  }

  /** The report on the first k signals: those that find the account busy overlap, every other one comes to
      its own fate. */
  ghost function Account(s: Settings, samples: seq<Sample>, prediction: seq<Option<int>>, signals: seq<nat>, k: nat): Day
    requires s.Sane() && |prediction| == |samples| && Sound(prediction, signals) && k <= |signals|
    requires Clear(s, samples, prediction, signals, k)
  {
    if k == 0 then Day([], Counters(|signals|, 0, 0, 0, 0, 0, 0, 0))
    else
      var was := Account(s, samples, prediction, signals, k - 1);
      if !Considered(s, samples, prediction, signals, k - 1) then was.(counters := was.counters.(overlap := was.counters.overlap + 1))
      else
        assert !Stuck(s, samples, prediction, signals, k - 1);
        var f := FateOf(s, samples, prediction, signals[k - 1]);
        Day(was.trades + if f.Traded? then [f.trade] else [], Count(was.counters, f))
  }

  /** A trade is a signal's own, at its own cost, in a position that no other one overlaps. */
  ghost predicate Reported(s: Settings, samples: seq<Sample>, prediction: seq<Option<int>>, signals: seq<nat>, t: Trade)
    requires s.Sane() && |prediction| == |samples| && Sound(prediction, signals)
  {
    t.decision in signals && 0 <= t.decision < |samples| && prediction[t.decision].Some?
    && FateOf(s, samples, prediction, t.decision) == Traded(t)
  }

  ghost predicate AllReported(s: Settings, samples: seq<Sample>, prediction: seq<Option<int>>, signals: seq<nat>, trades: seq<Trade>)
    requires s.Sane() && |prediction| == |samples| && Sound(prediction, signals)
  {
    forall i {:trigger Reported(s, samples, prediction, signals, trades[i])} | 0 <= i < |trades| ::
      Reported(s, samples, prediction, signals, trades[i])
  }

  /** What holds of the account at any signal. */
  ghost predicate Kept(s: Settings, samples: seq<Sample>, prediction: seq<Option<int>>, signals: seq<nat>, day: Day, k: nat)
    requires s.Sane() && |prediction| == |samples| && Sound(prediction, signals) && k <= |signals|
  {
    && day.counters.signals == |signals| && Sum(day.counters) == k && day.counters.latency == 0 && day.counters.completed == |day.trades|
    && NoOverlap(day.trades) && AllReported(s, samples, prediction, signals, day.trades)
    && FreeFrom(s, samples, prediction, signals, k) == (if day.trades == [] then 0 else day.trades[|day.trades| - 1].exit)
    && (forall i | 0 <= i < |day.trades| && k > 0 :: day.trades[i].decision <= signals[k - 1])
    && AllExplained(s, samples, prediction, day.trades, signals, k)
  }

  lemma ExplainedGrows(s: Settings, samples: seq<Sample>, prediction: seq<Option<int>>, trades: seq<Trade>, more: seq<Trade>, d: int)
    requires s.Sane() && |prediction| == |samples| && Explained(s, samples, prediction, trades, d)
    ensures Explained(s, samples, prediction, trades + more, d)
  {
    if Tradeable(s, samples, prediction, d) {
      var i :| 0 <= i < |trades| && trades[i].decision <= d < trades[i].exit;
      assert (trades + more)[i] == trades[i];
    }
  }

  lemma AllExplainedGrows(s: Settings, samples: seq<Sample>, prediction: seq<Option<int>>, trades: seq<Trade>, more: seq<Trade>,
                          signals: seq<nat>, k: nat)
    requires s.Sane() && |prediction| == |samples| && k < |signals| && AllExplained(s, samples, prediction, trades, signals, k)
    requires Explained(s, samples, prediction, trades + more, signals[k])
    ensures AllExplained(s, samples, prediction, trades + more, signals, k + 1)
  {
    forall i | 0 <= i < k + 1 ensures Explained(s, samples, prediction, trades + more, signals[i]) {
      if i < k {
        ExplainedGrows(s, samples, prediction, trades, more, signals[i]);
      }
    }
  }

  /** A new position opens after every earlier one has closed. */
  lemma TradeFollows(trades: seq<Trade>, t: Trade)
    requires NoOverlap(trades) && t.decision <= t.entry && t.decision < t.exit
    requires trades != [] ==> trades[|trades| - 1].exit <= t.decision
    ensures NoOverlap(trades + [t])
  {
    if trades != [] {
      var last := trades[|trades| - 1];
      forall i | 0 <= i < |trades| ensures trades[i].exit <= t.decision {
        if i < |trades| - 1 {
          assert trades[i].exit <= last.decision < last.exit;
        }
      }
    }
  }

  /** A signal that finds the account busy lies inside the last position. */
  lemma SkipKeeps(s: Settings, samples: seq<Sample>, prediction: seq<Option<int>>, signals: seq<nat>, day: Day, k: nat)
    requires s.Sane() && |prediction| == |samples| && Sound(prediction, signals) && k < |signals|
    requires Kept(s, samples, prediction, signals, day, k) && !Considered(s, samples, prediction, signals, k)
    ensures Kept(s, samples, prediction, signals, day.(counters := day.counters.(overlap := day.counters.overlap + 1)), k + 1)
  {
    var last := |day.trades| - 1;
    assert day.trades[last].decision <= signals[k] < day.trades[last].exit;
    assert Explained(s, samples, prediction, day.trades, signals[k]);
  }

  /** One that does not trade only adds to its counter. */
  lemma PassKeeps(s: Settings, samples: seq<Sample>, prediction: seq<Option<int>>, signals: seq<nat>, day: Day, k: nat)
    requires s.Sane() && |prediction| == |samples| && Sound(prediction, signals) && k < |signals|
    requires Kept(s, samples, prediction, signals, day, k) && Considered(s, samples, prediction, signals, k)
    requires !FateOf(s, samples, prediction, signals[k]).BadBook? && !FateOf(s, samples, prediction, signals[k]).Traded?
    ensures Kept(s, samples, prediction, signals, day.(counters := Count(day.counters, FateOf(s, samples, prediction, signals[k]))), k + 1)
  {
    TradesIff(s, samples, prediction, signals[k]);
    AllExplainedGrows(s, samples, prediction, day.trades, [], signals, k);
    assert day.trades + [] == day.trades;
  }

  lemma TradeKeeps(s: Settings, samples: seq<Sample>, prediction: seq<Option<int>>, signals: seq<nat>, day: Day, k: nat)
    requires s.Sane() && |prediction| == |samples| && Sound(prediction, signals) && k < |signals|
    requires Kept(s, samples, prediction, signals, day, k) && Considered(s, samples, prediction, signals, k)
    requires FateOf(s, samples, prediction, signals[k]).Traded?
    ensures var f := FateOf(s, samples, prediction, signals[k]);
            Kept(s, samples, prediction, signals, Day(day.trades + [f.trade], Count(day.counters, f)), k + 1)
  {
    var t := FateOf(s, samples, prediction, signals[k]).trade;
    TradeFollows(day.trades, t);
    assert (day.trades + [t])[|day.trades|] == t;
    AllExplainedGrows(s, samples, prediction, day.trades, [t], signals, k);
    forall i | 0 <= i < |day.trades| + 1 ensures Reported(s, samples, prediction, signals, (day.trades + [t])[i]) {
      if i < |day.trades| {
        assert Reported(s, samples, prediction, signals, day.trades[i]);
      }
    }
  }

  lemma AccountStep(s: Settings, samples: seq<Sample>, prediction: seq<Option<int>>, signals: seq<nat>, k: nat)
    requires s.Sane() && |prediction| == |samples| && Sound(prediction, signals) && k < |signals|
    requires Clear(s, samples, prediction, signals, k) && !Stuck(s, samples, prediction, signals, k)
    requires Kept(s, samples, prediction, signals, Account(s, samples, prediction, signals, k), k)
    ensures Clear(s, samples, prediction, signals, k + 1)
    ensures Kept(s, samples, prediction, signals, Account(s, samples, prediction, signals, k + 1), k + 1)
  {
    var was := Account(s, samples, prediction, signals, k);
    if !Considered(s, samples, prediction, signals, k) {
      SkipKeeps(s, samples, prediction, signals, was, k);
    } else {
      NextOne(s, samples, prediction, signals, k);
      if FateOf(s, samples, prediction, signals[k]).Traded? {
        TradeKeeps(s, samples, prediction, signals, was, k);
      } else {
        PassKeeps(s, samples, prediction, signals, was, k);
      }
    }
  }

  /** The account over any number of signals. */
  lemma {:induction false} AccountKeeps(s: Settings, samples: seq<Sample>, prediction: seq<Option<int>>, signals: seq<nat>, k: nat)
    requires s.Sane() && |prediction| == |samples| && Sound(prediction, signals) && k <= |signals| && Clear(s, samples, prediction, signals, k)
    ensures Kept(s, samples, prediction, signals, Account(s, samples, prediction, signals, k), k)
  {
    if k > 0 {
      assert !Stuck(s, samples, prediction, signals, k - 1);
      AccountKeeps(s, samples, prediction, signals, k - 1);
      AccountStep(s, samples, prediction, signals, k - 1);
    }
  }

  /** A signal inside a position leaves the account as it is, but for its count. */
  lemma SkipOne(s: Settings, samples: seq<Sample>, prediction: seq<Option<int>>, signals: seq<nat>, k: nat)
    requires s.Sane() && |prediction| == |samples| && Sound(prediction, signals) && k < |signals|
    requires Clear(s, samples, prediction, signals, k)
    requires signals[k] < FreeFrom(s, samples, prediction, signals, k)
    ensures FreeFrom(s, samples, prediction, signals, k + 1) == FreeFrom(s, samples, prediction, signals, k)
    ensures Clear(s, samples, prediction, signals, k + 1)
    ensures Account(s, samples, prediction, signals, k + 1) == Busy(Account(s, samples, prediction, signals, k), 1)
  {
  }

  function Busy(day: Day, n: nat): Day {
    day.(counters := day.counters.(overlap := day.counters.overlap + n))
  }

  lemma {:induction false} Skipped(s: Settings, samples: seq<Sample>, prediction: seq<Option<int>>, signals: seq<nat>, from: nat, upto: nat,
                                   free: int, day: Day)
    requires s.Sane() && |prediction| == |samples| && Sound(prediction, signals) && from <= upto <= |signals|
    requires Clear(s, samples, prediction, signals, from) && FreeFrom(s, samples, prediction, signals, from) == free
    requires Account(s, samples, prediction, signals, from) == day && forall i | from <= i < upto :: signals[i] < free
    ensures Clear(s, samples, prediction, signals, upto) && FreeFrom(s, samples, prediction, signals, upto) == free
    ensures Account(s, samples, prediction, signals, upto) == Busy(day, upto - from)
    decreases upto - from
  {
    if from < upto {
      SkipOne(s, samples, prediction, signals, from);
      Skipped(s, samples, prediction, signals, from + 1, upto, free, Busy(day, 1));
    }
  }

  /** One turn of the loop, from a signal the account is free for to the next such signal. */
  method Turn(s: Settings, samples: seq<Sample>, prediction: seq<Option<int>>, signals: seq<nat>, day: Day, cursor: nat)
    returns (ok: bool, next: Day, after: nat)
    requires s.Sane() && |prediction| == |samples| && Sound(prediction, signals) && cursor < |signals|
    requires Considered(s, samples, prediction, signals, cursor)
    requires Clear(s, samples, prediction, signals, cursor) && day == Account(s, samples, prediction, signals, cursor)
    ensures ok <==> !Stuck(s, samples, prediction, signals, cursor)
    ensures ok ==> && cursor < after <= |signals| && Clear(s, samples, prediction, signals, after)
                   && next == Account(s, samples, prediction, signals, after)
                   && (after < |signals| ==> Considered(s, samples, prediction, signals, after))
  {
    var f := Decide(s, samples, prediction, signals[cursor]);
    next, after := day, cursor + 1;
    if f.BadBook? {
      return false, day, cursor;
    }
    NextOne(s, samples, prediction, signals, cursor);
    if !f.Traded? {
      return true, Day(day.trades, Count(day.counters, f)), cursor + 1;
    }
    after := SearchSorted(signals, f.trade.exit, cursor + 1);
    var traded := Day(day.trades + [f.trade], Count(day.counters, f));
    Skipped(s, samples, prediction, signals, cursor + 1, after, f.trade.exit, traded);
    return true, Busy(traded, after - cursor - 1), after;
  }

  /** The account right after a signal it was free for. */
  lemma NextOne(s: Settings, samples: seq<Sample>, prediction: seq<Option<int>>, signals: seq<nat>, k: nat)
    requires s.Sane() && |prediction| == |samples| && Sound(prediction, signals) && k < |signals|
    requires Considered(s, samples, prediction, signals, k) && Clear(s, samples, prediction, signals, k)
    requires !FateOf(s, samples, prediction, signals[k]).BadBook?
    ensures Clear(s, samples, prediction, signals, k + 1)
    ensures var was, f := Account(s, samples, prediction, signals, k), FateOf(s, samples, prediction, signals[k]);
            && Account(s, samples, prediction, signals, k + 1)
               == Day(if f.Traded? then was.trades + [f.trade] else was.trades, Count(was.counters, f))
            && FreeFrom(s, samples, prediction, signals, k + 1) == (if f.Traded? then f.trade.exit else FreeFrom(s, samples, prediction, signals, k))
            && (f.Traded? ==> f.trade.exit > signals[k])
  {
    var was := Account(s, samples, prediction, signals, k);
    assert was.trades + [] == was.trades;
  }

  method RunSignals(s: Settings, samples: seq<Sample>, prediction: seq<Option<int>>, signals: seq<nat>) returns (ok: bool, day: Day)
    requires s.Sane() && |prediction| == |samples| && Sound(prediction, signals)
    ensures ok <==> Clear(s, samples, prediction, signals, |signals|)
    ensures ok ==> day == Account(s, samples, prediction, signals, |signals|)
  {
    day := Day([], Counters(|signals|, 0, 0, 0, 0, 0, 0, 0));
    var cursor: nat := 0;
    while cursor < |signals|
      invariant cursor <= |signals| && Clear(s, samples, prediction, signals, cursor)
      invariant day == Account(s, samples, prediction, signals, cursor)
      invariant cursor < |signals| ==> Considered(s, samples, prediction, signals, cursor)
    {
      var at := cursor;
      ok, day, cursor := Turn(s, samples, prediction, signals, day, cursor);
      if !ok {
        assert Stuck(s, samples, prediction, signals, at);
        return;
      }
    }
    ok := true;
  }

  ghost predicate Acceptable(samples: seq<Sample>, prediction: seq<Option<int>>, s: Settings) {
    s.Sane() && |prediction| == |samples|
  }

  /** The signals of a day are sound. */
  lemma SignalsSound(prediction: seq<Option<int>>, threshold: int)
    ensures Sound(prediction, Signals(prediction, threshold, |prediction|))
  {
  }

  /** The whole day. It fails exactly on unacceptable input, or when a signal the account is free for meets a
      book out of order; otherwise the report is the account of all signals: positions never overlap, each
      trade is a signal's own at its own cost, every signal is counted in exactly one way, and no tradeable
      signal is passed over except inside an open position. */
  method RunDay(samples: seq<Sample>, prediction: seq<Option<int>>, s: Settings) returns (r: Result<Day>)
    ensures r.Err? <==> !Acceptable(samples, prediction, s) || (s.latencyMs < s.horizonMs && Blocked(samples, prediction, s))
    ensures r.Ok? && s.latencyMs < s.horizonMs ==>
              (var signals := Signals(prediction, s.threshold, |prediction|);
               && Sound(prediction, signals) && Clear(s, samples, prediction, signals, |signals|)
               && r.value == Account(s, samples, prediction, signals, |signals|)
               && Kept(s, samples, prediction, signals, r.value, |signals|))
    ensures r.Ok? && s.latencyMs >= s.horizonMs ==>
              r.value.trades == [] && r.value.counters.latency == r.value.counters.signals
              && r.value.counters.signals == |Signals(prediction, s.threshold, |prediction|)| == Sum(r.value.counters)
  {
    if |prediction| != |samples| {
      return Err("prediction length does not match execution day");
    }
    if s.horizonMs <= 0 || s.horizonMs % 100 != 0 || s.latencyMs < 0 {
      return Err("horizon must align to 100ms and latency must be non-negative");
    }
    if s.threshold < 0 {
      return Err("prediction threshold must be non-negative");
    }
    var signals := Signals(prediction, s.threshold, |prediction|);
    if s.latencyMs >= s.horizonMs {
      return Ok(Day([], Counters(|signals|, |signals|, 0, 0, 0, 0, 0, 0)));
    }
    SignalsSound(prediction, s.threshold);
    var ok, day := RunSignals(s, samples, prediction, signals);
    if !ok {
      return Err("book prices are out of order");
    }
    AccountKeeps(s, samples, prediction, signals, |signals|);
    r := Ok(day);
  }

  ghost predicate Blocked(samples: seq<Sample>, prediction: seq<Option<int>>, s: Settings)
    requires Acceptable(samples, prediction, s)
  {
    var signals := Signals(prediction, s.threshold, |prediction|);
    Sound(prediction, signals) && !Clear(s, samples, prediction, signals, |signals|)
  }
}
