/** The causal daily grid (cpp/research/tardis_daily_exporter.cpp:91-159, 255-290; cpp/historical/tardis_trade_reader.cpp:
    100-166): one row per instant, holding nothing later than its own stamp. */
module DailyGrid {

  datatype Side = BuySide | SellSide | UnknownSide
  datatype Trade = Trade(stamp: nat, local: nat, side: Side, price: int, qty: int)
  datatype Bucket = Bucket(buyQty: int, sellQty: int, buyNotional: int, sellNotional: int, buys: nat, sells: nat, trades: nat, latest: nat)

  const EMPTY := Bucket(0, 0, 0, 0, 0, 0, 0, 0)

  /** The instant of a row. */
  function Tick(start: nat, step: nat, k: nat): nat {
    start + k * step
  }

  lemma TickNext(start: nat, step: nat, k: nat)
    ensures Tick(start, step, k + 1) == Tick(start, step, k) + step
  {
  }

  /** The bucket of an in-day stamp: the first instant at or after it. */
  function BucketOf(start: nat, step: nat, stamp: nat): nat
    requires start <= stamp && step > 0
  {
    (stamp - start + step - 1) / step
  }

  /** Bucket k covers exactly the stamps after the instant before it, up to its own. */
  lemma BucketIsInterval(start: nat, step: nat, stamp: nat, k: nat)
    requires start <= stamp && step > 0
    ensures BucketOf(start, step, stamp) == k <==> stamp <= Tick(start, step, k) && (k > 0 ==> stamp > Tick(start, step, k - 1))
  {
    var offset := stamp - start;
    var q := (offset + step - 1) / step;
    Ceiling(offset, step, q);
    if k > 0 {
      TickNext(start, step, k - 1);
    }
    if q < k {
      Multiply(q, k - 1, step);
    } else if q > k {
      Multiply(k, q - 1, step);
    }
  }

  lemma Ceiling(offset: nat, step: nat, q: nat)
    requires step > 0 && q == (offset + step - 1) / step
    ensures offset <= q * step && (q > 0 ==> (q - 1) * step < offset) && (q == 0 ==> offset == 0)
  {
    var r := (offset + step - 1) % step;
    assert offset + step - 1 == q * step + r;
    if q > 0 {
      assert (q - 1) * step == q * step - step;
    }
  }

  lemma Multiply(a: nat, b: nat, step: nat)
    requires a <= b
    ensures a * step <= b * step
  {
  }

  /** What a trade adds to its bucket. */
  function Added(b: Bucket, t: Trade): Bucket {
    var counted := b.(trades := b.trades + 1, latest := t.stamp);
    match t.side
    case BuySide => counted.(buyQty := b.buyQty + t.qty, buyNotional := b.buyNotional + t.price * t.qty, buys := b.buys + 1)
    case SellSide => counted.(sellQty := b.sellQty + t.qty, sellNotional := b.sellNotional + t.price * t.qty, sells := b.sells + 1)
    case UnknownSide => counted
  }

  /** A stamp inside the day that some row still ahead will carry. */
  predicate Inside(start: nat, end: nat, step: nat, size: nat, stamp: nat)
    requires step > 0
  {
    start <= stamp < end && BucketOf(start, step, stamp) < size
  }

  /** Bucket k as it should be: the first n trades in its interval, in order. */
  ghost function BucketSpec(trades: seq<Trade>, start: nat, end: nat, step: nat, size: nat, k: nat, n: nat): Bucket
    requires n <= |trades| && step > 0
  {
    if n == 0 then EMPTY
    else
      var t := trades[n - 1];
      var before := BucketSpec(trades, start, end, step, size, k, n - 1);
      if Inside(start, end, step, size, t.stamp) && t.stamp <= Tick(start, step, k) && (k > 0 ==> t.stamp > Tick(start, step, k - 1))
      then Added(before, t) else before
  }

  /** Trade j belongs to row k: inside the day, after the instant before the row's, and not after its own. */
  predicate Belongs(trades: seq<Trade>, start: nat, end: nat, step: nat, k: nat, j: nat)
    requires j < |trades|
  {
    start <= trades[j].stamp < end && trades[j].stamp <= start + k * step && (k > 0 ==> trades[j].stamp > start + (k - 1) * step)
  }

  /** The quantity, the notional and the number of the trades of row k on a side, among the first n. */
  ghost function Lots(trades: seq<Trade>, start: nat, end: nat, step: nat, k: nat, side: Side, n: nat): int
    requires n <= |trades|
  {
    if n == 0 then 0
    else Lots(trades, start, end, step, k, side, n - 1)
         + if Belongs(trades, start, end, step, k, n - 1) && trades[n - 1].side == side then trades[n - 1].qty else 0
  }

  ghost function Value(trades: seq<Trade>, start: nat, end: nat, step: nat, k: nat, side: Side, n: nat): int
    requires n <= |trades|
  {
    if n == 0 then 0
    else Value(trades, start, end, step, k, side, n - 1)
         + if Belongs(trades, start, end, step, k, n - 1) && trades[n - 1].side == side then trades[n - 1].price * trades[n - 1].qty else 0
  }

  ghost function Number(trades: seq<Trade>, start: nat, end: nat, step: nat, k: nat, side: Side, n: nat): nat
    requires n <= |trades|
  {
    if n == 0 then 0
    else Number(trades, start, end, step, k, side, n - 1)
         + if Belongs(trades, start, end, step, k, n - 1) && trades[n - 1].side == side then 1 else 0
  }

  /** The stamp of the last of them. */
  ghost function Latest(trades: seq<Trade>, start: nat, end: nat, step: nat, k: nat, n: nat): nat
    requires n <= |trades|
  {
    if n == 0 then 0
    else if Belongs(trades, start, end, step, k, n - 1) then trades[n - 1].stamp else Latest(trades, start, end, step, k, n - 1)
  }

  /** A row sums up the trades of its interval, side by side; those of unknown side are only counted. */
  ghost predicate SumsUp(b: Bucket, trades: seq<Trade>, start: nat, end: nat, step: nat, k: nat, n: nat)
    requires n <= |trades|
  {
    && b.buyQty == Lots(trades, start, end, step, k, BuySide, n) && b.sellQty == Lots(trades, start, end, step, k, SellSide, n)
    && b.buyNotional == Value(trades, start, end, step, k, BuySide, n) && b.sellNotional == Value(trades, start, end, step, k, SellSide, n)
    && b.buys == Number(trades, start, end, step, k, BuySide, n) && b.sells == Number(trades, start, end, step, k, SellSide, n)
    && b.trades == b.buys + b.sells + Number(trades, start, end, step, k, UnknownSide, n) && b.latest == Latest(trades, start, end, step, k, n)
  }

  lemma {:induction false} BucketSumsUp(trades: seq<Trade>, start: nat, end: nat, step: nat, size: nat, k: nat, n: nat)
    requires n <= |trades| && step > 0 && k < size
    ensures SumsUp(BucketSpec(trades, start, end, step, size, k, n), trades, start, end, step, k, n)
  {
    if n > 0 {
      BucketSumsUp(trades, start, end, step, size, k, n - 1);
      var t := trades[n - 1];
      if start <= t.stamp < end && t.stamp <= Tick(start, step, k) && (k > 0 ==> t.stamp > Tick(start, step, k - 1)) {
        BucketIsInterval(start, step, t.stamp, k);
      }
    }
  }

  function TradeCount(buckets: seq<Bucket>, n: nat): nat
    requires n <= |buckets|
  {
    if n == 0 then 0 else TradeCount(buckets, n - 1) + buckets[n - 1].trades
  }

  lemma {:induction false} CountUpdated(buckets: seq<Bucket>, k: nat, b: Bucket, n: nat)
    requires k < |buckets| && n <= |buckets|
    ensures TradeCount(buckets[k := b], n) == TradeCount(buckets, n) + if k < n then b.trades - buckets[k].trades else 0
  {
    if n > 0 {
      CountUpdated(buckets, k, b, n - 1);
    }
  }

  lemma {:induction false} CountEmpty(buckets: seq<Bucket>, n: nat)
    requires n <= |buckets| && forall k | 0 <= k < n :: buckets[k].trades == 0
    ensures TradeCount(buckets, n) == 0
  {
    if n > 0 {
      CountEmpty(buckets, n - 1);
    }
  }

  /** read_tardis_trade_day: every trade lands in the bucket of its interval or is counted as outside. It
      fails exactly on a grid that does not divide the day and on a file without rows. */
  method ReadTradeDay(trades: seq<Trade>, start: nat, end: nat, step: nat) returns (ok: bool, buckets: seq<Bucket>, outside: nat)
    ensures ok <==> start < end && step > 0 && (end - start) % step == 0 && trades != []
    ensures ok ==> |buckets| == (end - start) / step
    ensures ok ==> forall k | 0 <= k < |buckets| :: buckets[k] == BucketSpec(trades, start, end, step, |buckets|, k, |trades|)
    ensures ok ==> forall k | 0 <= k < |buckets| :: SumsUp(buckets[k], trades, start, end, step, k, |trades|)
    ensures ok ==> TradeCount(buckets, |buckets|) + outside == |trades|
  {
    if end <= start || step == 0 || (end - start) % step != 0 {
      return false, [], 0;
    }
    buckets, outside := FillBuckets(trades, start, end, step);
    forall k | 0 <= k < |buckets| ensures SumsUp(buckets[k], trades, start, end, step, k, |trades|) {
      BucketSumsUp(trades, start, end, step, |buckets|, k, |trades|);
    }
    ok := trades != [];
  }

  method FillBuckets(trades: seq<Trade>, start: nat, end: nat, step: nat) returns (buckets: seq<Bucket>, outside: nat)
    requires step > 0 && start < end && (end - start) % step == 0
    ensures |buckets| == (end - start) / step
    ensures forall k | 0 <= k < |buckets| :: buckets[k] == BucketSpec(trades, start, end, step, |buckets|, k, |trades|)
    ensures TradeCount(buckets, |buckets|) + outside == |trades|
  {
    var size := (end - start) / step;
    buckets, outside := seq(size, _ => EMPTY), 0;
    CountEmpty(buckets, size);
    var i := 0;
    while i < |trades|
      invariant 0 <= i <= |trades| && |buckets| == size && TradeCount(buckets, size) + outside == i
      invariant forall k | 0 <= k < size :: buckets[k] == BucketSpec(trades, start, end, step, size, k, i)
    {
      var t := trades[i];
      if t.stamp < start || t.stamp >= end {
        outside := outside + 1;
      } else {
        var index := BucketOf(start, step, t.stamp);
        OneBucket(start, step, t.stamp, size);
        if index >= size {
          outside := outside + 1;
        } else {
          CountUpdated(buckets, index, Added(buckets[index], t), size);
          buckets := buckets[index := Added(buckets[index], t)];
        }
      }
      i := i + 1;
    }
  }

  lemma OneBucket(start: nat, step: nat, stamp: nat, size: nat)
    requires start <= stamp && step > 0
    ensures forall k: nat {:trigger Tick(start, step, k)} | k < size ::
              k == BucketOf(start, step, stamp) <==> stamp <= Tick(start, step, k) && (k > 0 ==> stamp > Tick(start, step, k - 1))
  {
    forall k: nat | k < size
      ensures k == BucketOf(start, step, stamp) <==> stamp <= Tick(start, step, k) && (k > 0 ==> stamp > Tick(start, step, k - 1))
    {
      BucketIsInterval(start, step, stamp, k);
    }
  }
}
