/** The trade-by-trade meaning of a hypothetical resting order, shared by the fill engines.
    An order rests at `quote` behind `queue` lots from `placement` to `end` (both exclusive). A print
    at the quote eats the queue and then the order; a print beyond it fills the order outright. Nothing
    after the resolving print counts. */
module FillModel {
  import opened Wrappers
  import opened ExtremeTrees

  datatype Trade = Trade(exchangeTime: nat, localTime: nat, ordinal: nat, price: int, qty: int)

  /** `findLess` tells a resting bid (hit by lower prints) from a resting ask. */
  datatype Query = Query(findLess: bool, quote: int, order: int, queue: int, placement: nat, end: nat) {
    predicate Valid() {
      quote > 0 && IsInt64(quote) && order > 0 && queue >= 0 && placement < end
    }

    predicate Inside(t: Trade) {
      placement < t.localTime < end
    }

    predicate Through(t: Trade) {
      Beyond(findLess, t.price, quote)
    }
  }

  datatype Progress = Progress(volume: int, count: int, first: Option<Trade>, full: Option<Trade>, through: bool)

  const START := Progress(0, 0, None, None, false)

  /** What one print of the opposite aggressor does to the order. */
  function Step(s: Progress, t: Trade, q: Query): Progress {
    if s.full.Some? || !q.Inside(t) then s
    else if q.Through(t) then
      Progress(s.volume, s.count + 1, if s.first.Some? then s.first else Some(t), Some(t), true)
    else if t.price == q.quote then
      var volume := s.volume + t.qty;
      Progress(volume, s.count + 1,
               if s.first.None? && volume > q.queue then Some(t) else s.first,
               if volume >= q.queue + q.order then Some(t) else None,
               false)
    else s
  }

  /** The order after the first i prints. */
  ghost function Run(ts: seq<Trade>, q: Query, i: nat): Progress
    requires i <= |ts|
  {
    if i == 0 then START else Step(Run(ts, q, i - 1), ts[i - 1], q)
  }

  function Clamp(x: int, lo: int, hi: int): int {
    if x < lo then lo else if x > hi then hi else x
  }

  function FilledLots(s: Progress, q: Query): int {
    if s.full.Some? then q.order else Clamp(s.volume - q.queue, 0, q.order)
  }

  /** Prints arrive in local-time order, with ever larger source ordinals and positive sizes. */
  ghost predicate Ordered(ts: seq<Trade>) {
    && (forall i, j | 0 <= i < j < |ts| :: ts[i].localTime <= ts[j].localTime && ts[i].ordinal < ts[j].ordinal)
    && (forall i | 0 <= i < |ts| :: ts[i].qty > 0)
  }

  /** Number and volume of the first i prints that are exactly at price p. */
  ghost function Cnt(ts: seq<Trade>, p: int, i: nat): nat
    requires i <= |ts|
  {
    if i == 0 then 0 else Cnt(ts, p, i - 1) + if ts[i - 1].price == p then 1 else 0
  }

  ghost function Vol(ts: seq<Trade>, p: int, i: nat): int
    requires i <= |ts|
  {
    if i == 0 then 0 else Vol(ts, p, i - 1) + if ts[i - 1].price == p then ts[i - 1].qty else 0
  }

  lemma {:induction false} Monotone(ts: seq<Trade>, p: int, i: nat, j: nat)
    requires Ordered(ts) && i <= j <= |ts|
    ensures Vol(ts, p, i) <= Vol(ts, p, j) && Cnt(ts, p, i) <= Cnt(ts, p, j)
    ensures Vol(ts, p, i) == Vol(ts, p, j) <==> Cnt(ts, p, i) == Cnt(ts, p, j)
    ensures i < j && ts[i].price == p ==> Cnt(ts, p, i) < Cnt(ts, p, j)
  {
    if i < j {
      Monotone(ts, p, i, j - 1);
    }
  }

  /** [b, e) are the positions of the prints strictly inside the order's life. */
  ghost predicate Window(ts: seq<Trade>, q: Query, b: nat, e: nat) {
    && b <= e <= |ts|
    && (forall i | 0 <= i < b :: ts[i].localTime <= q.placement)
    && (forall i | b <= i < e :: q.Inside(ts[i]))
    && (forall i | e <= i < |ts| :: q.end <= ts[i].localTime)
  }

  lemma {:induction false} RunBeforeWindow(ts: seq<Trade>, q: Query, b: nat, e: nat, i: nat)
    requires Window(ts, q, b, e) && i <= b
    ensures Run(ts, q, i) == START
  {
    if i > 0 {
      RunBeforeWindow(ts, q, b, e, i - 1);
    }
  }

  lemma {:induction false} RunAfterWindow(ts: seq<Trade>, q: Query, b: nat, e: nat, i: nat)
    requires Window(ts, q, b, e) && e <= i <= |ts|
    ensures Run(ts, q, i) == Run(ts, q, e)
  {
    if i > e {
      RunAfterWindow(ts, q, b, e, i - 1);
    }
  }

  lemma {:induction false} RunAfterFull(ts: seq<Trade>, q: Query, r: nat, i: nat)
    requires r <= i <= |ts| && Run(ts, q, r).full.Some?
    ensures Run(ts, q, i) == Run(ts, q, r)
  {
    if i > r {
      RunAfterFull(ts, q, r, i - 1);
    }
  }

  /** Position g is where the queue runs out: the first print at the quote that reaches the order. */
  ghost predicate Crossing(ts: seq<Trade>, q: Query, b: nat, target: int, g: nat)
    requires b <= |ts|
  {
    && b <= g < |ts| && ts[g].price == q.quote
    && Vol(ts, q.quote, g) - Vol(ts, q.quote, b) < target <= Vol(ts, q.quote, g + 1) - Vol(ts, q.quote, b)
  }

  /** Nothing in [b, i) goes through the quote or completes the order. */
  ghost predicate Unresolved(ts: seq<Trade>, q: Query, b: nat, i: nat)
    requires b <= i <= |ts|
  {
    && (forall j | b <= j < i :: !q.Through(ts[j]))
    && Vol(ts, q.quote, i) - Vol(ts, q.quote, b) < q.queue + q.order
  }

  /** While the order is unresolved its progress is a volume, a count and the crossing of the queue.
      `g` is that crossing, or any position from i on when the queue has not run out by then. */
  lemma {:induction false} RunUnresolved(ts: seq<Trade>, q: Query, b: nat, e: nat, i: nat, g: nat)
    requires q.Valid() && Ordered(ts) && Window(ts, q, b, e) && b <= i <= e
    requires Unresolved(ts, q, b, i)
    requires if g < i then Crossing(ts, q, b, q.queue + 1, g)
             else Vol(ts, q.quote, i) - Vol(ts, q.quote, b) <= q.queue
    ensures Run(ts, q, i) == Progress(Vol(ts, q.quote, i) - Vol(ts, q.quote, b), Cnt(ts, q.quote, i) - Cnt(ts, q.quote, b),
                                      if g < i then Some(ts[g]) else None, None, false)
    decreases i
  {
    if i == b {
      RunBeforeWindow(ts, q, b, e, b);
    } else {
      Monotone(ts, q.quote, b, i - 1);
      Monotone(ts, q.quote, i - 1, i);
      RunUnresolved(ts, q, b, e, i - 1, g);
    }
  }

  /** The order resolved by the print at r. */
  lemma RunResolved(ts: seq<Trade>, q: Query, b: nat, e: nat, r: nat, g: nat)
    requires q.Valid() && Ordered(ts) && Window(ts, q, b, e) && b <= r < e
    requires Unresolved(ts, q, b, r)
    requires q.Through(ts[r]) || Crossing(ts, q, b, q.queue + q.order, r)
    requires if g < r then Crossing(ts, q, b, q.queue + 1, g)
             else Vol(ts, q.quote, r) - Vol(ts, q.quote, b) <= q.queue
    ensures var s := Run(ts, q, |ts|);
            var through := q.Through(ts[r]);
            && s.volume == Vol(ts, q.quote, if through then r else r + 1) - Vol(ts, q.quote, b)
            && s.count == Cnt(ts, q.quote, if through then r else r + 1) - Cnt(ts, q.quote, b) + (if through then 1 else 0)
            && s.first == (if g < r then Some(ts[g]) else Some(ts[r]))
            && s.full == Some(ts[r]) && s.through == through
  {
    Monotone(ts, q.quote, b, r);
    RunUnresolved(ts, q, b, e, r, g);
    RunAfterFull(ts, q, r + 1, |ts|);
  }
}
