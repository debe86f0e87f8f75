/** What the evaluation of a hypothetical resting order has to say, field by field, in terms of the prints of
    the opposite aggressor alone (cpp/research/passive_queue.hpp, cpp/research/passive_queue.cpp:185-343,
    cpp/tests/test_main.cpp). */
module FillAnswers {
  import opened Wrappers
  import opened ExtremeTrees
  import opened FillModel

  const NO_ORDINAL: nat := 0xFFFF_FFFF_FFFF_FFFF

  datatype FillState = Unfilled | Partial | Full

  datatype Outcome = Outcome(
    state: FillState, queueInitial: int, queueConsumed: int, samePriceTraded: int, filled: int, qualifying: int,
    firstExchange: nat, firstLocal: nat, fullExchange: nat, fullLocal: nat, firstOrdinal: nat, fullOrdinal: nat,
    throughPrice: int, byTradeThrough: bool)

  function ExchangeOf(t: Option<Trade>): nat { if t.Some? then t.value.exchangeTime else 0 }
  function LocalOf(t: Option<Trade>): nat { if t.Some? then t.value.localTime else 0 }
  function OrdinalOf(t: Option<Trade>): nat { if t.Some? then t.value.ordinal else NO_ORDINAL }

  /** The outcome record of an order whose trade-by-trade progress is `s`. */
  function Report(s: Progress, q: Query): Outcome {
    var filled := FilledLots(s, q);
    Outcome(if filled == q.order then Full else if filled > 0 then Partial else Unfilled,
            q.queue, if s.through then q.queue else Min(q.queue, s.volume), s.volume, filled, s.count,
            ExchangeOf(s.first), LocalOf(s.first), ExchangeOf(s.full), LocalOf(s.full), OrdinalOf(s.first), OrdinalOf(s.full),
            if s.through && s.full.Some? then s.full.value.price else 0, s.through)
  }

  /** Print j counts: it falls strictly between placement and end, at the quote or beyond it. */
  predicate Counts(ts: seq<Trade>, q: Query, j: nat)
    requires j < |ts|
  {
    q.placement < ts[j].localTime < q.end && (ts[j].price == q.quote || Past(ts, q, j))
  }

  /** It went through the quote: below a bid, above an ask. */
  predicate Past(ts: seq<Trade>, q: Query, j: nat)
    requires j < |ts|
  {
    if q.findLess then ts[j].price < q.quote else ts[j].price > q.quote
  }

  /** The lots printed exactly at the quote among the first n, and the number of prints that count. */
  ghost function Lots(ts: seq<Trade>, q: Query, n: nat): int
    requires n <= |ts|
  {
    if n == 0 then 0
    else Lots(ts, q, n - 1) + if Counts(ts, q, n - 1) && ts[n - 1].price == q.quote then ts[n - 1].qty else 0
  }

  ghost function Number(ts: seq<Trade>, q: Query, n: nat): nat
    requires n <= |ts|
  {
    if n == 0 then 0 else Number(ts, q, n - 1) + if Counts(ts, q, n - 1) then 1 else 0
  }

  /** With print j more than `lots` lots have reached the quote, or the print went through it. */
  ghost predicate GetsPast(ts: seq<Trade>, q: Query, lots: int, j: nat)
    requires j < |ts|
  {
    Counts(ts, q, j) && (Past(ts, q, j) || Lots(ts, q, j + 1) > lots)
  }

  /** The first of n prints to do so. */
  ghost function FirstPast(ts: seq<Trade>, q: Query, lots: int, n: nat): (f: Option<nat>)
    requires n <= |ts|
    ensures f.Some? ==> f.value < n && GetsPast(ts, q, lots, f.value)
    ensures forall j | 0 <= j < (if f.Some? then f.value else n) :: !GetsPast(ts, q, lots, j)
  {
    if n == 0 then None
    else
      var before := FirstPast(ts, q, lots, n - 1);
      if before.Some? then before else if GetsPast(ts, q, lots, n - 1) then Some(n - 1) else None
  }

  /** The print that reaches the order, and the one that completes it. */
  ghost function Starter(ts: seq<Trade>, q: Query, n: nat): Option<nat>
    requires n <= |ts|
  {
    FirstPast(ts, q, q.queue, n)
  }

  ghost function Completer(ts: seq<Trade>, q: Query, n: nat): Option<nat>
    requires n <= |ts|
  {
    FirstPast(ts, q, q.queue + q.order - 1, n)
  }

  /** How many prints there are until it is complete. */
  ghost function Until(ts: seq<Trade>, q: Query): (n: nat)
    ensures n <= |ts|
  {
    var f := Completer(ts, q, |ts|);
    if f.Some? then f.value + 1 else |ts|
  }

  ghost predicate StampedBy(exchange: nat, local: nat, ordinal: nat, ts: seq<Trade>, f: Option<nat>)
    requires f.Some? ==> f.value < |ts|
  {
    if f.Some? then exchange == ts[f.value].exchangeTime && local == ts[f.value].localTime && ordinal == ts[f.value].ordinal
    else exchange == 0 && local == 0 && ordinal == NO_ORDINAL
  }

  /** The answer. The order is full when some print completes it; else it got what the level printed beyond
      its queue, if anything. Nothing after the completing print is counted. A print through the quote takes
      the whole queue with it. */
  ghost predicate Answers(o: Outcome, ts: seq<Trade>, q: Query) {
    var f, n := Completer(ts, q, |ts|), Until(ts, q);
    var lots, through := Lots(ts, q, n), f.Some? && Past(ts, q, f.value);
    && (o.state == Full <==> f.Some?) && (o.state == Partial <==> f.None? && lots > q.queue)
    && o.filled == (if f.Some? then q.order else if lots > q.queue then lots - q.queue else 0)
    && o.queueInitial == q.queue && o.queueConsumed == (if through || lots > q.queue then q.queue else lots)
    && o.samePriceTraded == lots && o.qualifying == Number(ts, q, n)
    && StampedBy(o.firstExchange, o.firstLocal, o.firstOrdinal, ts, Starter(ts, q, n))
    && StampedBy(o.fullExchange, o.fullLocal, o.fullOrdinal, ts, f)
    && o.throughPrice == (if through then ts[f.value].price else 0) && (o.byTradeThrough <==> through)
  }

  function PrintOf(ts: seq<Trade>, f: Option<nat>): Option<Trade>
    requires f.Some? ==> f.value < |ts|
  {
    if f.Some? then Some(ts[f.value]) else None
  }

  /** Where the walk stands once n prints are seen, nothing being counted after the one that completes the
      order. */
  ghost predicate Stands(s: Progress, ts: seq<Trade>, q: Query, n: nat)
    requires n <= |ts|
  {
    var f := Completer(ts, q, n);
    var k := if f.Some? then f.value + 1 else n;
    && s.volume == Lots(ts, q, k) && s.count == Number(ts, q, k) && s.first == PrintOf(ts, Starter(ts, q, k))
    && s.full == PrintOf(ts, f) && s.through == (f.Some? && Past(ts, q, f.value))
    && (f.None? ==> s.volume < q.queue + q.order)
  }

  lemma {:induction false} WalkStands(ts: seq<Trade>, q: Query, n: nat)
    requires q.Valid() && n <= |ts|
    ensures Stands(Run(ts, q, n), ts, q, n)
  {
    if n > 0 {
      WalkStands(ts, q, n - 1);
    }
  }

  /** The report of the walk says all of it, */
  lemma ReportAnswers(ts: seq<Trade>, q: Query)
    requires q.Valid()
    ensures Answers(Report(Run(ts, q, |ts|), q), ts, q)
  {
    WalkStands(ts, q, |ts|);
  }

  /** and nothing else would. */
  lemma AnswerIsUnique(o: Outcome, p: Outcome, ts: seq<Trade>, q: Query)
    requires Answers(o, ts, q) && Answers(p, ts, q)
    ensures o == p
  {
  }
}
