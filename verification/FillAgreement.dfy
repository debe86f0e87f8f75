/** Three engines, one answer. For an order whose whole life lies in one segment, the streaming fill of
    the native dataset (cpp/research/native_dataset_exporter.cpp:911-978), the alpha = 100, beta = 0
    cell of the queue grid (cpp/research/queue_sensitivity.cpp:292-430) and the indexed evaluation
    (cpp/research/passive_queue.cpp:185-343) agree on filled lots, fill time and trade-through. */
module FillAgreement {
  import opened FillModel
  import opened FillAnswers
  import PassiveQueue
  import opened PassiveIndex
  import opened QueueGrid

  /** The passive half of a pending native row. */
  datatype NativeSide = NativeSide(quote: int, queue: int, consumed: int, fullFilled: bool, byThrough: bool, fullNs: nat)

  /** One aggressive print seen by a row placed at `ns` whose fill horizon is `horizon`. */
  function NativePrint(s: NativeSide, bid: bool, ns: nat, horizon: nat, lots: int, local: nat, t: Print): NativeSide {
    if t.aggressiveBuy == bid || ns >= local || ns + horizon <= local || s.fullFilled then s
    else if (if bid then t.price > s.quote else t.price < s.quote) then s
    else
      var through := t.price != s.quote;
      var consumed := if through then s.queue + lots else s.consumed + t.qty;
      var full := consumed >= s.queue + lots;
      s.(consumed := consumed, byThrough := s.byThrough || through, fullFilled := full,
         fullNs := if full then local else s.fullNs)
  }

  function NativeFilled(s: NativeSide, lots: int): int {
    Clamp(s.consumed - s.queue, 0, lots)
  }

  ghost function RunNative(s: NativeSide, bid: bool, ns: nat, horizon: nat, lots: int, es: seq<OrderEvent>, n: nat): NativeSide
    requires n <= |es|
  {
    if n == 0 then s
    else
      var was := RunNative(s, bid, ns, horizon, lots, es, n - 1);
      if es[n - 1].Printed? then NativePrint(was, bid, ns, horizon, lots, es[n - 1].ns, es[n - 1].trade) else was
  }

  /** The prints of the run as rows of a trade file. */
  ghost function Rows(es: seq<OrderEvent>, n: nat): seq<PassiveQueue.TardisTrade>
    requires n <= |es|
  {
    if n == 0 then []
    else if es[n - 1].Printed? then
      Rows(es, n - 1) + [PassiveQueue.TardisTrade(
        es[n - 1].exchangeTime, es[n - 1].ns, if es[n - 1].trade.aggressiveBuy then PassiveQueue.Buy else PassiveQueue.Sell,
        es[n - 1].trade.price, es[n - 1].trade.qty)]
    else Rows(es, n - 1)
  }

  lemma {:induction false} HistoryPrefix(h: seq<PassiveQueue.TardisTrade>, row: PassiveQueue.TardisTrade,
                                         a: PassiveQueue.Aggressor, q: Query, n: nat)
    requires n <= |h|
    ensures HistoryRun(h + [row], a, q, n) == HistoryRun(h, a, q, n)
  {
    if n > 0 {
      HistoryPrefix(h, row, a, q, n - 1);
    }
  }

  function Opposite(bid: bool): PassiveQueue.Aggressor {
    if bid then PassiveQueue.Sell else PassiveQueue.Buy
  }

  /** The order's trade-by-trade progress over the run. */
  ghost function Walk(es: seq<OrderEvent>, q: Query, n: nat): Progress
    requires n <= |es|
  {
    HistoryRun(Rows(es, n), Opposite(q.findLess), q, |Rows(es, n)|)
  }

  lemma WalkStep(es: seq<OrderEvent>, q: Query, n: nat)
    requires 0 < n <= |es|
    ensures Walk(es, q, n) ==
            if es[n - 1].Printed? && es[n - 1].trade.aggressiveBuy != q.findLess
            then Step(Walk(es, q, n - 1),
                      Trade(es[n - 1].exchangeTime, es[n - 1].ns, |Rows(es, n - 1)|, es[n - 1].trade.price, es[n - 1].trade.qty), q)
            else Walk(es, q, n - 1)
  {
    if es[n - 1].Printed? {
      var h := Rows(es, n - 1);
      HistoryPrefix(h, Rows(es, n)[|h|], Opposite(q.findLess), q, |h|);
      assert Rows(es, n) == h + [Rows(es, n)[|h|]];
    }
  }

  /** What the streaming row must hold when the walk stands at s. */
  ghost predicate NativeMatches(x: NativeSide, s: Progress, q: Query) {
    && x.quote == q.quote && x.queue == q.queue
    && x.fullFilled == s.full.Some? && x.byThrough == s.through
    && (s.full.Some? ==> x.fullNs == s.full.value.localTime && x.consumed >= q.queue + q.order)
    && (s.full.None? ==> !s.through && x.consumed == s.volume < q.queue + q.order && x.fullNs == 0)
  }

  lemma {:induction false} NativeFollowsWalk(x: NativeSide, q: Query, es: seq<OrderEvent>, n: nat)
    requires q.Valid() && n <= |es| && NativeMatches(x, START, q)
    ensures NativeMatches(RunNative(x, q.findLess, q.placement, q.end - q.placement, q.order, es, n), Walk(es, q, n), q)
  {
    if n > 0 {
      NativeFollowsWalk(x, q, es, n - 1);
      WalkStep(es, q, n);
    }
  }

  /** What the most conservative cell must hold when the walk stands at s. */
  ghost predicate CellMatches(c: Cell, s: Progress, q: Query) {
    && c.filled == FilledLots(s, q)
    && (c.mechanism != NotFilled <==> s.full.Some?)
    && (s.full.Some? ==> c.remaining == 0 && c.fillNs == s.full.value.localTime && (c.mechanism == TradeThrough <==> s.through))
    && (s.full.None? ==> !s.through && c.fillNs == 0 && 0 <= s.volume < q.queue + q.order
                         && c.remaining == if s.volume < q.queue then q.queue - s.volume else 0)
  }

  const CONSERVATIVE: nat := 20  // row alpha = 100, column beta = 0

  lemma PrintKeepsCell(c: Cell, s: Progress, q: Query, t: Trade)
    requires q.Valid() && CellMatches(c, s, q) && t.qty >= 0 && q.Inside(t)
    ensures q.Through(t) ==> CellMatches(ThroughCell(c, q.order, t.localTime), Step(s, t, q), q)
    ensures t.price == q.quote ==> CellMatches(PrintCell(c, t.qty, q.order, t.localTime), Step(s, t, q), q)
  {
  }

  ghost predicate SameOrder(o: Order, q: Query) {
    && o.side == (if q.findLess then Bid else Ask) && o.quote == q.quote && o.placement == q.placement
    && |o.cells| == CELLS
  }

  lemma {:induction false} CellFollowsWalk(o: Order, q: Query, es: seq<OrderEvent>, n: nat)
    requires q.Valid() && n <= |es| && PrintsSane(es) && SameOrder(o, q) && CellMatches(o.cells[CONSERVATIVE], START, q)
    requires forall i | 0 <= i < n && es[i].Printed? :: es[i].ns < q.end
    ensures SameOrder(RunOrder(o, es, q.order, n), q)
    ensures CellMatches(RunOrder(o, es, q.order, n).cells[CONSERVATIVE], Walk(es, q, n), q)
  {
    if n > 0 {
      CellFollowsWalk(o, q, es, n - 1);
      WalkStep(es, q, n);
      var was := RunOrder(o, es, q.order, n - 1);
      match es[n - 1]
      case Printed(ns, x, t) =>
        if t.aggressiveBuy != q.findLess && q.placement < ns {
          PrintKeepsCell(was.cells[CONSERVATIVE], Walk(es, q, n - 1), q, Trade(x, ns, |Rows(es, n - 1)|, t.price, t.qty));
        }
      case Displayed(before, after) =>
        ConservativeIgnoresRemovals(was.(preEventQty := before), after);
    }
  }

  /** beta = 0 never credits a removal. */
  lemma ConservativeIgnoresRemovals(o: Order, after: int)
    requires |o.cells| == CELLS && o.cells[CONSERVATIVE].remaining >= 0
    ensures var r := DepthOrder(o, after).0;
            |r.cells| == CELLS && r.cells[CONSERVATIVE] == o.cells[CONSERVATIVE]
            && r.side == o.side && r.quote == o.quote && r.placement == o.placement
  {
  }

  /** The three engines report the same fill for every run of prints and displayed changes. */
  lemma ThreeWayAgreement(q: Query, midX2: int, spread: int, segment: nat, es: seq<OrderEvent>)
    requires q.Valid() && PrintsSane(es)
    requires forall i | 0 <= i < |es| && es[i].Printed? :: es[i].ns < q.end
    ensures var native := RunNative(NativeSide(q.quote, q.queue, 0, false, false, 0), q.findLess, q.placement,
                                    q.end - q.placement, q.order, es, |es|);
            var cell := RunOrder(PlaceOrder(if q.findLess then Bid else Ask, q.quote, q.queue, midX2, spread, q.placement, segment),
                                 es, q.order, |es|).cells[CONSERVATIVE];
            var rows := Rows(es, |es|);
            var indexed := Report(HistoryRun(rows, Opposite(q.findLess), q, |rows|), q);
            && NativeFilled(native, q.order) == cell.filled == indexed.filled
            && (native.fullFilled <==> indexed.state == FillAnswers.Full) && (native.fullFilled <==> cell.mechanism != NotFilled)
            && (native.byThrough <==> indexed.byTradeThrough) && (native.byThrough <==> cell.mechanism == TradeThrough)
            && native.fullNs == cell.fillNs == indexed.fullLocal
  {
    var o := PlaceOrder(if q.findLess then Bid else Ask, q.quote, q.queue, midX2, spread, q.placement, segment);
    assert o.cells[CONSERVATIVE] == Cell(ScalePercent(q.queue, 100), 0, 0, NotFilled);
    NativeFollowsWalk(NativeSide(q.quote, q.queue, 0, false, false, 0), q, es, |es|);
    CellFollowsWalk(o, q, es, |es|);
  }
}
