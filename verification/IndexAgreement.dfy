/** The queue observer and the trade index on one replay (cpp/research/queue_sensitivity.cpp:292-430,
    cpp/research/passive_queue.cpp:76-343): for an emitted order whose window lies inside its segment, the alpha = 100,
    beta = 0 cell is what the index answers over every trade of the replay. */
module IndexAgreement {
  import opened OrderBooks
  import opened FillModel
  import opened FillAnswers
  import PassiveQueue
  import opened PassiveIndex
  import opened QueueGrid
  import opened QueueSensitivity
  import opened QueueLives
  import opened QueueWindows
  import opened FillAgreement
  import opened Replays
  import opened ReplayTrades

  /** The question an order puts to the index. */
  function Asked(o: Order, c: Config): Query {
    Query(o.side == Bid, o.quote, c.lots, o.displayed, o.placement, o.placement + c.windowNs)
  }

  /** The most conservative cell follows the walk record by record. */
  lemma {:induction false} CellFollowsTrades(g: Origin, rs: seq<Record>, n: nat, c: Config)
    requires Clean(rs) && PlacedBefore(g, rs) && g.from <= n <= |rs| && Asked(g.order, c).Valid()
    requires forall j | g.from <= j < n && rs[j].event.Trade? :: rs[j].local < g.order.placement + c.windowNs
    ensures var q, l := Asked(g.order, c), Lived(g.order, rs, g.from, n, c.lots);
            SameOrder(l, q) && CellMatches(l.cells[CONSERVATIVE], Walked(rs, q, n), q)
    decreases n
  {
    var q := Asked(g.order, c);
    if n == g.from {
      OutsideKeeps(rs, q, 0, n);
      assert Trades(rs, 0) == [];
      assert g.order.cells[CONSERVATIVE] == Cell(ScalePercent(q.queue, 100), 0, 0, NotFilled);
    } else {
      CellFollowsTrades(g, rs, n - 1, c);
      WalkedStep(rs, q, n);
      assert Readable(rs[n - 1]);
      TouchFollows(Lived(g.order, rs, g.from, n - 1, c.lots), Walked(rs, q, n - 1), q, rs[n - 1], BookBefore(rs, n - 1), |Trades(rs, n - 1)|);
    }
  }

  lemma TouchFollows(o: Order, s: Progress, q: Query, r: Record, before: Book, ordinal: nat)
    requires q.Valid() && SameOrder(o, q) && CellMatches(o.cells[CONSERVATIVE], s, q) && Readable(r)
    requires r.event.Trade? ==> r.local < q.end
    ensures var t := Touched(o, r, before, q.order);
            && SameOrder(t, q)
            && CellMatches(t.cells[CONSERVATIVE],
                           if r.event.Trade? && r.event.trade.aggressiveBuy != q.findLess
                           then FillModel.Step(s, RecordTrade(r, ordinal), q) else s, q)
  {
    match r.event
    case Trade(t) =>
      if t.aggressiveBuy != q.findLess && q.placement < r.local {
        PrintKeepsCell(o.cells[CONSERVATIVE], s, q, RecordTrade(r, ordinal));
      }
    case Depth(outcome) =>
      var seen := if before.valid then Observe(o, before) else o;
      ConservativeIgnoresRemovals(seen, QuantityAt(TouchOf(seen.side, r.book), seen.quote));
    case _ =>
  }

  /** An order whose window lies inside its segment, and whose first print did not come after it: its conservative
      cell stands where a walk over every trade of the replay does. */
  lemma WholeWindowAgrees(e: Emission, g: Origin, rs: seq<Record>, upto: nat, c: Config)
    requires Clean(rs) && TrueTo(e, g, rs, upto, c) && !(g.from < upto && LateTrade(g, rs, c))
    requires WindowInside(g, rs, c.windowNs) && Asked(e.order, c).Valid()
    ensures |e.order.cells| == CELLS && CellMatches(e.order.cells[CONSERVATIVE], Walked(rs, Asked(e.order, c), |rs|), Asked(e.order, c))
  {
    LivedPlace(g.order, rs, g.from, upto, c.lots);
    WholeWindowIff(e, g, rs, upto, c);
    PrintsComeInWindow(e, g, rs, upto, c);
    CellFollowsTrades(g, rs, upto, c);
    OutsideKeeps(rs, Asked(e.order, c), upto, |rs|);
  }

  /** A cell and an answer that say the same. */
  ghost predicate Agrees(cell: Cell, o: FillAnswers.Outcome) {
    && o.filled == cell.filled && o.fullLocal == cell.fillNs && (o.byTradeThrough <==> cell.mechanism == TradeThrough)
    && (o.state == FillAnswers.Full <==> cell.mechanism != NotFilled)
  }

  lemma ReportShows(cell: Cell, w: Progress, q: Query)
    requires q.Valid() && CellMatches(cell, w, q)
    ensures Agrees(cell, Report(w, q))
  {
  }

  /** So the index, asked about the same order over the same trades, reports the same fill. */
  method AskIndex(index: PassiveTradeIndex, e: Emission, c: Config, ghost g: Origin, ghost rs: seq<Record>, ghost upto: nat)
    returns (r: PassiveQueue.Evaluation)
    requires index.Valid() && index.finalized && index.history == Trades(rs, |rs|)
    requires Clean(rs) && TrueTo(e, g, rs, upto, c) && !(g.from < upto && LateTrade(g, rs, c))
    requires WindowInside(g, rs, c.windowNs) && Asked(e.order, c).Valid()
    ensures |e.order.cells| == CELLS && r.Success? && Agrees(e.order.cells[CONSERVATIVE], r.value)
  {
    WholeWindowAgrees(e, g, rs, upto, c);
    ReportShows(e.order.cells[CONSERVATIVE], Walked(rs, Asked(e.order, c), |rs|), Asked(e.order, c));
    r := Put(index, e.order, c, rs);
  }

  method Put(index: PassiveTradeIndex, o: Order, c: Config, ghost rs: seq<Record>) returns (r: PassiveQueue.Evaluation)
    requires index.Valid() && index.finalized && index.history == Trades(rs, |rs|) && Asked(o, c).Valid()
    ensures r == PassiveQueue.Success(Report(Walked(rs, Asked(o, c), |rs|), Asked(o, c)))
  {
    var side := if o.side == Bid then PassiveQueue.Bid else PassiveQueue.Ask;
    r := index.Evaluate(side, o.quote, c.lots, o.displayed, o.placement, o.placement + c.windowNs);
  }
}
