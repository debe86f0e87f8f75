/** What an emitted order and its 25 cells must hold, told from the books and the prints of the records it
    lived through (cpp/research/queue_sensitivity.cpp:139-200, 279-430): how much joined behind it, which
    removals the prints at its quote explain, and where each cell stands in its queue. */
module QueueLedgers {
  import opened Wrappers
  import opened OrderBooks
  import opened QueueGrid
  import opened QueueSensitivity
  import opened QueueLives
  import QueuePlans
  import opened Replays

  /** An order as placed: at the best price of its side, behind what the book shows there. */
  ghost predicate Rests(o: Order, book: Book) {
    && book.bids.Level? && book.asks.Level?
    && o.quote == (if o.side == Bid then book.bids.price else book.asks.price)
    && o.displayed == (if o.side == Bid then book.bids.qty else book.asks.qty)
    && o.midX2 == book.bids.price + book.asks.price && o.spread == book.asks.price - book.bids.price
  }

  /** How record j changes the quantity shown at the quote: only an applied depth event does. */
  function Change(rs: seq<Record>, j: nat, o: Order): int
    requires j < |rs|
  {
    var before, after := BookBefore(rs, j), rs[j].book;
    if !Applies(rs[j]) then 0
    else if o.side == Bid then QuantityAt(after.bids, o.quote) - QuantityAt(before.bids, o.quote)
    else QuantityAt(after.asks, o.quote) - QuantityAt(before.asks, o.quote)
  }

  /** Record j prints against the order after its placement, at the quote or through it. */
  predicate Reaches(rs: seq<Record>, j: nat, o: Order)
    requires j < |rs|
  {
    rs[j].event.Trade? && rs[j].event.trade.aggressiveBuy == (o.side == Ask) && rs[j].local > o.placement
  }

  predicate Passes(rs: seq<Record>, j: nat, o: Order)
    requires j < |rs|
  {
    && Reaches(rs, j, o)
    && if o.side == Bid then rs[j].event.trade.price < o.quote else rs[j].event.trade.price > o.quote
  }

  function LotsAt(rs: seq<Record>, j: nat, o: Order): int
    requires j < |rs|
  {
    if Reaches(rs, j, o) && rs[j].event.trade.price == o.quote then rs[j].event.trade.qty else 0
  }

  /** The lots printed at the quote by records from..n. */
  ghost function Printed(rs: seq<Record>, o: Order, from: nat, n: nat): int
    requires n <= |rs|
  {
    if n <= from then 0 else Printed(rs, o, from, n - 1) + LotsAt(rs, n - 1, o)
  }

  /** The quantity shown at the quote, and the lowest it has been since the placement: whatever is above that
      joined behind, and whatever the lowest fell was ahead. */
  ghost function Shown(rs: seq<Record>, o: Order, from: nat, n: nat): int
    requires n <= |rs|
  {
    if n <= from then o.displayed else Shown(rs, o, from, n - 1) + Change(rs, n - 1, o)
  }

  ghost function Lowest(rs: seq<Record>, o: Order, from: nat, n: nat): (l: int)
    requires n <= |rs|
    ensures l <= Shown(rs, o, from, n)
  {
    if n <= from then o.displayed
    else
      var before, now := Lowest(rs, o, from, n - 1), Shown(rs, o, from, n);
      if now < before then now else before
  }

  ghost function Gone(rs: seq<Record>, o: Order, from: nat, n: nat): int
    requires n <= |rs|
  {
    o.displayed - Lowest(rs, o, from, n)
  }

  /** The most by which what is gone from ahead has ever exceeded what had printed there. */
  ghost function Shortfall(rs: seq<Record>, o: Order, from: nat, n: nat): int
    requires n <= |rs|
  {
    if n <= from then 0
    else
      var before, now := Shortfall(rs, o, from, n - 1), Gone(rs, o, from, n) - Printed(rs, o, from, n);
      if now > before then now else before
  }

  /** What stays ahead of a cell, or, below zero, how much of the order has printed. The cell starts behind
      alpha percent of the queue; a print at the quote takes its lots; and beta percent of what no print
      explains is credited, as long as anything is ahead. */
  ghost function Ahead(rs: seq<Record>, o: Order, from: nat, n: nat, cell: nat): int
    requires n <= |rs|
  {
    if n <= from then o.displayed * (25 * (cell / 5)) / 100
    else
      var before := Ahead(rs, o, from, n - 1, cell);
      var credit := (Shortfall(rs, o, from, n) - Shortfall(rs, o, from, n - 1)) * (25 * (cell % 5)) / 100;
      var left := before - LotsAt(rs, n - 1, o);
      if credit == 0 || left <= 0 then left else if left > credit then left - credit else 0
  }

  /** Record j fills a cell, if none before has: it goes through the quote, or the last lot of the order prints
      there. */
  ghost predicate Fills(rs: seq<Record>, j: nat, o: Order, from: nat, cell: nat, lots: int)
    requires j < |rs|
  {
    Passes(rs, j, o) || (Reaches(rs, j, o) && rs[j].event.trade.price == o.quote && Ahead(rs, o, from, j + 1, cell) <= -lots)
  }

  ghost function FillerOf(rs: seq<Record>, o: Order, from: nat, n: nat, cell: nat, lots: int): (f: Option<nat>)
    requires n <= |rs|
    ensures f.Some? ==> from <= f.value < n && Fills(rs, f.value, o, from, cell, lots)
    ensures forall j | from <= j < (if f.Some? then f.value else n) :: !Fills(rs, j, o, from, cell, lots)
  {
    if n <= from then None
    else
      var before := FillerOf(rs, o, from, n - 1, cell, lots);
      if before.Some? then before else if Fills(rs, n - 1, o, from, cell, lots) then Some(n - 1) else None
  }

  /** A cell: filled by that record, with nothing left ahead; or waiting where it stands. */
  ghost predicate CellIs(x: Cell, rs: seq<Record>, o: Order, from: nat, n: nat, cell: nat, lots: int)
    requires n <= |rs|
  {
    var f, ahead := FillerOf(rs, o, from, n, cell, lots), Ahead(rs, o, from, n, cell);
    if f.Some? then
      && x.remaining == 0 && x.filled == lots && x.fillNs == rs[f.value].local
      && x.mechanism == if Passes(rs, f.value, o) then TradeThrough else AtQuote
    else
      && x.mechanism == NotFilled && x.fillNs == 0 && ahead > -lots
      && x.remaining == (if ahead > 0 then ahead else 0) && x.filled == (if ahead < 0 then -ahead else 0)
  }

  ghost predicate CellsAre(cells: seq<Cell>, rs: seq<Record>, o: Order, from: nat, n: nat, lots: int)
    requires n <= |rs|
  {
    |cells| == 25 && forall k {:trigger CellIs(cells[k], rs, o, from, n, k, lots)} | 0 <= k < 25 :: CellIs(cells[k], rs, o, from, n, k, lots)
  }

  /** What joined behind is what is shown above the lowest; what printed and has explained nothing yet waits to
      explain a removal. */
  ghost predicate PoolsAre(x: Order, rs: seq<Record>, o: Order, from: nat, n: nat)
    requires n <= |rs|
  {
    && x.addedBehind == Shown(rs, o, from, n) - Lowest(rs, o, from, n)
    && x.tradePool == Printed(rs, o, from, n) - Gone(rs, o, from, n) + Shortfall(rs, o, from, n) && x.tradePool >= 0
  }

  /** The order after the records from..n, which all found its segment open. */
  ghost predicate Tells(x: Order, rs: seq<Record>, o: Order, from: nat, n: nat, lots: int)
    requires n <= |rs|
  {
    && SamePlace(x, o) && x.midX2 == o.midX2 && x.spread == o.spread
    && PoolsAre(x, rs, o, from, n) && CellsAre(x.cells, rs, o, from, n, lots)
  }

  lemma PlacedTells(o: Order, book: Book, rs: seq<Record>, from: nat, lots: int)
    requires AtTouch(o, book) && book.Sound() && from <= |rs| && lots > 0
    ensures Rests(o, book) && Tells(o, rs, o, from, from, lots)
  {
    forall k | 0 <= k < 25 ensures CellIs(o.cells[k], rs, o, from, from, k, lots) {
      assert o.displayed >= 0 && PERCENTS[k / 5] == 25 * (k / 5);
    }
  }

  /** A print: what it adds to the pool, */
  lemma PrintPools(x: Order, rs: seq<Record>, o: Order, from: nat, n: nat, lots: int)
    requires from <= n < |rs| && rs[n].event.Trade? && rs[n].event.trade.qty >= 0 && SamePlace(x, o) && PoolsAre(x, rs, o, from, n)
    ensures PoolsAre(PrintOrder(x, rs[n].event.trade, lots, rs[n].local), rs, o, from, n + 1)
    ensures Shortfall(rs, o, from, n + 1) == Shortfall(rs, o, from, n)
  {
  }

  /** and what it does to a cell. */
  lemma PrintCellIs(c: Cell, rs: seq<Record>, o: Order, from: nat, n: nat, k: nat, lots: int)
    requires from <= n < |rs| && rs[n].event.Trade? && rs[n].event.trade.qty >= 0 && lots > 0 && CellIs(c, rs, o, from, n, k, lots)
    requires Shortfall(rs, o, from, n + 1) == Shortfall(rs, o, from, n)
    ensures var t := rs[n].event.trade;
            CellIs(if Passes(rs, n, o) then ThroughCell(c, lots, rs[n].local)
                   else if LotsAt(rs, n, o) > 0 || (Reaches(rs, n, o) && t.price == o.quote) then PrintCell(c, t.qty, lots, rs[n].local)
                   else c, rs, o, from, n + 1, k, lots)
  {
    NoCredit(25 * (k % 5));
  }

  lemma NoCredit(percent: int)
    ensures 0 * percent / 100 == 0
  {
  }

  lemma PrintTells(x: Order, rs: seq<Record>, o: Order, from: nat, n: nat, lots: int)
    requires from <= n < |rs| && rs[n].event.Trade? && rs[n].event.trade.qty >= 0 && lots > 0 && Tells(x, rs, o, from, n, lots)
    ensures Tells(PrintOrder(x, rs[n].event.trade, lots, rs[n].local), rs, o, from, n + 1, lots)
  {
    var y := PrintOrder(x, rs[n].event.trade, lots, rs[n].local);
    PrintPools(x, rs, o, from, n, lots);
    forall k | 0 <= k < 25 ensures CellIs(y.cells[k], rs, o, from, n + 1, k, lots) {
      assert CellIs(x.cells[k], rs, o, from, n, k, lots);
      PrintCellIs(x.cells[k], rs, o, from, n, k, lots);
    }
  }

  /** An applied event: what its removal is charged to, */
  lemma DepthPools(x: Order, rs: seq<Record>, o: Order, from: nat, n: nat, before: int, after: int)
    requires from <= n < |rs| && Applies(rs[n]) && PoolsAre(x, rs, o, from, n) && before >= 0 && after - before == Change(rs, n, o)
    ensures var (y, a) := DepthOrder(x.(preEventQty := before), after);
            && PoolsAre(y, rs, o, from, n + 1) && a.unexplained == Shortfall(rs, o, from, n + 1) - Shortfall(rs, o, from, n) >= 0
            && y.cells == if a.unexplained == 0 then x.cells else RemovalCells(x.cells, a.unexplained)
  {
  }

  /** and what that does to a cell. */
  lemma CreditCellIs(c: Cell, rs: seq<Record>, o: Order, from: nat, n: nat, k: nat, lots: int, unexplained: int)
    requires from <= n < |rs| && Applies(rs[n]) && k < 25 && lots > 0 && CellIs(c, rs, o, from, n, k, lots)
    requires unexplained == Shortfall(rs, o, from, n + 1) - Shortfall(rs, o, from, n) >= 0
    ensures CellIs(if unexplained == 0 then c else RemovalCell(c, unexplained, 25 * (k % 5)), rs, o, from, n + 1, k, lots)
  {
    NoCredit(25 * (k % 5));
    assert unexplained * (25 * (k % 5)) >= 0;
  }

  lemma DepthTells(x: Order, rs: seq<Record>, o: Order, from: nat, n: nat, lots: int, before: int, after: int)
    requires from <= n < |rs| && Applies(rs[n]) && lots > 0 && Tells(x, rs, o, from, n, lots) && before >= 0 && after - before == Change(rs, n, o)
    ensures Tells(DepthOrder(x.(preEventQty := before), after).0, rs, o, from, n + 1, lots)
  {
    var (y, a) := DepthOrder(x.(preEventQty := before), after);
    DepthPools(x, rs, o, from, n, before, after);
    forall k | 0 <= k < 25 ensures CellIs(y.cells[k], rs, o, from, n + 1, k, lots) {
      assert CellIs(x.cells[k], rs, o, from, n, k, lots);
      assert Percent(k % STEPS) == 25 * (k % 5);
      CreditCellIs(x.cells[k], rs, o, from, n, k, lots, a.unexplained);
    }
  }

  /** Every other record changes nothing. */
  lemma OtherTells(x: Order, y: Order, rs: seq<Record>, o: Order, from: nat, n: nat, lots: int)
    requires from <= n < |rs| && !rs[n].event.Trade? && !Applies(rs[n]) && Tells(x, rs, o, from, n, lots)
    requires y == x.(preEventQty := y.preEventQty)
    ensures Tells(y, rs, o, from, n + 1, lots)
  {
    forall k | 0 <= k < 25 ensures CellIs(y.cells[k], rs, o, from, n + 1, k, lots) {
      assert CellIs(x.cells[k], rs, o, from, n, k, lots);
      NoCredit(25 * (k % 5));
    }
  }

  lemma {:induction false} ShownIsNonNegative(bid: bool, s: Side, price: int)
    requires Ranked(bid, s)
    ensures QuantityAt(s, price) >= 0
  {
    if s.Level? {
      ShownIsNonNegative(bid, s.rest, price);
    }
  }

  lemma RecordTells(x: Order, rs: seq<Record>, o: Order, from: nat, n: nat, lots: int)
    requires from <= n < |rs| && 0 < n && AllReadable(rs) && LiveShows(rs) && Open(rs, n) && lots > 0 && Tells(x, rs, o, from, n, lots)
    ensures Tells(Touched(x, rs[n], BookBefore(rs, n), lots), rs, o, from, n + 1, lots)
  {
    assert Readable(rs[n]) && Readable(rs[n - 1]);
    if rs[n].event.Trade? {
      PrintTells(x, rs, o, from, n, lots);
    } else if Applies(rs[n]) {
      var before, after := QuantityAt(TouchOf(x.side, BookBefore(rs, n)), x.quote), QuantityAt(TouchOf(x.side, rs[n].book), x.quote);
      ShownIsNonNegative(x.side == Bid, TouchOf(x.side, BookBefore(rs, n)), x.quote);
      DepthTells(x, rs, o, from, n, lots, before, after);
    } else {
      OtherTells(x, Touched(x, rs[n], BookBefore(rs, n), lots), rs, o, from, n, lots);
    }
  }

  /** So an order tells the records it has lived through, */
  lemma {:induction false} LivedTells(o: Order, rs: seq<Record>, from: nat, n: nat, lots: int)
    requires AllReadable(rs) && LiveShows(rs) && lots > 0 && 0 < from <= n <= |rs| && AtTouch(o, rs[from - 1].book)
    requires forall j {:trigger Open(rs, j)} | from <= j < n :: Open(rs, j)
    ensures Tells(Lived(o, rs, from, n, lots), rs, o, from, n, lots)
    decreases n
  {
    if n == from {
      assert Readable(rs[from - 1]);
      PlacedTells(o, rs[from - 1].book, rs, from, lots);
    } else {
      LivedTells(o, rs, from, n - 1, lots);
      RecordTells(Lived(o, rs, from, n - 1, lots), rs, o, from, n - 1, lots);
    }
  }

  /** and so does every order of the file. */
  lemma EmittedTells(e: Emission, g: Origin, rs: seq<Record>, upto: nat, c: Config)
    requires Clean(rs) && c.lots > 0 && TrueTo(e, g, rs, upto, c)
    ensures Rests(g.order, rs[g.from - 1].book) && Tells(e.order, rs, g.order, g.from, upto, c.lots)
  {
    var last := LastOf(rs, g.from, QueuePlans.HABITS);
    assert upto <= Whole(rs, last);
    forall j {:trigger Open(rs, j)} | g.from <= j < upto ensures Open(rs, j) {
      if g.from < j {
        assert Survives(rs, j - 1, QueuePlans.HABITS);
      }
    }
    LivedTells(g.order, rs, g.from, upto, c.lots);
    assert Readable(rs[g.from - 1]);
    PlacedTells(g.order, rs[g.from - 1].book, rs, g.from, c.lots);
  }

  /** With nothing added behind, a removal of exactly what has printed since changes no cell. */
  lemma ExplainedLeavesCells(o: Order, t: Print, lots: int, ns: nat, before: int)
    requires o.tradePool == 0 && o.addedBehind == 0 && Hits(o, t, ns) && t.price == o.quote && 0 < t.qty <= before
    ensures var p := PrintOrder(o, t, lots, ns);
            var (r, a) := DepthOrder(p.(preEventQty := before), before - t.qty);
            r.cells == p.cells && a == Attribution(0, t.qty, 0) && r.tradePool == 0
  {
  }

  /** Nothing is credited before everything behind and every print is used up. */
  lemma CreditIsLast(o: Order, after: int)
    requires o.addedBehind >= 0 && o.tradePool >= 0 && after < o.preEventQty
    ensures var (r, a) := DepthOrder(o, after);
            && (r.cells != o.cells || a.unexplained > 0 ==> r.addedBehind == 0 && r.tradePool == 0)
            && (a.explained > 0 ==> r.addedBehind == 0)
            && r.addedBehind == o.addedBehind - a.behind && r.tradePool == o.tradePool - a.explained
  {
  }
}
