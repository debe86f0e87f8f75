/** What an emitted order has seen (tests/test_native_economic.py:118-130 expects no fill after the end of
    its observation; cpp/research/queue_sensitivity.cpp:202-212, 255-271, 375-430), and its agreement with
    the trade index (cpp/research/passive_queue.cpp:185-343). */
module QueueWindows {
  import opened OrderBooks
  import opened QueueGrid
  import opened QueueSensitivity
  import opened QueueLives
  import opened Replays
  import opened Grids

  /** An order placed in a gap longer than its window, announced by a trade that comes only after that. */
  predicate LateTrade(g: Origin, rs: seq<Record>, c: Config) {
    g.from < |rs| && rs[g.from].event.Trade? && rs[g.from].local >= g.order.placement + c.windowNs
  }

  /** Such a trade is the only print past its window an order can ever see. */
  lemma PrintsComeInWindow(e: Emission, g: Origin, rs: seq<Record>, upto: nat, c: Config)
    requires TrueTo(e, g, rs, upto, c)
    ensures (forall j | g.from <= j < upto && rs[j].event.Trade? :: rs[j].local < g.order.placement + c.windowNs)
       <==> !(g.from < upto && LateTrade(g, rs, c))
  {
  }

  /** A caller can rule it out: records closer together than the window. */
  lemma CloseRecordsAreNeverLate(g: Origin, rs: seq<Record>, c: Config)
    requires PlacedBefore(g, rs) && (g.from < |rs| ==> rs[g.from].local < rs[g.from - 1].local + c.windowNs)
    ensures !LateTrade(g, rs, c)
  {
  }

  /** An order that has not been filled carries no stamp. */
  ghost predicate Stamped(o: Order) {
    |o.cells| == CELLS && forall k | 0 <= k < CELLS :: o.cells[k].mechanism == NotFilled ==> o.cells[k].fillNs == 0
  }

  lemma TouchStamps(o: Order, r: Record, before: Book, lots: int)
    requires Stamped(o)
    ensures var t := Touched(o, r, before, lots);
            && Stamped(t)
            && forall k | 0 <= k < CELLS ::
                 if o.cells[k].mechanism != NotFilled then t.cells[k].mechanism != NotFilled && t.cells[k].fillNs == o.cells[k].fillNs
                 else t.cells[k].mechanism != NotFilled ==> r.event.Trade? && t.cells[k].fillNs == r.local
  {
  }

  /** What the first record leaves, and what becomes of it: a filled cell keeps its stamp, and a later fill
      bears the stamp of its print. */
  lemma {:induction false} LaterFills(o: Order, rs: seq<Record>, from: nat, upto: nat, lots: int, bound: nat)
    requires from < upto <= |rs| && Stamped(o)
    requires forall j | from < j < upto && rs[j].event.Trade? :: rs[j].local <= bound
    ensures var first, l := Lived(o, rs, from, from + 1, lots), Lived(o, rs, from, upto, lots);
            && Stamped(first) && Stamped(l)
            && forall k | 0 <= k < CELLS ::
                 if first.cells[k].mechanism != NotFilled then l.cells[k].mechanism != NotFilled && l.cells[k].fillNs == first.cells[k].fillNs
                 else l.cells[k].fillNs <= bound
    decreases upto
  {
    assert Lived(o, rs, from, from + 1, lots) == Touched(o, rs[from], BookBefore(rs, from), lots);
    TouchStamps(o, rs[from], BookBefore(rs, from), lots);
    if upto > from + 1 {
      LaterFills(o, rs, from, upto - 1, lots, bound);
      TouchStamps(Lived(o, rs, from, upto - 1, lots), rs[upto - 1], BookBefore(rs, upto - 1), lots);
    }
  }

  lemma PlacedIsBlank(g: Origin, rs: seq<Record>)
    requires PlacedBefore(g, rs)
    ensures Stamped(g.order) && forall k | 0 <= k < CELLS :: g.order.cells[k].mechanism == NotFilled
  {
  }

  ghost predicate AnyFilled(o: Order) {
    exists k {:trigger o.cells[k]} | 0 <= k < |o.cells| :: o.cells[k].mechanism != NotFilled
  }

  /** A print that fills the most optimistic cell of a fresh order: it hits the order's side and goes
      through the quote, or is as large as the order at it. */
  predicate FillsAtOnce(o: Order, t: Print, lots: int) {
    && (if t.aggressiveBuy then o.side == Ask else o.side == Bid)
    && (GoesThrough(o, t) || (t.price == o.quote && t.qty > 0 && t.qty >= lots))
  }

  /** It fills some cell if and only if it fills that one. */
  lemma FirstPrintFills(g: Origin, rs: seq<Record>, lots: int)
    requires PlacedBefore(g, rs) && g.from < |rs| && rs[g.from].event.Trade? && rs[g.from].local > g.order.placement
    requires Readable(rs[g.from - 1])
    ensures AnyFilled(Lived(g.order, rs, g.from, g.from + 1, lots)) <==> FillsAtOnce(g.order, rs[g.from].event.trade, lots)
  {
    PlacedIsBlank(g, rs);
    var o, t := g.order, rs[g.from].event.trade;
    assert Lived(o, rs, g.from, g.from, lots) == o;
    assert Lived(o, rs, g.from, g.from + 1, lots) == Touched(o, rs[g.from], BookBefore(rs, g.from), lots);
    FreshPrintFills(o, t, lots, rs[g.from].local);
  }

  lemma FreshPrintFills(o: Order, t: Print, lots: int, ns: nat)
    requires o.placement < ns && o.displayed >= 0 && o.cells == InitialCells(o.displayed)
    ensures AnyFilled(PrintOrder(o, t, lots, ns)) <==> FillsAtOnce(o, t, lots)
  {
    var l := PrintOrder(o, t, lots, ns);
    assert o.cells[0] == Cell(ScalePercent(o.displayed, Percent(0)), 0, 0, NotFilled);
    if FillsAtOnce(o, t, lots) {
      assert l.cells[0].mechanism != NotFilled;
    }
    forall k | 0 <= k < CELLS ensures o.cells[k].remaining >= 0 {
      ScaleMonotone(o.displayed, 0, Percent(k / STEPS));
    }
  }

  /** A late order, and the trade that ends its gap fills it. */
  predicate FilledLate(g: Origin, rs: seq<Record>, upto: nat, c: Config)
    requires upto <= |rs|
  {
    && g.from < upto && rs[g.from].event.Trade? && rs[g.from].local > g.order.placement + c.windowNs
    && FillsAtOnce(g.order, rs[g.from].event.trade, c.lots)
  }

  /** No fill of an emitted order comes after the end of its observation, except exactly when it was placed
      in a gap longer than its window and the trade that ended the gap filled it. */
  lemma FillsInWindowIff(e: Emission, g: Origin, rs: seq<Record>, upto: nat, c: Config)
    requires Clean(rs) && TrueTo(e, g, rs, upto, c)
    ensures |e.order.cells| == CELLS
    ensures (forall k | 0 <= k < CELLS :: e.order.cells[k].fillNs <= e.observedEnd) <==> !FilledLate(g, rs, upto, c)
  {
    PlacedIsBlank(g, rs);
    LivedPlace(g.order, rs, g.from, upto, c.lots);
    if g.from < upto {
      EndBounds(e, g, rs, upto, c);
      LaterFills(g.order, rs, g.from, upto, c.lots, e.observedEnd);
      FirstFills(g, rs, c);
      if rs[g.from].event.Trade? && rs[g.from].local > g.order.placement {
        assert Readable(rs[g.from - 1]);
        FirstPrintFills(g, rs, c.lots);
      }
    }
  }

  /** Every print after the first comes by the end of the observation. */
  lemma EndBounds(e: Emission, g: Origin, rs: seq<Record>, upto: nat, c: Config)
    requires Clean(rs) && TrueTo(e, g, rs, upto, c) && g.from < upto
    ensures e.observedEnd <= g.order.placement + c.windowNs
    ensures forall j | g.from < j < upto && rs[j].event.Trade? :: rs[j].local <= e.observedEnd
    ensures rs[g.from].local <= g.order.placement + c.windowNs ==> rs[g.from].local <= e.observedEnd
  {
    LivedPlace(g.order, rs, g.from, upto, c.lots);
  }

  lemma FirstFills(g: Origin, rs: seq<Record>, c: Config)
    requires PlacedBefore(g, rs) && g.from < |rs|
    ensures var first := Lived(g.order, rs, g.from, g.from + 1, c.lots);
            && |first.cells| == CELLS
            && forall k | 0 <= k < CELLS && first.cells[k].mechanism != NotFilled ::
                 rs[g.from].event.Trade? && first.cells[k].fillNs == rs[g.from].local
  {
    PlacedIsBlank(g, rs);
    assert Lived(g.order, rs, g.from, g.from + 1, c.lots) == Touched(g.order, rs[g.from], BookBefore(rs, g.from), c.lots);
    TouchStamps(g.order, rs[g.from], BookBefore(rs, g.from), c.lots);
  }

  /** A run with such a fill: with a placement step of 10 and a window of 5, nothing happens between 0 and
      20; the order placed for 10 is filled by the trade at 20 and emitted as observed until 15. */
  method FillsAfterItsWindow() returns (e: Emission)
    ensures e.order.placement == 10 && e.observedEnd == 15 && |e.order.cells| == CELLS && e.order.cells[0].fillNs == 20
  {
    var book := Book(true, Level(2, 1, Empty), Level(4, 1, Empty), 0);
    var q := PlacedAtTen(book);
    FilledThrough(q.pending[0], Print(1, 1, false), 20);
    q.OnTrade(20, Print(1, 1, false), true);
    e := LeavesAtTwenty(q, book);
  }

  /** A print through an order fills all its cells. */
  lemma FilledThrough(o: Order, t: Print, ns: nat)
    requires o.side == Bid && !t.aggressiveBuy && t.price < o.quote && o.placement < ns && |o.cells| == CELLS
    requires forall k | 0 <= k < CELLS :: o.cells[k].mechanism == NotFilled
    ensures var r := PrintOrder(o, t, 1, ns); r.placement == o.placement && |r.cells| == CELLS && r.cells[0].fillNs == ns
  {
  }

  method LeavesAtTwenty(q: QueueSensitivityObserver, book: Book) returns (e: Emission)
    requires q.Valid() && q.clock == 20 && q.inSegment && q.tradeStreamUp && q.config == Config(Grid, 10, 5, 1) && book.Sound()
    requires |q.emitted| == 2 && |q.pending| == 2 && q.pending[0].placement == 10
    modifies q
    ensures e == Emission(old(q.pending)[0], 15)
  {
    FirstDue(q.pending, 5, 20);
    q.AfterRecord(20, book, true);
    e := q.emitted[2];
  }

  method PlacedAtTen(book: Book) returns (q: QueueSensitivityObserver)
    requires book.Sound() && book.valid
    ensures q.Valid() && fresh(q) && q.clock == 20 && q.inSegment && q.tradeStreamUp && q.config == Config(Grid, 10, 5, 1)
    ensures |q.emitted| == 2 && |q.pending| == 2 && q.pending[0] == Pair(10, q.segmentId, book)[0]
    ensures |q.pending[0].cells| == CELLS && forall k | 0 <= k < CELLS :: q.pending[0].cells[k].mechanism == NotFilled
  {
    q := PlacedAtZero(book);
    ghost var d := q.View();
    BothDue(q.pending, 5, 20);
    NextDue(20, q.segmentId, book);
    q.BeforeRecord(20, book, true);
  }

  method PlacedAtZero(book: Book) returns (q: QueueSensitivityObserver)
    requires book.Sound() && book.valid
    ensures q.Valid() && fresh(q) && q.inSegment && q.tradeStreamUp && q.config == Config(Grid, 10, 5, 1) && q.nextPlacement == 10
    ensures q.emitted == [] && q.pending == Pair(0, q.segmentId, book)
  {
    q := new QueueSensitivityObserver(Config(Grid, 10, 5, 1));
    q.OnConnection(true, true);
    OpensAtZero(q, book);
  }

  method OpensAtZero(q: QueueSensitivityObserver, book: Book)
    requires q.Valid() && !q.inSegment && q.tradeStreamUp && q.config == Config(Grid, 10, 5, 1) && q.clock == 0 && q.emitted == []
    requires book.Sound() && book.valid
    modifies q
    ensures q.Valid() && q.inSegment && q.tradeStreamUp && q.nextPlacement == 10 && q.emitted == [] && q.pending == Pair(0, q.segmentId, book)
  {
    FirstPair(q.segmentId + 1, book);
    q.AfterRecord(0, book, true);
  }

  lemma FirstPair(segment: nat, book: Book)
    requires book.TwoSided()
    ensures FirstOrders(Config(Grid, 10, 5, 1), 0, segment, book) == Pair(0, segment, book) && NextFrom(0, 0, true, 10) == 10
  {
    assert DueOrders(10, 0, true, 10, segment, book) == [];
  }

  lemma NextDue(local: nat, segment: nat, book: Book)
    requires book.TwoSided() && local == 20
    ensures DueOrders(10, local, false, 10, segment, book) == Pair(10, segment, book)
  {
    assert DueOrders(20, local, false, 10, segment, book) == [];
  }

  lemma BothDue(os: seq<Order>, windowNs: nat, local: nat)
    requires |os| == 2 && local >= os[0].placement + windowNs && local >= os[1].placement + windowNs
    ensures DuePrefix(os, windowNs, local, 0) == 2
  {
    assert DuePrefix(os, windowNs, local, 2) == 2;
    assert DuePrefix(os, windowNs, local, 1) == 2;
  }

  lemma FirstDue(os: seq<Order>, windowNs: nat, local: nat)
    requires |os| == 2 && local >= os[0].placement + windowNs
    ensures DuePrefix(os, windowNs, local, 0) >= 1
  {
  }
}
