/** One hypothetical order under the 5 x 5 grid of queue assumptions
    (cpp/research/queue_sensitivity.cpp:38-42, 139-164, 292-430). Row i scales the queue ahead at
    placement by alpha = PERCENTS[i]; column j credits unexplained removals by beta = PERCENTS[j]. */
module QueueGrid {

  const STEPS: nat := 5
  const CELLS: nat := 25
  const PERCENTS: seq<int> := [0, 25, 50, 75, 100]

  function Min(a: int, b: int): int { if a < b then a else b }

  /** value * percent / 100, truncating toward zero. */
  function ScalePercent(value: int, percent: int): int {
    if value * percent >= 0 then value * percent / 100 else -(-(value * percent) / 100)
  }

  datatype Mechanism = NotFilled | AtQuote | TradeThrough

  datatype Cell = Cell(remaining: int, filled: int, fillNs: nat, mechanism: Mechanism)

  datatype QuoteSide = Bid | Ask

  datatype Print = Print(price: int, qty: int, aggressiveBuy: bool)

  datatype Order = Order(
    placement: nat, segment: nat, side: QuoteSide, quote: int, displayed: int, midX2: int, spread: int,
    addedBehind: int, tradePool: int, preEventQty: int, cells: seq<Cell>)

  function Percent(step: nat): int
    requires step < STEPS
  {
    PERCENTS[step]
  }

  /** Alpha touches only the initial queue. */
  function InitialCells(displayed: int): (cells: seq<Cell>)
    ensures |cells| == CELLS
    ensures forall c | 0 <= c < CELLS :: cells[c] == Cell(ScalePercent(displayed, Percent(c / STEPS)), 0, 0, NotFilled)
  {
    seq(CELLS, c requires 0 <= c < CELLS => Cell(ScalePercent(displayed, Percent(c / STEPS)), 0, 0, NotFilled))
  }

  /** A print at the quote eats the queue, then the order. */
  function PrintCell(c: Cell, qty: int, lots: int, ns: nat): Cell {
    if c.mechanism != NotFilled then c
    else
      var consumed := Min(c.remaining, qty);
      var overflow := qty - consumed;
      if overflow <= 0 then c.(remaining := c.remaining - consumed)
      else
        var filled := Min(lots, c.filled + overflow);
        if filled >= lots then Cell(c.remaining - consumed, filled, ns, AtQuote)
        else c.(remaining := c.remaining - consumed, filled := filled)
  }

  /** A print beyond the quote: everything resting there traded away first. */
  function ThroughCell(c: Cell, lots: int, ns: nat): Cell {
    if c.mechanism != NotFilled then c else Cell(0, lots, ns, TradeThrough)
  }

  /** An unexplained removal advances the queue by beta of it, but never past its front. */
  function RemovalCell(c: Cell, removal: int, beta: int): Cell {
    if c.remaining == 0 then c
    else
      var left := c.remaining - ScalePercent(removal, beta);
      c.(remaining := if left < 0 then 0 else left)
  }

  function PrintCells(cells: seq<Cell>, qty: int, lots: int, ns: nat): (r: seq<Cell>)
    ensures |r| == |cells| && forall c | 0 <= c < |cells| :: r[c] == PrintCell(cells[c], qty, lots, ns)
  {
    seq(|cells|, c requires 0 <= c < |cells| => PrintCell(cells[c], qty, lots, ns))
  }

  function ThroughCells(cells: seq<Cell>, lots: int, ns: nat): (r: seq<Cell>)
    ensures |r| == |cells| && forall c | 0 <= c < |cells| :: r[c] == ThroughCell(cells[c], lots, ns)
  {
    seq(|cells|, c requires 0 <= c < |cells| => ThroughCell(cells[c], lots, ns))
  }

  function RemovalCells(cells: seq<Cell>, removal: int): (r: seq<Cell>)
    ensures |r| == |cells| && forall c | 0 <= c < |cells| :: r[c] == RemovalCell(cells[c], removal, Percent(c % STEPS))
  {
    seq(|cells|, c requires 0 <= c < |cells| => RemovalCell(cells[c], removal, Percent(c % STEPS)))
  }

  function PlaceOrder(side: QuoteSide, price: int, displayed: int, midX2: int, spread: int, ns: nat, segment: nat): Order {
    Order(ns, segment, side, price, displayed, midX2, spread, 0, 0, -1, InitialCells(displayed))
  }

  predicate GoesThrough(o: Order, t: Print) {
    if o.side == Bid then t.price < o.quote else t.price > o.quote
  }

  predicate Hits(o: Order, t: Print, ns: nat) {
    (if t.aggressiveBuy then o.side == Ask else o.side == Bid) && o.placement < ns
  }

  function PrintOrder(o: Order, t: Print, lots: int, ns: nat): Order {
    if !Hits(o, t, ns) then o
    else if GoesThrough(o, t) then o.(cells := ThroughCells(o.cells, lots, ns))
    else if t.price != o.quote then o
    else o.(tradePool := o.tradePool + t.qty, cells := PrintCells(o.cells, t.qty, lots, ns))
  }

  datatype Attribution = Attribution(behind: int, explained: int, unexplained: int)

  const NOTHING := Attribution(0, 0, 0)

  /** How a displayed reduction is charged: first to quantity that joined behind, then to prints that
      already advanced the queue, and only the rest is unexplained. */
  function Attribute(o: Order, removal: int): Attribution {
    var behind := Min(o.addedBehind, removal);
    var explained := Min(o.tradePool, removal - behind);
    Attribution(behind, explained, removal - behind - explained)
  }

  /** The displayed quantity at the quote became `after`. */
  function DepthOrder(o: Order, after: int): (Order, Attribution) {
    if o.preEventQty < 0 then (o, NOTHING)
    else
      var delta := after - o.preEventQty;
      if delta >= 0 then (o.(preEventQty := -1, addedBehind := o.addedBehind + delta), NOTHING)
      else
        var a := Attribute(o, -delta);
        (o.(preEventQty := -1, addedBehind := o.addedBehind - a.behind, tradePool := o.tradePool - a.explained,
            cells := if a.unexplained == 0 then o.cells else RemovalCells(o.cells, a.unexplained)), a)
  }

  /** Bounds every cell keeps. A filled cell has nothing ahead of it. */
  ghost predicate CellOk(c: Cell, lots: int) {
    && c.remaining >= 0 && 0 <= c.filled <= lots
    && (c.mechanism == NotFilled <==> c.filled < lots)
    && (c.filled > 0 ==> c.remaining == 0)
  }

  /** a is at least as far along as b: less queue, more filled, and filled whenever b is. */
  ghost predicate Leads(a: Cell, b: Cell) {
    && a.remaining <= b.remaining && a.filled >= b.filled
    && (b.mechanism != NotFilled ==> a.mechanism != NotFilled)
  }

  /** ... and filled no later on the clock. */
  ghost predicate FilledNoLater(a: Cell, b: Cell) {
    b.mechanism != NotFilled ==> a.mechanism != NotFilled && a.fillNs <= b.fillNs
  }

  /** Cell c assumes no more queue and no less credit than cell d. */
  predicate Optimistic(c: int, d: int) {
    0 <= c < CELLS && 0 <= d < CELLS && c / STEPS <= d / STEPS && c % STEPS >= d % STEPS
  }

  ghost predicate GridOk(cells: seq<Cell>, lots: int) {
    && |cells| == CELLS
    && (forall c | 0 <= c < CELLS :: CellOk(cells[c], lots))
    && (forall c, d | Optimistic(c, d) :: Leads(cells[c], cells[d]))
  }

  ghost predicate OrderOk(o: Order, lots: int) {
    o.addedBehind >= 0 && o.tradePool >= 0 && GridOk(o.cells, lots)
  }

  /** Fill stamps of the order lie in the past and respect the grid's order. */
  ghost predicate TimesOk(o: Order, clock: nat) {
    && |o.cells| == CELLS
    && (forall c | 0 <= c < CELLS :: o.cells[c].fillNs <= clock)
    && (forall c, d | Optimistic(c, d) :: FilledNoLater(o.cells[c], o.cells[d]))
  }

  lemma ScaleMonotone(value: int, p: int, q: int)
    requires value >= 0 && 0 <= p <= q
    ensures 0 <= ScalePercent(value, p) <= ScalePercent(value, q)
  {
    assert 0 <= value * p <= value * q;
  }

  lemma PercentMonotone(i: nat, j: nat)
    requires i <= j < STEPS
    ensures 0 <= Percent(i) <= Percent(j)
  {
  }

  lemma PlacementKeepsGrid(side: QuoteSide, price: int, displayed: int, midX2: int, spread: int, ns: nat, segment: nat, lots: int,
                            clock: nat)
    requires displayed >= 0 && lots > 0
    ensures OrderOk(PlaceOrder(side, price, displayed, midX2, spread, ns, segment), lots)
    ensures TimesOk(PlaceOrder(side, price, displayed, midX2, spread, ns, segment), clock)
  {
    forall c, d | Optimistic(c, d)
      ensures Leads(InitialCells(displayed)[c], InitialCells(displayed)[d])
    {
      PercentMonotone(c / STEPS, d / STEPS);
      ScaleMonotone(displayed, Percent(c / STEPS), Percent(d / STEPS));
    }
    forall c | 0 <= c < CELLS ensures CellOk(InitialCells(displayed)[c], lots) {
      PercentMonotone(c / STEPS, c / STEPS);
      ScaleMonotone(displayed, Percent(c / STEPS), Percent(c / STEPS));
    }
  }

  lemma PrintKeepsLead(a: Cell, b: Cell, qty: int, lots: int, ns: nat)
    requires CellOk(a, lots) && CellOk(b, lots) && Leads(a, b) && qty >= 0
    ensures CellOk(PrintCell(a, qty, lots, ns), lots)
    ensures Leads(PrintCell(a, qty, lots, ns), PrintCell(b, qty, lots, ns))
    ensures FilledNoLater(a, b) && a.fillNs <= ns ==> FilledNoLater(PrintCell(a, qty, lots, ns), PrintCell(b, qty, lots, ns))
  {
  }

  lemma ThroughKeepsLead(a: Cell, b: Cell, lots: int, ns: nat)
    requires CellOk(a, lots) && CellOk(b, lots) && Leads(a, b) && lots > 0
    ensures CellOk(ThroughCell(a, lots, ns), lots)
    ensures Leads(ThroughCell(a, lots, ns), ThroughCell(b, lots, ns))
    ensures FilledNoLater(a, b) && a.fillNs <= ns ==> FilledNoLater(ThroughCell(a, lots, ns), ThroughCell(b, lots, ns))
  {
  }

  lemma RemovalKeepsLead(a: Cell, b: Cell, removal: int, p: int, q: int, lots: int)
    requires CellOk(a, lots) && CellOk(b, lots) && Leads(a, b) && removal >= 0 && 0 <= p <= q
    ensures CellOk(RemovalCell(a, removal, q), lots)
    ensures Leads(RemovalCell(a, removal, q), RemovalCell(b, removal, p))
  {
    ScaleMonotone(removal, p, q);
  }

  /** Every print keeps the grid's order. */
  lemma PrintKeepsGrid(o: Order, t: Print, lots: int, ns: nat, clock: nat)
    requires OrderOk(o, lots) && t.qty >= 0 && lots > 0
    ensures OrderOk(PrintOrder(o, t, lots, ns), lots)
    ensures TimesOk(o, clock) && clock <= ns ==> TimesOk(PrintOrder(o, t, lots, ns), ns)
  {
    var r := PrintOrder(o, t, lots, ns);
    forall c, d | Optimistic(c, d)
      ensures CellOk(r.cells[c], lots) && Leads(r.cells[c], r.cells[d])
      ensures TimesOk(o, clock) && clock <= ns ==> FilledNoLater(r.cells[c], r.cells[d])
    {
      assert Leads(o.cells[c], o.cells[d]) && CellOk(o.cells[c], lots) && CellOk(o.cells[d], lots);
      PrintKeepsLead(o.cells[c], o.cells[d], t.qty, lots, ns);
      ThroughKeepsLead(o.cells[c], o.cells[d], lots, ns);
    }
    forall c | 0 <= c < CELLS ensures CellOk(r.cells[c], lots) {
      assert Optimistic(c, c);
    }
  }

  /** Every displayed change keeps the grid's order, and its attribution is exact. */
  lemma DepthKeepsGrid(o: Order, after: int, lots: int, clock: nat)
    requires OrderOk(o, lots)
    ensures var (r, a) := DepthOrder(o, after);
            && OrderOk(r, lots) && (TimesOk(o, clock) ==> TimesOk(r, clock))
            && a.behind >= 0 && a.explained >= 0 && a.unexplained >= 0
            && a.behind + a.explained + a.unexplained
               == (if o.preEventQty < 0 || after >= o.preEventQty then 0 else o.preEventQty - after)
  {
    var (r, a) := DepthOrder(o, after);
    if a.unexplained > 0 {
      forall c, d | Optimistic(c, d)
        ensures CellOk(r.cells[c], lots) && Leads(r.cells[c], r.cells[d])
        ensures TimesOk(o, clock) ==> FilledNoLater(r.cells[c], r.cells[d])
      {
        assert Leads(o.cells[c], o.cells[d]) && CellOk(o.cells[c], lots) && CellOk(o.cells[d], lots);
        assert TimesOk(o, clock) ==> FilledNoLater(o.cells[c], o.cells[d]);
        PercentMonotone(d % STEPS, c % STEPS);
        RemovalKeepsLead(o.cells[c], o.cells[d], a.unexplained, Percent(d % STEPS), Percent(c % STEPS), lots);
      }
      forall c | 0 <= c < CELLS ensures CellOk(r.cells[c], lots) {
        assert Optimistic(c, c);
      }
    }
  }

  /** What reaches a resting order: prints, and displayed changes seen just before and after a depth
      event. */
  datatype OrderEvent = Printed(ns: nat, exchangeTime: nat, trade: Print) | Displayed(before: int, after: int)

  function ApplyEvent(o: Order, e: OrderEvent, lots: int): Order {
    match e
    case Printed(ns, _, t) => PrintOrder(o, t, lots, ns)
    case Displayed(before, after) => DepthOrder(o.(preEventQty := before), after).0
  }

  ghost function RunOrder(o: Order, es: seq<OrderEvent>, lots: int, n: nat): (r: Order)
    requires n <= |es|
    ensures |r.cells| == |o.cells|
  {
    if n == 0 then o else ApplyEvent(RunOrder(o, es, lots, n - 1), es[n - 1], lots)
  }

  ghost predicate PrintsSane(es: seq<OrderEvent>) {
    forall i | 0 <= i < |es| && es[i].Printed? :: es[i].trade.qty >= 0
  }

  /** The latest stamp among the first n prints, never before the start. */
  ghost function ClockAt(es: seq<OrderEvent>, start: nat, n: nat): nat
    requires n <= |es|
  {
    if n == 0 then start else if es[n - 1].Printed? then es[n - 1].ns else ClockAt(es, start, n - 1)
  }

  ghost predicate StampsRise(es: seq<OrderEvent>, start: nat, n: nat)
    requires n <= |es|
  {
    n > 0 ==> StampsRise(es, start, n - 1) && ClockAt(es, start, n - 1) <= ClockAt(es, start, n)
  }

  /** Over every run of prints and displayed changes, a cell assuming less queue and more credit is
      never behind; with non-decreasing stamps it also never fills later. */
  lemma {:induction false} GridMonotone(o: Order, es: seq<OrderEvent>, lots: int, start: nat, n: nat)
    requires OrderOk(o, lots) && lots > 0 && PrintsSane(es) && n <= |es|
    ensures OrderOk(RunOrder(o, es, lots, n), lots)
    ensures TimesOk(o, start) && StampsRise(es, start, n) ==> TimesOk(RunOrder(o, es, lots, n), ClockAt(es, start, n))
  {
    if n > 0 {
      GridMonotone(o, es, lots, start, n - 1);
      var was := RunOrder(o, es, lots, n - 1);
      match es[n - 1]
      case Printed(ns, _, t) => PrintKeepsGrid(was, t, lots, ns, ClockAt(es, start, n - 1));
      case Displayed(before, after) => DepthKeepsGrid(was.(preEventQty := before), after, lots, ClockAt(es, start, n - 1));
    }
  }
}
