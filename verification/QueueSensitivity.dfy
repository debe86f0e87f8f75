/** QueueSensitivityObserver (cpp/research/queue_sensitivity.cpp): the class that places hypothetical
    orders on a live book, streams prints and displayed changes over every pending one and emits each
    exactly once. */
module QueueSensitivity {
  import opened Wrappers
  import opened OrderBooks
  import opened QueueGrid
  import opened Grids

  datatype PlacementMode = Grid | LevelBirth

  datatype Config = Config(mode: PlacementMode, placementNs: nat, windowNs: nat, lots: int) {
    predicate Ok() { placementNs > 0 && windowNs > 0 && lots > 0 }
  }

  /** An emitted order with the end of the observation it actually got. */
  datatype Emission = Emission(order: Order, observedEnd: nat)

  /** What identifies a placement. */
  datatype Placement = Placement(ns: nat, segment: nat, side: QuoteSide, quote: int)

  function PlacementOf(o: Order): Placement {
    Placement(o.placement, o.segment, o.side, o.quote)
  }

  ghost function PendingPlacements(os: seq<Order>): (r: seq<Placement>)
    ensures |r| == |os|
  {
    seq(|os|, i requires 0 <= i < |os| => PlacementOf(os[i]))
  }

  ghost function EmittedPlacements(es: seq<Emission>): (r: seq<Placement>)
    ensures |r| == |es|
  {
    seq(|es|, i requires 0 <= i < |es| => PlacementOf(es[i].order))
  }

  /** Every order's grid is in order; its fill stamps too, as long as record stamps never went back. */
  ghost predicate Healthy(o: Order, lots: int, clock: nat, monotone: bool) {
    OrderOk(o, lots) && (monotone ==> TimesOk(o, clock))
  }

  ghost predicate AllHealthy(os: seq<Order>, lots: int, clock: nat, monotone: bool) {
    forall k | 0 <= k < |os| :: Healthy(os[k], lots, clock, monotone)
  }

  ghost predicate EmissionsHealthy(es: seq<Emission>, config: Config, clock: nat, monotone: bool) {
    forall k | 0 <= k < |es| :: Healthy(es[k].order, config.lots, clock, monotone)
                                && es[k].observedEnd <= es[k].order.placement + config.windowNs
  }

  function TouchOf(side: QuoteSide, book: Book): Side {
    if side == Bid then book.bids else book.asks
  }

  function PrintAll(os: seq<Order>, t: Print, lots: int, ns: nat): (r: seq<Order>)
    ensures |r| == |os| && forall k | 0 <= k < |os| :: r[k] == PrintOrder(os[k], t, lots, ns)
  {
    seq(|os|, k requires 0 <= k < |os| => PrintOrder(os[k], t, lots, ns))
  }

  /** before_depth_event: remember what each order's price level shows. */
  function Observe(o: Order, book: Book): Order {
    o.(preEventQty := QuantityAt(TouchOf(o.side, book), o.quote))
  }

  function Forget(o: Order): Order {
    o.(preEventQty := -1)
  }

  function DepthStep(o: Order, book: Book): (Order, Attribution) {
    DepthOrder(o, QuantityAt(TouchOf(o.side, book), o.quote))
  }

  /** A forgotten order is charged nothing until it is observed again; an observed one exactly its level's
      change. */
  lemma ForgottenIsSpared(o: Order, book: Book, before: Book)
    ensures DepthStep(Forget(o), book) == (Forget(o), Attribution(0, 0, 0))
    ensures QuantityAt(TouchOf(o.side, before), o.quote) >= 0 ==>
              var a := DepthStep(Observe(o, before), book).1;
              var removed := QuantityAt(TouchOf(o.side, before), o.quote) - QuantityAt(TouchOf(o.side, book), o.quote);
              && a.behind + a.explained + a.unexplained == (if removed > 0 then removed else 0)
              && DepthStep(Observe(o, before), book).0.preEventQty == -1
  {
  }

  /** A depth event over every pending order, and one that told nothing. */
  ghost function ChargedAll(os: seq<Order>, book: Book): (r: seq<Order>)
    ensures |r| == |os| && forall k | 0 <= k < |os| :: r[k] == DepthStep(os[k], book).0
  {
    seq(|os|, k requires 0 <= k < |os| => DepthStep(os[k], book).0)
  }

  ghost function ForgottenAll(os: seq<Order>): (r: seq<Order>)
    ensures |r| == |os| && forall k | 0 <= k < |os| :: r[k] == Forget(os[k])
  {
    seq(|os|, k requires 0 <= k < |os| => Forget(os[k]))
  }

  /** Lots by which the displayed quantity at the pending orders' prices fell. */
  ghost function Reduction(os: seq<Order>, book: Book, n: nat): int
    requires n <= |os|
  {
    if n == 0 then 0
    else
      var after := QuantityAt(TouchOf(os[n - 1].side, book), os[n - 1].quote);
      Reduction(os, book, n - 1) +
      if os[n - 1].preEventQty < 0 || after >= os[n - 1].preEventQty then 0 else os[n - 1].preEventQty - after
  }

  /** How the first n of them are charged, taken together. */
  ghost function Charges(os: seq<Order>, book: Book, n: nat): Attribution
    requires n <= |os|
  {
    if n == 0 then NOTHING
    else
      var before, a := Charges(os, book, n - 1), DepthStep(os[n - 1], book).1;
      Attribution(before.behind + a.behind, before.explained + a.explained, before.unexplained + a.unexplained)
  }

  /** Length of the run of orders at the front whose window has passed. */
  function DuePrefix(os: seq<Order>, windowNs: nat, local: nat, n: nat): (k: nat)
    requires n <= |os|
    ensures n <= k <= |os|
    decreases |os| - n
  {
    if n < |os| && local >= os[n].placement + windowNs then DuePrefix(os, windowNs, local, n + 1) else n
  }

  /** An order on each side at the touch of a usable book. */
  function Pair(ns: nat, segment: nat, book: Book): (os: seq<Order>)
    ensures |os| == if book.TwoSided() then 2 else 0
  {
    if !book.TwoSided() then [] else
      var midX2, spread := book.MidX2(), book.asks.price - book.bids.price;
      [PlaceOrder(Bid, book.bids.price, book.bids.qty, midX2, spread, ns, segment),
       PlaceOrder(Ask, book.asks.price, book.asks.qty, midX2, spread, ns, segment)]
  }

  /** The orders due from `next` on: a pair at every grid instant before the stamp (or up to it). */
  ghost function DueOrders(next: nat, local: nat, inclusive: bool, step: nat, segment: nat, book: Book): seq<Order>
    requires step > 0
    decreases local + 1 - next
  {
    if !(next < local || (inclusive && next == local)) then []
    else Pair(next, segment, book) + DueOrders(next + step, local, inclusive, step, segment, book)
  }

  /** The orders born with a new best price: none on a side whose best is the one last seen. */
  function BornOrders(lastBest: Option<(int, int)>, local: nat, segment: nat, book: Book): seq<Order> {
    if !book.TwoSided() then [] else
      (if lastBest.None? || lastBest.value.0 != book.bids.price then [Pair(local, segment, book)[0]] else [])
      + (if lastBest.None? || lastBest.value.1 != book.asks.price then [Pair(local, segment, book)[1]] else [])
  }

  /** The first n orders as emitted at a stamp, each with the part of its window seen by then. */
  ghost function Observed(os: seq<Order>, windowNs: nat, local: nat, n: nat): (es: seq<Emission>)
    requires n <= |os|
    ensures |es| == n && forall k | 0 <= k < n :: es[k] == Emission(os[k], SeenUntil(os[k], windowNs, local))
  {
    seq(n, k requires 0 <= k < n => Emission(os[k], SeenUntil(os[k], windowNs, local)))
  }

  function SeenUntil(o: Order, windowNs: nat, local: nat): nat {
    if o.placement + windowNs < local then o.placement + windowNs else local
  }

  /** What a new segment starts with: the pair of its first instant if that is now, or a pair at once. */
  ghost function FirstOrders(config: Config, local: nat, segment: nat, book: Book): seq<Order>
    requires config.placementNs > 0
  {
    if config.mode == Grid then DueOrders(NextInstant(local, config.placementNs), local, true, config.placementNs, segment, book)
    else BornOrders(None, local, segment, book)
  }

  /** The observer as its callbacks leave it. */
  datatype Desk = Desk(pending: seq<Order>, emitted: seq<Emission>, next: nat, inSegment: bool, segment: nat,
                       lastBest: Option<(int, int)>, lastMid: Option<int>, midPath: seq<(nat, int)>)

  /** The first k orders leave at a stamp. */
  ghost function Left(d: Desk, windowNs: nat, local: nat, k: nat): Desk
    requires k <= |d.pending|
  {
    d.(pending := d.pending[k..], emitted := d.emitted + Observed(d.pending, windowNs, local, k))
  }

  lemma LeftOneMore(d: Desk, windowNs: nat, local: nat, k: nat)
    requires k < |d.pending|
    ensures var l := Left(d, windowNs, local, k);
            && |l.pending| > 0 && l.pending[0] == d.pending[k]
            && Left(d, windowNs, local, k + 1)
               == l.(pending := l.pending[1..], emitted := l.emitted + [Emission(l.pending[0], SeenUntil(l.pending[0], windowNs, local))])
  {
    assert Observed(d.pending, windowNs, local, k + 1)
        == Observed(d.pending, windowNs, local, k) + [Emission(d.pending[k], SeenUntil(d.pending[k], windowNs, local))];
  }

  /** A segment edge: every resting order leaves with the part of its window it actually got. */
  ghost function Cut(d: Desk, windowNs: nat, local: nat): Desk {
    Left(d, windowNs, local, |d.pending|)
  }

  /** Grid orders are placed up to a stamp at the touch of a usable book. */
  ghost function Advanced(d: Desk, config: Config, local: nat, inclusive: bool, book: Book): Desk
    requires config.placementNs > 0
  {
    d.(pending := d.pending + if book.valid then DueOrders(d.next, local, inclusive, config.placementNs, d.segment, book) else [],
       next := NextFrom(d.next, local, inclusive, config.placementNs))
  }

  lemma AdvancedStep(d: Desk, config: Config, local: nat, inclusive: bool, book: Book)
    requires config.placementNs > 0
    ensures var ahead := d.next < local || (inclusive && d.next == local);
            Advanced(d, config, local, inclusive, book)
            == if !ahead then d
               else Advanced(d.(pending := d.pending + if book.valid then Pair(d.next, d.segment, book) else [],
                                next := d.next + config.placementNs), config, local, inclusive, book)
  {
  }

  /** A record inside a segment: orders whose window has passed leave in placement order, and in grid mode
      the placements due are made. */
  ghost function Stepped(d: Desk, config: Config, local: nat, inclusive: bool, book: Book): Desk
    requires config.placementNs > 0
  {
    var l := Left(d, config.windowNs, local, DuePrefix(d.pending, config.windowNs, local, 0));
    if config.mode == Grid then Advanced(l, config, local, inclusive, book) else l
  }

  /** After the event that made a price the best on its side, one order arrives behind all of it. */
  ghost function Birthed(d: Desk, local: nat, book: Book): Desk
    requires book.TwoSided()
  {
    d.(pending := d.pending + BornOrders(d.lastBest, local, d.segment, book), lastBest := Some((book.bids.price, book.asks.price)))
  }

  /** After an applied event the mid path grows, and a level born at the touch may bring an order. */
  ghost function Followed(d: Desk, config: Config, local: nat, book: Book, usable: bool): Desk
    requires book.TwoSided()
  {
    var m := d.(lastMid := Some(book.MidX2()),
                midPath := d.midPath + if d.lastMid == Some(book.MidX2()) then [] else [(local, book.MidX2())]);
    if config.mode == LevelBirth && usable && book.valid then Birthed(m, local, book) else m
  }

  /** An applied event: every pending order is charged with what its own level did, then the desk follows. */
  ghost function Told(d: Desk, config: Config, local: nat, book: Book, usable: bool): Desk
    requires book.TwoSided()
  {
    Followed(d.(pending := ChargedAll(d.pending, book)), config, local, book, usable)
  }

  /** What a segment starts with. */
  ghost function Started(d: Desk, config: Config, local: nat, book: Book): Desk
    requires config.placementNs > 0 && book.TwoSided()
  {
    var first := NextInstant(local, config.placementNs);
    Desk(FirstOrders(config, local, d.segment + 1, book), d.emitted,
         if config.mode == Grid then NextFrom(first, local, true, config.placementNs) else first, true, d.segment + 1,
         if config.mode == Grid then None else Some((book.bids.price, book.asks.price)),
         Some(book.MidX2()), d.midPath + [(local, book.MidX2())])
  }

  /** What concluding a record does: a segment that lost a stream ends, one that has both goes on or
      starts. */
  ghost function Concluded(d: Desk, config: Config, local: nat, book: Book, usable: bool): Desk
    requires config.placementNs > 0 && (book.valid ==> book.TwoSided())
  {
    if d.inSegment && usable then Stepped(d, config, local, true, book)
    else if d.inSegment then Cut(d, config.windowNs, local).(inSegment := false)
    else if usable && book.valid then Started(d, config, local, book)
    else d
  }

  class QueueSensitivityObserver {
    const config: Config
    var pending: seq<Order>
    var emitted: seq<Emission>
    var nextPlacement: nat
    var bookLive: bool
    var tradeStreamUp: bool
    var inSegment: bool
    var segmentId: nat
    var segmentStart: nat
    var lastRecord: nat
    var lastMid: Option<int>
    var lastBest: Option<(int, int)>
    var midPath: seq<(nat, int)>
    var behindLots: int
    var explainedLots: int
    var unexplainedLots: int
    ghost var placed: seq<Placement>
    ghost var clock: nat
    ghost var monotone: bool
    ghost var reduced: int

    /** Holds between any two callbacks of any replay. */
    ghost predicate Valid()
      reads this
    {
      && config.Ok()
      && AllHealthy(pending, config.lots, clock, monotone)
      && EmissionsHealthy(emitted, config, clock, monotone)
      && EmittedPlacements(emitted) + PendingPlacements(pending) == placed
      && (!inSegment ==> pending == [])
      && behindLots + explainedLots + unexplainedLots == reduced
      && behindLots >= 0 && explainedLots >= 0 && unexplainedLots >= 0
    }

    predicate Usable()
      reads `bookLive, `tradeStreamUp
    {
      bookLive && tradeStreamUp
    }

    ghost function View(): Desk
      reads this
    {
      Desk(pending, emitted, nextPlacement, inSegment, segmentId, lastBest, lastMid, midPath)
    }

    constructor (config: Config)
      requires config.Ok()
      ensures Valid() && this.config == config && placed == [] && pending == [] && emitted == []
      ensures !tradeStreamUp && monotone && clock == 0 && View() == Desk([], [], 0, false, 0, None, None, [])
    {
      this.config := config;
      pending, emitted, midPath := [], [], [];
      nextPlacement, segmentId, segmentStart, lastRecord := 0, 0, 0, 0;
      bookLive, tradeStreamUp, inSegment := false, false, false;
      lastMid, lastBest := None, None;
      behindLots, explainedLots, unexplainedLots := 0, 0, 0;
      placed, clock, monotone, reduced := [], 0, true, 0;
    }

    /** Emits and pops the front order. */
    method EmitFront(observedEnd: nat)
      requires Valid() && pending != [] && observedEnd <= pending[0].placement + config.windowNs
      modifies `pending, `emitted
      ensures Valid()
      ensures pending == old(pending)[1..] && emitted == old(emitted) + [Emission(old(pending)[0], observedEnd)]
    {
      assert PendingPlacements(pending) == [PlacementOf(pending[0])] + PendingPlacements(pending[1..]);
      assert EmittedPlacements(emitted + [Emission(pending[0], observedEnd)])
          == EmittedPlacements(emitted) + [PlacementOf(pending[0])];
      emitted := emitted + [Emission(pending[0], observedEnd)];
      pending := pending[1..];
    }

    /** Orders leave from the front, in placement order, as soon as their window has passed. */
    method Retire(local: nat)
      requires Valid()
      modifies `pending, `emitted
      ensures Valid()
      ensures View() == Left(old(View()), config.windowNs, local, DuePrefix(old(pending), config.windowNs, local, 0))
    {
      ghost var was, k := View(), 0;
      while pending != [] && local >= pending[0].placement + config.windowNs
        invariant Valid() && k <= |was.pending| && View() == Left(was, config.windowNs, local, k)
        invariant DuePrefix(was.pending, config.windowNs, local, 0) == DuePrefix(was.pending, config.windowNs, local, k)
        decreases |pending|
      {
        RetireFront(local, was, k);
        k := k + 1;
      }
    }

    method RetireFront(local: nat, ghost was: Desk, ghost k: nat)
      requires Valid() && k < |was.pending| && View() == Left(was, config.windowNs, local, k)
      requires pending != [] && local >= pending[0].placement + config.windowNs
      modifies `pending, `emitted
      ensures Valid() && View() == Left(was, config.windowNs, local, k + 1)
    {
      LeftOneMore(was, config.windowNs, local, k);
      EmitFront(pending[0].placement + config.windowNs);
    }

    /** Every resting order is abandoned at a segment edge with the window it actually got. */
    method CloseSegment(local: nat)
      requires Valid()
      modifies `pending, `emitted, `inSegment
      ensures Valid() && View() == Cut(old(View()), config.windowNs, local).(inSegment := false)
    {
      if inSegment {
        EmitAll(local);
        inSegment := false;
      }
    }

    method EmitAll(local: nat)
      requires Valid()
      modifies `pending, `emitted
      ensures Valid() && View() == Cut(old(View()), config.windowNs, local)
    {
      ghost var was, k := View(), 0;
      while pending != []
        invariant Valid() && k <= |was.pending| && View() == Left(was, config.windowNs, local, k)
        decreases |pending|
      {
        LeftOneMore(was, config.windowNs, local, k);
        var windowEnd := pending[0].placement + config.windowNs;
        EmitFront(if windowEnd < local then windowEnd else local);
        k := k + 1;
      }
    }

    method PlaceSide(side: QuoteSide, price: int, displayed: int, midX2: int, spread: int, local: nat)
      requires Valid() && inSegment && displayed >= 0
      modifies `pending, `placed
      ensures Valid()
      ensures pending == old(pending) + [PlaceOrder(side, price, displayed, midX2, spread, local, segmentId)]
      ensures placed == old(placed) + [Placement(local, segmentId, side, price)]
    {
      var order := PlaceOrder(side, price, displayed, midX2, spread, local, segmentId);
      PlacementKeepsGrid(side, price, displayed, midX2, spread, local, segmentId, config.lots, clock);
      assert PendingPlacements(pending + [order]) == PendingPlacements(pending) + [PlacementOf(order)];
      pending := pending + [order];
      placed := placed + [PlacementOf(order)];
    }

    /** One order per side at the touch of a usable book. */
    method Place(local: nat, book: Book)
      requires Valid() && inSegment && book.Sound()
      modifies `pending, `placed
      ensures Valid() && pending == old(pending) + if book.valid then Pair(local, segmentId, book) else []
    {
      if !book.valid || !book.TwoSided() {
        return;
      }
      var midX2, spread := book.MidX2(), book.asks.price - book.bids.price;
      PlaceSide(Bid, book.bids.price, book.bids.qty, midX2, spread, local);
      PlaceSide(Ask, book.asks.price, book.asks.qty, midX2, spread, local);
    }

    /** Placements at every grid instant before the stamp (or up to it). */
    method PlaceDue(local: nat, inclusive: bool, book: Book)
      requires Valid() && inSegment && book.Sound()
      modifies `pending, `placed, `nextPlacement
      ensures Valid() && View() == Advanced(old(View()), config, local, inclusive, book)
    {
      while nextPlacement < local || (inclusive && nextPlacement == local)
        invariant Valid() && inSegment
        invariant Advanced(View(), config, local, inclusive, book) == Advanced(old(View()), config, local, inclusive, book)
        decreases local + 1 - nextPlacement
      {
        AdvancedStep(View(), config, local, inclusive, book);
        PlaceInstant(book);
      }
      AdvancedStep(View(), config, local, inclusive, book);
    }

    method PlaceInstant(book: Book)
      requires Valid() && inSegment && book.Sound()
      modifies `pending, `placed, `nextPlacement
      ensures Valid() && nextPlacement == old(nextPlacement) + config.placementNs
      ensures pending == old(pending) + if book.valid then Pair(old(nextPlacement), segmentId, book) else []
    {
      Place(nextPlacement, book);
      nextPlacement := nextPlacement + config.placementNs;
    }

    /** After the event that made a price the best on its side, one order arrives behind all of it. */
    method PlaceOnLevelBirth(local: nat, book: Book)
      requires Valid() && inSegment && book.Sound()
      modifies `pending, `placed, `lastBest
      ensures Valid() && View() == if book.valid then Birthed(old(View()), local, book) else old(View())
    {
      if !book.valid || !book.TwoSided() {
        return;
      }
      var midX2, spread := book.MidX2(), book.asks.price - book.bids.price;
      if lastBest.None? || lastBest.value.0 != book.bids.price {
        PlaceSide(Bid, book.bids.price, book.bids.qty, midX2, spread, local);
      }
      if lastBest.None? || lastBest.value.1 != book.asks.price {
        PlaceSide(Ask, book.asks.price, book.asks.qty, midX2, spread, local);
      }
      lastBest := Some((book.bids.price, book.asks.price));
    }

    /** One point per observed mid change. */
    method RecordMid(local: nat, midX2: int)
      modifies `lastMid, `midPath
      ensures lastMid == Some(midX2)
      ensures midPath == if old(lastMid) == Some(midX2) then old(midPath) else old(midPath) + [(local, midX2)]
    {
      if lastMid.Some? && lastMid.value == midX2 {
        return;
      }
      lastMid := Some(midX2);
      midPath := midPath + [(local, midX2)];
    }

    /** Orders whose window has passed leave, and grid orders due before the record are placed on the
        book it has not touched yet. */
    method BeforeRecord(local: nat, book: Book, live: bool)
      requires Valid() && book.Sound()
      modifies `bookLive, `clock, `monotone, `pending, `emitted, `placed, `nextPlacement
      ensures Valid() && clock == local && monotone == (old(monotone) && old(clock) <= local) && bookLive == live
      ensures config.placementNs > 0
      ensures View() == if inSegment && Usable() then Stepped(old(View()), config, local, false, book) else old(View())
    {
      Arrive(local, live);
      if inSegment && live && tradeStreamUp {
        RetireAndPlace(local, false, book);
      }
    }

    method Arrive(local: nat, live: bool)
      requires Valid()
      modifies `bookLive, `clock, `monotone
      ensures Valid() && clock == local && monotone == (old(monotone) && old(clock) <= local) && bookLive == live
    {
      LaterClock(pending, emitted, config, clock, local, monotone);
      monotone := monotone && clock <= local;
      clock := local;
      bookLive := live;
    }

    method RetireAndPlace(local: nat, inclusive: bool, book: Book)
      requires Valid() && inSegment && book.Sound()
      modifies `pending, `emitted, `placed, `nextPlacement
      ensures Valid() && config.placementNs > 0 && View() == Stepped(old(View()), config, local, inclusive, book)
    {
      Retire(local);
      if config.mode == Grid {
        PlaceDue(local, inclusive, book);
      }
    }

    method OnConnection(tradeStream: bool, open: bool)
      requires Valid()
      modifies `tradeStreamUp
      ensures Valid() && tradeStreamUp == if tradeStream then open else old(tradeStreamUp)
    {
      if tradeStream {
        tradeStreamUp := open;
      }
    }

    method BeforeDepthEvent(book: Book)
      requires Valid()
      modifies `pending
      ensures Valid() && |pending| == |old(pending)|
      ensures forall k | 0 <= k < |pending| ::
                pending[k] == if inSegment && book.valid then Observe(old(pending)[k], book) else old(pending)[k]
    {
      if !inSegment || !book.valid {
        return;
      }
      var k := 0;
      ghost var was := pending;
      while k < |pending|
        invariant 0 <= k <= |pending| == |was| && Valid()
        invariant forall j | 0 <= j < |was| :: pending[j] == if j < k then Observe(was[j], book) else was[j]
      {
        PendingUpdate(pending, k, Observe(pending[k], book));
        pending := pending[k := Observe(pending[k], book)];
        k := k + 1;
      }
    }

    /** Every pending order sees what its own level did; the three attributions account for every lot
        the displayed quantity lost. */
    method AfterDepthEvent(local: nat, book: Book, applied: bool, live: bool)
      requires Valid() && book.Sound()
      modifies `bookLive, `pending, `placed, `lastBest, `lastMid, `midPath, `behindLots, `explainedLots, `unexplainedLots, `reduced
      ensures Valid() && bookLive == live
      ensures reduced == old(reduced) + if applied && inSegment && book.valid then Reduction(old(pending), book, |old(pending)|) else 0
      ensures var a := if applied && inSegment && book.valid then Charges(old(pending), book, |old(pending)|) else NOTHING;
              && behindLots == old(behindLots) + a.behind && explainedLots == old(explainedLots) + a.explained
              && unexplainedLots == old(unexplainedLots) + a.unexplained
      ensures View() == if applied && inSegment && book.valid then Told(old(View()), config, local, book, Usable())
                        else old(View()).(pending := ForgottenAll(old(pending)))
    {
      if !applied || !inSegment || !book.valid {
        ForgetAll();
        bookLive := live;
      } else {
        ChargeAll(book);
        Follow(local, book, live);
      }
    }

    /** After an applied event: the mid path grows, and a level born at the touch may bring an order. */
    method Follow(local: nat, book: Book, live: bool)
      requires Valid() && inSegment && book.Sound() && book.valid
      modifies `bookLive, `pending, `placed, `lastBest, `lastMid, `midPath
      ensures Valid() && bookLive == live && View() == Followed(old(View()), config, local, book, Usable())
    {
      bookLive := live;
      RecordMid(local, book.MidX2());
      if config.mode == LevelBirth && bookLive && tradeStreamUp {
        PlaceOnLevelBirth(local, book);
      }
    }

    method ForgetAll()
      requires Valid()
      modifies `pending
      ensures Valid() && pending == ForgottenAll(old(pending))
    {
      var k := 0;
      ghost var was := pending;
      while k < |pending|
        invariant 0 <= k <= |pending| == |was| && Valid()
        invariant forall j | 0 <= j < |was| :: pending[j] == if j < k then Forget(was[j]) else was[j]
      {
        PendingUpdate(pending, k, Forget(pending[k]));
        pending := pending[k := Forget(pending[k])];
        k := k + 1;
      }
    }

    method ChargeAll(book: Book)
      requires Valid() && book.Sound()
      modifies `pending, `behindLots, `explainedLots, `unexplainedLots, `reduced
      ensures Valid() && reduced == old(reduced) + Reduction(old(pending), book, |old(pending)|)
      ensures var a := Charges(old(pending), book, |old(pending)|);
              && behindLots == old(behindLots) + a.behind && explainedLots == old(explainedLots) + a.explained
              && unexplainedLots == old(unexplainedLots) + a.unexplained
      ensures pending == ChargedAll(old(pending), book)
    {
      var k := 0;
      ghost var was := pending;
      while k < |pending|
        invariant 0 <= k <= |pending| == |was| && Valid()
        invariant reduced == old(reduced) + Reduction(was, book, k)
        invariant behindLots == old(behindLots) + Charges(was, book, k).behind
        invariant explainedLots == old(explainedLots) + Charges(was, book, k).explained
        invariant unexplainedLots == old(unexplainedLots) + Charges(was, book, k).unexplained
        invariant forall j | 0 <= j < |was| :: pending[j] == if j < k then DepthStep(was[j], book).0 else was[j]
      {
        Charge(k, book);
        k := k + 1;
      }
    }

    /** One order's share of a depth event. */
    method Charge(k: nat, book: Book)
      requires Valid() && k < |pending|
      modifies `pending, `behindLots, `explainedLots, `unexplainedLots, `reduced
      ensures Valid() && pending == old(pending)[k := DepthStep(old(pending)[k], book).0]
      ensures reduced == old(reduced) + Reduction(old(pending), book, k + 1) - Reduction(old(pending), book, k)
      ensures var a := DepthStep(old(pending)[k], book).1;
              && behindLots == old(behindLots) + a.behind && explainedLots == old(explainedLots) + a.explained
              && unexplainedLots == old(unexplainedLots) + a.unexplained
    {
      var after := QuantityAt(TouchOf(pending[k].side, book), pending[k].quote);
      DepthKeepsGrid(pending[k], after, config.lots, clock);
      var (order, a) := DepthOrder(pending[k], after);
      PendingUpdate(pending, k, order);
      reduced := reduced + Reduction(pending, book, k + 1) - Reduction(pending, book, k);
      pending := pending[k := order];
      behindLots := behindLots + a.behind;
      explainedLots := explainedLots + a.explained;
      unexplainedLots := unexplainedLots + a.unexplained;
    }

    method AfterSnapshot(local: nat, live: bool)
      requires Valid()
      modifies `bookLive, `pending, `emitted, `inSegment
      ensures Valid() && bookLive == live && View() == Cut(old(View()), config.windowNs, local).(inSegment := false)
    {
      CloseSegment(local);
      bookLive := live;
    }

    /** A print reaches every pending order, in order; nothing but their fill progress changes. */
    method OnTrade(local: nat, t: Print, live: bool)
      requires Valid() && local == clock && t.qty >= 0
      modifies `bookLive, `pending
      ensures Valid() && bookLive == live && |pending| == |old(pending)|
      ensures inSegment ==> forall k | 0 <= k < |pending| :: pending[k] == PrintOrder(old(pending)[k], t, config.lots, local)
      ensures !inSegment ==> pending == old(pending)
    {
      bookLive := live;
      if !inSegment {
        return;
      }
      var k := 0;
      ghost var was := pending;
      while k < |pending|
        invariant 0 <= k <= |pending| == |was| && Valid() && bookLive == live
        invariant forall j | 0 <= j < |was| :: pending[j] == if j < k then PrintOrder(was[j], t, config.lots, local) else was[j]
      {
        PrintKeepsGrid(pending[k], t, config.lots, local, clock);
        var order := StreamPrint(pending[k], t, local);
        PendingUpdate(pending, k, order);
        pending := pending[k := order];
        k := k + 1;
      }
    }

    /** The cell loop of one order. */
    method StreamPrint(order: Order, t: Print, local: nat) returns (r: Order)
      requires |order.cells| == CELLS
      ensures r == PrintOrder(order, t, config.lots, local)
    {
      r := order;
      if !Hits(order, t, local) {
        return;
      }
      var through := GoesThrough(order, t);
      if !through && t.price != order.quote {
        return;
      }
      var cells := order.cells;
      for c := 0 to CELLS
        invariant |cells| == CELLS
        invariant forall d | 0 <= d < CELLS ::
                    cells[d] == if d >= c then order.cells[d]
                                else if through then ThroughCell(order.cells[d], config.lots, local)
                                else PrintCell(order.cells[d], t.qty, config.lots, local)
      {
        cells := cells[c := if through then ThroughCell(cells[c], config.lots, local)
                            else PrintCell(cells[c], t.qty, config.lots, local)];
      }
      if through {
        assert cells == ThroughCells(order.cells, config.lots, local);
        r := order.(cells := cells);
      } else {
        assert cells == PrintCells(order.cells, t.qty, config.lots, local);
        r := order.(tradePool := order.tradePool + t.qty, cells := cells);
      }
    }

    /** After a record a segment that lost a stream ends, one that has both goes on or starts. */
    method AfterRecord(local: nat, book: Book, live: bool)
      requires Valid() && local == clock && book.Sound()
      modifies `bookLive, `lastRecord, `pending, `emitted, `placed, `nextPlacement, `inSegment, `segmentId, `segmentStart,
               `lastMid, `lastBest, `midPath
      ensures Valid() && bookLive == live && lastRecord == local && config.placementNs > 0
      ensures View() == Concluded(old(View()), config, local, book, Usable())
      ensures segmentStart == if !old(inSegment) && inSegment then local else old(segmentStart)
    {
      bookLive, lastRecord := live, local;
      if inSegment {
        RecordInside(local, book);
      } else {
        RecordOutside(local, book);
      }
    }

    method RecordInside(local: nat, book: Book)
      requires Valid() && inSegment && book.Sound()
      modifies `pending, `emitted, `placed, `nextPlacement, `inSegment
      ensures Valid() && config.placementNs > 0 && View() == Concluded(old(View()), config, local, book, Usable())
    {
      if Usable() {
        RetireAndPlace(local, true, book);
      } else {
        CloseSegment(local);
      }
    }

    method RecordOutside(local: nat, book: Book)
      requires Valid() && !inSegment && book.Sound()
      modifies `inSegment, `segmentId, `segmentStart, `pending, `placed, `lastMid, `lastBest, `midPath, `nextPlacement
      ensures Valid() && config.placementNs > 0 && View() == Concluded(old(View()), config, local, book, Usable())
      ensures segmentStart == if inSegment then local else old(segmentStart)
    {
      if Usable() && book.valid {
        StartSegment(local, book);
      }
    }

    /** A segment opens on the first record that leaves both streams usable. */
    method StartSegment(local: nat, book: Book)
      requires Valid() && !inSegment && book.Sound() && book.valid
      modifies `inSegment, `segmentId, `segmentStart, `pending, `placed, `lastMid, `lastBest, `midPath, `nextPlacement
      ensures Valid() && config.placementNs > 0 && View() == Started(old(View()), config, local, book) && segmentStart == local
    {
      OpenSegment(local);
      RecordMid(local, book.MidX2());
      if config.mode == Grid {
        PlaceDue(local, true, book);
      } else {
        PlaceOnLevelBirth(local, book);
      }
    }

    method OpenSegment(local: nat)
      requires Valid() && !inSegment
      modifies `inSegment, `segmentId, `segmentStart, `pending, `lastMid, `lastBest, `nextPlacement
      ensures Valid() && inSegment && segmentId == old(segmentId) + 1 && segmentStart == local && pending == []
      ensures nextPlacement == NextInstant(local, config.placementNs) && OnGrid(nextPlacement, config.placementNs)
      ensures lastBest == None && lastMid == None
    {
      inSegment := true;
      segmentId := segmentId + 1;
      segmentStart := local;
      pending := [];
      lastMid, lastBest := None, None;
      var remainder := local % config.placementNs;
      nextPlacement := if remainder == 0 then local else local + (config.placementNs - remainder);
      GridInstant(local, config.placementNs);
    }

    /** At the end of the input every order ever placed has been emitted exactly once, in placement order. */
    method Finish()
      requires Valid()
      modifies `pending, `emitted, `inSegment
      ensures Valid() && pending == [] && EmittedPlacements(emitted) == placed
      ensures View() == Cut(old(View()), config.windowNs, if lastRecord < segmentStart then segmentStart else lastRecord).(inSegment := false)
    {
      CloseSegment(if lastRecord < segmentStart then segmentStart else lastRecord);
      assert PendingPlacements(pending) == [];
    }
  }

  lemma PendingUpdate(os: seq<Order>, k: nat, o: Order)
    requires k < |os| && PlacementOf(o) == PlacementOf(os[k])
    ensures PendingPlacements(os[k := o]) == PendingPlacements(os)
  {
  }

  lemma LaterClock(os: seq<Order>, es: seq<Emission>, config: Config, was: nat, now: nat, monotone: bool)
    requires AllHealthy(os, config.lots, was, monotone) && EmissionsHealthy(es, config, was, monotone)
    ensures AllHealthy(os, config.lots, now, monotone && was <= now) && EmissionsHealthy(es, config, now, monotone && was <= now)
  {
    forall k | 0 <= k < |os| ensures Healthy(os[k], config.lots, now, monotone && was <= now) {
    }
    forall k | 0 <= k < |es| ensures Healthy(es[k].order, config.lots, now, monotone && was <= now) {
      assert Healthy(es[k].order, config.lots, was, monotone);
    }
  }
}
