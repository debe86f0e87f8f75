/** Which orders a replay calls for (cpp/research/queue_sensitivity.cpp:95-230, 255-465 under the callback
    order of cpp/replay/event_replayer.cpp:142-315): record by record for any input whatever, and in closed
    form where a live book is usable. */
module QueuePlans {
  import opened Wrappers
  import opened OrderBooks
  import opened QueueGrid
  import opened QueueSensitivity
  import opened Grids
  import opened GridRuns
  import opened Replays

  /** This observer ends its segment on a refused depth message only if that costs the live book, and
      places on the record that opens a segment. */
  const HABITS: Habits := Habits(false, true)

  /** The pair placed at an instant. */
  ghost function PairOn(t: nat, segment: nat, book: Book): seq<Placement>
    requires book.TwoSided()
  {
    [Placement(t, segment, Bid, book.bids.price), Placement(t, segment, Ask, book.asks.price)]
  }

  ghost function PairsOn(ts: seq<nat>, segment: nat, book: Book): seq<Placement>
    requires book.TwoSided()
  {
    if ts == [] then [] else PairOn(ts[0], segment, book) + PairsOn(ts[1..], segment, book)
  }

  lemma {:induction false} DueArePairs(next: nat, local: nat, inclusive: bool, step: nat, segment: nat, book: Book)
    requires step > 0 && book.TwoSided()
    ensures PendingPlacements(DueOrders(next, local, inclusive, step, segment, book))
         == PairsOn(Instants(next, local, inclusive, step), segment, book)
    decreases local + 1 - next
  {
    if next < local || (inclusive && next == local) {
      var rest, os := Instants(next + step, local, inclusive, step), DueOrders(next + step, local, inclusive, step, segment, book);
      DueArePairs(next + step, local, inclusive, step, segment, book);
      assert PendingPlacements(Pair(next, segment, book)) == PairOn(next, segment, book);
      assert PendingPlacements(Pair(next, segment, book) + os) == PendingPlacements(Pair(next, segment, book)) + PendingPlacements(os);
      assert ([next] + rest)[1..] == rest;
    } else {
      assert PendingPlacements([]) == [];
    }
  }

  /** The orders born with a new best price: none on a side whose best is the one last seen. */
  ghost function BirthsOn(lastBest: Option<(int, int)>, local: nat, segment: nat, book: Book): seq<Placement>
    requires book.TwoSided()
  {
    (if lastBest.None? || lastBest.value.0 != book.bids.price then [PairOn(local, segment, book)[0]] else [])
    + (if lastBest.None? || lastBest.value.1 != book.asks.price then [PairOn(local, segment, book)[1]] else [])
  }

  lemma BornAreBirths(lastBest: Option<(int, int)>, local: nat, segment: nat, book: Book)
    requires book.TwoSided()
    ensures PendingPlacements(BornOrders(lastBest, local, segment, book)) == BirthsOn(lastBest, local, segment, book)
  {
  }

  /** What the observer remembers besides its orders, and every order placed so far. */
  datatype Plan = Plan(open: bool, segment: nat, next: nat, lastBest: Option<(int, int)>, lastMid: Option<int>,
                       midPath: seq<(nat, int)>, placed: seq<Placement>)

  const NOTHING := Plan(false, 0, 0, None, None, [], [])

  /** A usable book shows both sides. */
  predicate Sane(book: Book) {
    book.valid ==> book.TwoSided()
  }

  /** A stamp reached inside a segment: in grid mode a pair for each instant passed. */
  ghost function Stamped(p: Plan, c: Config, local: nat, inclusive: bool, book: Book): Plan
    requires c.placementNs > 0 && Sane(book)
  {
    if c.mode != Grid then p
    else p.(next := NextFrom(p.next, local, inclusive, c.placementNs),
            placed := p.placed + if book.valid then PairsOn(Instants(p.next, local, inclusive, c.placementNs), p.segment, book) else [])
  }

  /** An applied event: the mid path grows, and in level-birth mode a new best price brings an order. */
  ghost function Noted(p: Plan, c: Config, local: nat, book: Book, usable: bool): Plan
    requires book.TwoSided()
  {
    var mid := book.MidX2();
    var m := p.(lastMid := Some(mid), midPath := p.midPath + if p.lastMid == Some(mid) then [] else [(local, mid)]);
    if c.mode == LevelBirth && usable then
      m.(lastBest := Some((book.bids.price, book.asks.price)), placed := p.placed + BirthsOn(p.lastBest, local, p.segment, book))
    else m
  }

  /** A segment that starts. */
  ghost function Begun(p: Plan, c: Config, local: nat, book: Book): Plan
    requires c.placementNs > 0 && book.TwoSided()
  {
    var first := NextInstant(local, c.placementNs);
    Plan(true, p.segment + 1, if c.mode == Grid then NextFrom(first, local, true, c.placementNs) else first,
         if c.mode == Grid then None else Some((book.bids.price, book.asks.price)), Some(book.MidX2()), p.midPath + [(local, book.MidX2())],
         p.placed + if c.mode == Grid then PairsOn(Instants(first, local, true, c.placementNs), p.segment + 1, book)
                    else PairOn(local, p.segment + 1, book))
  }

  ghost predicate Shown(rs: seq<Record>, i: nat)
    requires i < |rs|
  {
    Sane(BookBefore(rs, i)) && Sane(rs[i].book)
  }

  /** One record, announced, told and concluded. */
  ghost function Announced(p: Plan, c: Config, rs: seq<Record>, i: nat): Plan
    requires c.placementNs > 0 && i < |rs| && Shown(rs, i)
  {
    if p.open then Stamped(p, c, rs[i].local, false, BookBefore(rs, i)) else p
  }

  ghost function Told(p: Plan, c: Config, rs: seq<Record>, i: nat): Plan
    requires i < |rs| && Shown(rs, i)
  {
    if rs[i].event.Snapshot? then p.(open := false)
    else if Applies(rs[i]) && p.open then Noted(p, c, rs[i].local, rs[i].book, Open(rs, i + 1))
    else p
  }

  ghost function Concluded(p: Plan, c: Config, rs: seq<Record>, i: nat): Plan
    requires c.placementNs > 0 && i < |rs| && Shown(rs, i)
  {
    if p.open && Open(rs, i + 1) then Stamped(p, c, rs[i].local, true, rs[i].book)
    else if !p.open && Open(rs, i + 1) && rs[i].book.valid then Begun(p, c, rs[i].local, rs[i].book)
    else p.(open := false)
  }

  ghost function Recorded(p: Plan, c: Config, rs: seq<Record>, i: nat): Plan
    requires c.placementNs > 0 && i < |rs| && Shown(rs, i)
  {
    Concluded(Told(Announced(p, c, rs, i), c, rs, i), c, rs, i)
  }

  /** While record i is replayed, before and after its event is told. */
  ghost function Midway(rs: seq<Record>, i: nat, told: bool, c: Config): Plan
    requires c.placementNs > 0 && i < |rs| && AllReadable(rs)
  {
    AllShown(rs, i);
    var p := Announced(PlanAt(rs, i, c), c, rs, i);
    if told then Told(p, c, rs, i) else p
  }

  lemma AllShown(rs: seq<Record>, i: nat)
    requires i < |rs| && AllReadable(rs)
    ensures Shown(rs, i)
  {
    assert Readable(rs[i]) && (i > 0 ==> Readable(rs[i - 1]));
  }

  ghost function PlanAt(rs: seq<Record>, n: nat, c: Config): Plan
    requires c.placementNs > 0 && n <= |rs| && AllReadable(rs)
  {
    if n == 0 then NOTHING
    else
      AllShown(rs, n - 1);
      Recorded(PlanAt(rs, n - 1, c), c, rs, n - 1)
  }

  /** A segment is open only while both streams are usable. */
  lemma PlanIsUsable(rs: seq<Record>, n: nat, c: Config)
    requires c.placementNs > 0 && n <= |rs| && AllReadable(rs)
    ensures PlanAt(rs, n, c).open ==> n > 0 && Open(rs, n)
  {
  }

  /** Every order ever placed, emitted or resting. */
  ghost function DeskPlacements(d: Desk): seq<Placement> {
    EmittedPlacements(d.emitted) + PendingPlacements(d.pending)
  }

  /** The observer is where the plan says. */
  ghost predicate OnPlan(d: Desk, p: Plan) {
    p == Plan(d.inSegment, d.segment, d.next, d.lastBest, d.lastMid, d.midPath, DeskPlacements(d))
  }

  lemma LeftKeepsPlacements(d: Desk, windowNs: nat, local: nat, k: nat)
    requires k <= |d.pending|
    ensures DeskPlacements(Left(d, windowNs, local, k)) == DeskPlacements(d)
  {
  }

  lemma PlacementsJoin(d: Desk, n: Desk, os: seq<Order>)
    requires n.emitted == d.emitted && n.pending == d.pending + os
    ensures DeskPlacements(n) == DeskPlacements(d) + PendingPlacements(os)
  {
    assert PendingPlacements(d.pending + os) == PendingPlacements(d.pending) + PendingPlacements(os);
  }

  /** A step inside a segment keeps to the plan. */
  lemma StepsOnPlan(d: Desk, p: Plan, c: Config, local: nat, inclusive: bool, book: Book)
    requires c.placementNs > 0 && OnPlan(d, p) && Sane(book)
    ensures OnPlan(Stepped(d, c, local, inclusive, book), Stamped(p, c, local, inclusive, book))
  {
    var k := DuePrefix(d.pending, c.windowNs, local, 0);
    var l := Left(d, c.windowNs, local, k);
    LeftKeepsPlacements(d, c.windowNs, local, k);
    if c.mode == Grid && book.valid {
      DueArePairs(d.next, local, inclusive, c.placementNs, d.segment, book);
      PlacementsJoin(l, Stepped(d, c, local, inclusive, book), DueOrders(d.next, local, inclusive, c.placementNs, d.segment, book));
    } else {
      Nothing(l, Stepped(d, c, local, inclusive, book));
    }
  }

  lemma Nothing(d: Desk, n: Desk)
    requires n.emitted == d.emitted && (n.pending == d.pending || n.pending == d.pending + [])
    ensures DeskPlacements(n) == DeskPlacements(d) == DeskPlacements(d) + []
  {
    assert d.pending + [] == d.pending;
  }

  /** So does a segment edge, */
  lemma CutOnPlan(d: Desk, p: Plan, windowNs: nat, local: nat)
    requires OnPlan(d, p)
    ensures OnPlan(Cut(d, windowNs, local).(inSegment := false), p.(open := false))
  {
    LeftKeepsPlacements(d, windowNs, local, |d.pending|);
    Nothing(Cut(d, windowNs, local), Cut(d, windowNs, local).(inSegment := false));
  }

  /** an event that changes orders, but none of their placements, */
  lemma KeepsOnPlan(d: Desk, n: Desk, p: Plan)
    requires OnPlan(d, p) && n == d.(pending := n.pending) && PendingPlacements(n.pending) == PendingPlacements(d.pending)
    ensures OnPlan(n, p)
  {
  }

  lemma ChargingKeepsPlacements(os: seq<Order>, book: Book)
    ensures PendingPlacements(ChargedAll(os, book)) == PendingPlacements(os)
  {
    forall k | 0 <= k < |os| ensures PlacementOf(ChargedAll(os, book)[k]) == PlacementOf(os[k]) {
    }
  }

  /** an applied event, which may bring orders, */
  lemma ToldOnPlan(d: Desk, p: Plan, c: Config, local: nat, book: Book, usable: bool)
    requires OnPlan(d, p) && book.valid && book.TwoSided()
    ensures OnPlan(QueueSensitivity.Told(d, c, local, book, usable), Noted(p, c, local, book, usable))
  {
    var charged := d.(pending := ChargedAll(d.pending, book));
    var n := QueueSensitivity.Told(d, c, local, book, usable);
    ChargingKeepsPlacements(d.pending, book);
    if c.mode == LevelBirth && usable {
      BornAreBirths(d.lastBest, local, d.segment, book);
      PlacementsJoin(charged, n, BornOrders(d.lastBest, local, d.segment, book));
    } else {
      Nothing(charged, n);
    }
  }

  /** the start of a segment, */
  lemma BegunOnPlan(d: Desk, p: Plan, c: Config, local: nat, book: Book)
    requires c.placementNs > 0 && OnPlan(d, p) && d.pending == [] && book.TwoSided()
    ensures OnPlan(Started(d, c, local, book), Begun(p, c, local, book))
  {
    var first := NextInstant(local, c.placementNs);
    if c.mode == Grid {
      DueArePairs(first, local, true, c.placementNs, d.segment + 1, book);
    } else {
      BornAreBirths(None, local, d.segment + 1, book);
    }
    PlacementsJoin(d, Started(d, c, local, book), FirstOrders(c, local, d.segment + 1, book));
  }

  /** and with them the conclusion of a record. */
  lemma ConcludedOnPlan(d: Desk, p: Plan, c: Config, rs: seq<Record>, i: nat)
    requires c.placementNs > 0 && i < |rs| && Shown(rs, i) && OnPlan(d, p) && (!d.inSegment ==> d.pending == [])
    ensures OnPlan(QueueSensitivity.Concluded(d, c, rs[i].local, rs[i].book, Open(rs, i + 1)), Concluded(p, c, rs, i))
  {
    var local, book := rs[i].local, rs[i].book;
    if d.inSegment && Open(rs, i + 1) {
      StepsOnPlan(d, p, c, local, true, book);
    } else if d.inSegment {
      CutOnPlan(d, p, c.windowNs, local);
    } else if Open(rs, i + 1) && book.valid {
      BegunOnPlan(d, p, c, local, book);
    }
  }

  /** A live book is usable. */
  ghost predicate Usable(rs: seq<Record>) {
    LiveShows(rs) && AllReadable(rs)
  }

  lemma OpenShows(rs: seq<Record>, n: nat)
    requires n <= |rs| && Usable(rs) && Open(rs, n)
    ensures n > 0 && rs[n - 1].book.valid && rs[n - 1].book.TwoSided()
  {
    assert Readable(rs[n - 1]);
  }

  /** What a record brings in grid mode: a pair at each instant before its stamp on the book it found, and
      at its own stamp on the book it left, numbered with the segment open then. */
  ghost function GridBrings(rs: seq<Record>, i: nat, step: nat): seq<Placement>
    requires step > 0 && i < |rs| && Usable(rs)
  {
    HeraldedOn(rs, i, step) + ClosingOn(rs, i, step)
  }

  ghost function HeraldedOn(rs: seq<Record>, i: nat, step: nat): seq<Placement>
    requires step > 0 && i < |rs| && Usable(rs)
  {
    if Open(rs, i) then
      OpenShows(rs, i);
      PairsOn(Heralded(rs, i, step, HABITS), SegmentsBy(rs, i, HABITS), rs[i - 1].book)
    else []
  }

  ghost function ClosingOn(rs: seq<Record>, i: nat, step: nat): seq<Placement>
    requires step > 0 && i < |rs| && Usable(rs)
  {
    if Open(rs, i + 1) then
      OpenShows(rs, i + 1);
      PairsOn(Closing(rs, i, step, HABITS), SegmentsBy(rs, i + 1, HABITS), rs[i].book)
    else []
  }

  /** And in level-birth mode: an order on each side when it opens a segment, and one on each side whose
      best price it changed when it leaves one open. */
  ghost function BirthBrings(rs: seq<Record>, i: nat): seq<Placement>
    requires i < |rs| && Usable(rs)
  {
    if Opens(rs, i, HABITS) then
      OpenShows(rs, i + 1);
      PairOn(rs[i].local, SegmentsBy(rs, i + 1, HABITS), rs[i].book)
    else if Survives(rs, i, HABITS) then
      OpenShows(rs, i);
      OpenShows(rs, i + 1);
      var was, now, segment := rs[i - 1].book, rs[i].book, SegmentsBy(rs, i + 1, HABITS);
      (if now.bids.price != was.bids.price then [Placement(rs[i].local, segment, Bid, now.bids.price)] else [])
      + (if now.asks.price != was.asks.price then [Placement(rs[i].local, segment, Ask, now.asks.price)] else [])
    else []
  }

  /** Everything the first n records call for. */
  ghost function AllPlaced(rs: seq<Record>, n: nat, c: Config): seq<Placement>
    requires c.placementNs > 0 && n <= |rs| && Usable(rs)
  {
    if n == 0 then []
    else AllPlaced(rs, n - 1, c) + if c.mode == Grid then GridBrings(rs, n - 1, c.placementNs) else BirthBrings(rs, n - 1)
  }

  /** The mid path: where each segment starts, and every change of the mid since. */
  ghost function MidsOf(rs: seq<Record>, n: nat): seq<(nat, int)>
    requires n <= |rs| && Usable(rs)
  {
    if n == 0 then []
    else
      var i := n - 1;
      assert Readable(rs[i]);
      MidsOf(rs, i)
      + (if Open(rs, i) && Applies(rs[i]) then
           OpenShows(rs, i);
           if rs[i].book.MidX2() != rs[i - 1].book.MidX2() then [(rs[i].local, rs[i].book.MidX2())] else []
         else [])
      + (if Opens(rs, i, HABITS) then OpenShows(rs, i + 1); [(rs[i].local, rs[i].book.MidX2())] else [])
  }

  /** What a replay over a book that is usable while live has come to: a segment is open exactly while both
      streams are, and segments are numbered in the order they open. When stamps never go back the grid
      stands at the next instant; when the book is steady it is the one last seen. */
  ghost predicate Stands(p: Plan, rs: seq<Record>, n: nat, c: Config)
    requires c.placementNs > 0 && n <= |rs| && Usable(rs)
  {
    Runs(p, rs, n, c) && Places(p, rs, n, c) && (Steady(rs) ==> p.midPath == MidsOf(rs, n))
  }

  ghost predicate Runs(p: Plan, rs: seq<Record>, n: nat, c: Config)
    requires c.placementNs > 0 && n <= |rs| && Usable(rs)
  {
    && p.open == Open(rs, n) && p.segment == SegmentsBy(rs, n, HABITS)
    && (p.open && c.mode == Grid && StampsOrdered(rs) ==> n > 0 && p.next == Next(rs, n, c.placementNs, HABITS))
    && (p.open && Steady(rs) ==> Seen(p, rs, n, c))
  }

  ghost predicate Places(p: Plan, rs: seq<Record>, n: nat, c: Config)
    requires c.placementNs > 0 && n <= |rs| && Usable(rs)
  {
    Known(rs, c) ==> p.placed == AllPlaced(rs, n, c)
  }

  /** When the placements follow from the records alone. */
  ghost predicate Known(rs: seq<Record>, c: Config) {
    if c.mode == Grid then StampsOrdered(rs) else Steady(rs)
  }

  ghost predicate Seen(p: Plan, rs: seq<Record>, n: nat, c: Config)
    requires n <= |rs|
  {
    n > 0 && rs[n - 1].book.TwoSided() && p.lastMid == Some(rs[n - 1].book.MidX2())
    && (c.mode == LevelBirth ==> p.lastBest == Some((rs[n - 1].book.bids.price, rs[n - 1].book.asks.price)))
  }

  /** A record the segment outlives. */
  lemma RunsOn(p: Plan, rs: seq<Record>, i: nat, c: Config)
    requires c.placementNs > 0 && i < |rs| && Usable(rs) && Runs(p, rs, i, c) && Survives(rs, i, HABITS) && Shown(rs, i)
    ensures Runs(Recorded(p, c, rs, i), rs, i + 1, c)
  {
    OpenShows(rs, i);
    OpenShows(rs, i + 1);
    if c.mode == Grid && StampsOrdered(rs) {
      NextMoves(rs, i, c.placementNs, HABITS);
    }
  }

  lemma AnnouncedOn(p: Plan, rs: seq<Record>, i: nat, c: Config)
    requires c.placementNs > 0 && c.mode == Grid && i < |rs| && Usable(rs) && StampsOrdered(rs) && Runs(p, rs, i, c) && Shown(rs, i)
    ensures Announced(p, c, rs, i).placed == p.placed + HeraldedOn(rs, i, c.placementNs)
    ensures Announced(p, c, rs, i).segment == p.segment
    ensures p.open ==> Announced(p, c, rs, i).next == NextFrom(Next(rs, i, c.placementNs, HABITS), rs[i].local, false, c.placementNs)
  {
    if Open(rs, i) {
      OpenShows(rs, i);
    }
  }

  lemma ToldInGrid(p: Plan, rs: seq<Record>, i: nat, c: Config)
    requires c.mode == Grid && i < |rs| && Shown(rs, i)
    ensures var t := Told(p, c, rs, i); t.placed == p.placed && t.next == p.next && t.segment == p.segment
    ensures !rs[i].event.Snapshot? ==> Told(p, c, rs, i).open == p.open
  {
  }

  lemma GridOn(p: Plan, rs: seq<Record>, i: nat, c: Config)
    requires c.placementNs > 0 && i < |rs| && Usable(rs) && Runs(p, rs, i, c) && Survives(rs, i, HABITS) && Shown(rs, i)
    requires c.mode == Grid && StampsOrdered(rs) && p.placed == AllPlaced(rs, i, c)
    ensures Recorded(p, c, rs, i).placed == AllPlaced(rs, i + 1, c)
  {
    AnnouncedOn(p, rs, i, c);
    ToldInGrid(Announced(p, c, rs, i), rs, i, c);
    OpenShows(rs, i);
    GoesOn(Told(Announced(p, c, rs, i), c, rs, i), rs, i, c);
    Regroup(p.placed, HeraldedOn(rs, i, c.placementNs), ClosingOn(rs, i, c.placementNs));
  }

  lemma GoesOn(t: Plan, rs: seq<Record>, i: nat, c: Config)
    requires c.placementNs > 0 && c.mode == Grid && 0 < i < |rs| && Usable(rs) && Survives(rs, i, HABITS) && Shown(rs, i)
    requires t.open && t.segment == SegmentsBy(rs, i, HABITS)
    requires t.next == NextFrom(Next(rs, i, c.placementNs, HABITS), rs[i].local, false, c.placementNs)
    ensures Concluded(t, c, rs, i).placed == t.placed + ClosingOn(rs, i, c.placementNs)
  {
    OpenShows(rs, i + 1);
  }

  lemma BirthOn(p: Plan, rs: seq<Record>, i: nat, c: Config)
    requires c.placementNs > 0 && i < |rs| && Usable(rs) && Runs(p, rs, i, c) && Survives(rs, i, HABITS) && Shown(rs, i)
    requires c.mode == LevelBirth && Steady(rs) && p.placed == AllPlaced(rs, i, c)
    ensures Recorded(p, c, rs, i).placed == AllPlaced(rs, i + 1, c)
  {
    OpenShows(rs, i);
    OpenShows(rs, i + 1);
  }

  lemma MidsOn(p: Plan, rs: seq<Record>, i: nat, c: Config)
    requires c.placementNs > 0 && i < |rs| && Usable(rs) && Runs(p, rs, i, c) && Survives(rs, i, HABITS) && Shown(rs, i)
    requires Steady(rs) && p.midPath == MidsOf(rs, i)
    ensures Recorded(p, c, rs, i).midPath == MidsOf(rs, i + 1)
  {
    OpenShows(rs, i);
  }

  lemma StandsOn(p: Plan, rs: seq<Record>, i: nat, c: Config)
    requires c.placementNs > 0 && i < |rs| && Usable(rs) && Stands(p, rs, i, c) && Survives(rs, i, HABITS) && Shown(rs, i)
    ensures Stands(Recorded(p, c, rs, i), rs, i + 1, c)
  {
    RunsOn(p, rs, i, c);
    if Known(rs, c) {
      if c.mode == Grid {
        GridOn(p, rs, i, c);
      } else {
        BirthOn(p, rs, i, c);
      }
    }
    if Steady(rs) {
      MidsOn(p, rs, i, c);
    }
  }

  /** A record that ends a segment, or leaves none. */
  lemma RunsIdle(p: Plan, rs: seq<Record>, i: nat, c: Config)
    requires c.placementNs > 0 && i < |rs| && Usable(rs) && Runs(p, rs, i, c) && !Open(rs, i + 1) && Shown(rs, i)
    ensures Runs(Recorded(p, c, rs, i), rs, i + 1, c)
  {
  }

  lemma PlacesIdle(p: Plan, rs: seq<Record>, i: nat, c: Config)
    requires c.placementNs > 0 && i < |rs| && Usable(rs) && Runs(p, rs, i, c) && !Open(rs, i + 1) && Shown(rs, i)
    requires Known(rs, c) && p.placed == AllPlaced(rs, i, c)
    ensures Recorded(p, c, rs, i).placed == AllPlaced(rs, i + 1, c)
  {
    if c.mode == Grid {
      AnnouncedOn(p, rs, i, c);
      ToldInGrid(Announced(p, c, rs, i), rs, i, c);
    }
  }

  lemma MidsIdle(p: Plan, rs: seq<Record>, i: nat, c: Config)
    requires c.placementNs > 0 && i < |rs| && Usable(rs) && Runs(p, rs, i, c) && !Open(rs, i + 1) && Shown(rs, i)
    requires Steady(rs) && p.midPath == MidsOf(rs, i)
    ensures Recorded(p, c, rs, i).midPath == MidsOf(rs, i + 1)
  {
    if Open(rs, i) {
      OpenShows(rs, i);
    }
  }

  lemma StandsIdle(p: Plan, rs: seq<Record>, i: nat, c: Config)
    requires c.placementNs > 0 && i < |rs| && Usable(rs) && Stands(p, rs, i, c) && !Open(rs, i + 1) && Shown(rs, i)
    ensures Stands(Recorded(p, c, rs, i), rs, i + 1, c)
  {
    RunsIdle(p, rs, i, c);
    if Known(rs, c) {
      PlacesIdle(p, rs, i, c);
    }
    if Steady(rs) {
      MidsIdle(p, rs, i, c);
    }
  }

  /** A record that opens one. */
  lemma RunsNew(p: Plan, rs: seq<Record>, i: nat, c: Config)
    requires c.placementNs > 0 && i < |rs| && Usable(rs) && Runs(p, rs, i, c) && Opens(rs, i, HABITS) && Shown(rs, i)
    ensures Runs(Recorded(p, c, rs, i), rs, i + 1, c)
  {
    OpenShows(rs, i + 1);
  }

  lemma GridNew(p: Plan, rs: seq<Record>, i: nat, c: Config)
    requires c.placementNs > 0 && i < |rs| && Usable(rs) && Runs(p, rs, i, c) && Opens(rs, i, HABITS) && Shown(rs, i)
    requires c.mode == Grid && StampsOrdered(rs) && p.placed == AllPlaced(rs, i, c)
    ensures Recorded(p, c, rs, i).placed == AllPlaced(rs, i + 1, c)
  {
    AnnouncedOn(p, rs, i, c);
    OpenShows(rs, i + 1);
    BeginsWith(Told(Announced(p, c, rs, i), c, rs, i), rs, i, c);
    Regroup(p.placed, HeraldedOn(rs, i, c.placementNs), ClosingOn(rs, i, c.placementNs));
  }

  lemma BeginsWith(t: Plan, rs: seq<Record>, i: nat, c: Config)
    requires c.placementNs > 0 && c.mode == Grid && i < |rs| && Usable(rs) && Opens(rs, i, HABITS) && Shown(rs, i)
    requires !t.open && t.segment == SegmentsBy(rs, i, HABITS)
    ensures Concluded(t, c, rs, i).placed == t.placed + ClosingOn(rs, i, c.placementNs)
  {
    OpenShows(rs, i + 1);
  }

  lemma BirthNew(p: Plan, rs: seq<Record>, i: nat, c: Config)
    requires c.placementNs > 0 && i < |rs| && Usable(rs) && Runs(p, rs, i, c) && Opens(rs, i, HABITS) && Shown(rs, i)
    requires c.mode == LevelBirth && p.placed == AllPlaced(rs, i, c)
    ensures Recorded(p, c, rs, i).placed == AllPlaced(rs, i + 1, c)
  {
    OpenShows(rs, i + 1);
  }

  lemma MidsNew(p: Plan, rs: seq<Record>, i: nat, c: Config)
    requires c.placementNs > 0 && i < |rs| && Usable(rs) && Runs(p, rs, i, c) && Opens(rs, i, HABITS) && Shown(rs, i)
    requires Steady(rs) && p.midPath == MidsOf(rs, i)
    ensures Recorded(p, c, rs, i).midPath == MidsOf(rs, i + 1)
  {
    OpenShows(rs, i + 1);
  }

  lemma StandsNew(p: Plan, rs: seq<Record>, i: nat, c: Config)
    requires c.placementNs > 0 && i < |rs| && Usable(rs) && Stands(p, rs, i, c) && Opens(rs, i, HABITS) && Shown(rs, i)
    ensures Stands(Recorded(p, c, rs, i), rs, i + 1, c)
  {
    RunsNew(p, rs, i, c);
    if Known(rs, c) {
      if c.mode == Grid {
        GridNew(p, rs, i, c);
      } else {
        BirthNew(p, rs, i, c);
      }
    }
    if Steady(rs) {
      MidsNew(p, rs, i, c);
    }
  }

  lemma {:induction false} PlanStands(rs: seq<Record>, n: nat, c: Config)
    requires c.placementNs > 0 && n <= |rs| && Usable(rs)
    ensures Stands(PlanAt(rs, n, c), rs, n, c)
  {
    if n > 0 {
      var p, i := PlanAt(rs, n - 1, c), n - 1;
      PlanStands(rs, i, c);
      AllShown(rs, i);
      if Survives(rs, i, HABITS) {
        StandsOn(p, rs, i, c);
      } else if Open(rs, n) {
        StandsNew(p, rs, i, c);
      } else {
        StandsIdle(p, rs, i, c);
      }
    }
  }

  ghost function SideKeys(ps: seq<Placement>): (ks: seq<(nat, bool)>)
    ensures |ks| == |ps| && forall k | 0 <= k < |ps| :: ks[k] == (ps[k].ns, ps[k].side == Bid)
  {
    seq(|ps|, k requires 0 <= k < |ps| => (ps[k].ns, ps[k].side == Bid))
  }

  lemma {:induction false} PairsAreKeys(ts: seq<nat>, segment: nat, book: Book)
    requires book.TwoSided()
    ensures SideKeys(PairsOn(ts, segment, book)) == PairsAt(ts)
  {
    if ts != [] {
      PairsAreKeys(ts[1..], segment, book);
      PairsHead(ts[0], ts[1..]);
      assert [ts[0]] + ts[1..] == ts;
      KeysJoin(PairOn(ts[0], segment, book), PairsOn(ts[1..], segment, book));
      assert SideKeys(PairOn(ts[0], segment, book)) == [(ts[0], true), (ts[0], false)];
    }
  }

  lemma KeysJoin(a: seq<Placement>, b: seq<Placement>)
    ensures SideKeys(a + b) == SideKeys(a) + SideKeys(b)
  {
  }

  /** So in grid mode there are one bid and one ask for each instant the records bring, in order; when
      stamps rise strictly AllDueExact says which instants these are. */
  lemma {:induction false} GridKeys(rs: seq<Record>, n: nat, c: Config)
    requires c.placementNs > 0 && c.mode == Grid && n <= |rs| && Usable(rs)
    ensures SideKeys(AllPlaced(rs, n, c)) == PairsAt(AllDue(rs, n, c.placementNs, HABITS))
  {
    if n > 0 {
      var i, step := n - 1, c.placementNs;
      GridKeys(rs, i, c);
      GridKeysAt(rs, i, step);
      OneMore(rs, i, c);
      KeysStep(AllPlaced(rs, i, c), GridBrings(rs, i, step), AllDue(rs, i, step, HABITS),
               Heralded(rs, i, step, HABITS), Closing(rs, i, step, HABITS));
    }
  }

  lemma OneMore(rs: seq<Record>, i: nat, c: Config)
    requires c.placementNs > 0 && c.mode == Grid && i < |rs| && Usable(rs)
    ensures AllPlaced(rs, i + 1, c) == AllPlaced(rs, i, c) + GridBrings(rs, i, c.placementNs)
    ensures AllDue(rs, i + 1, c.placementNs, HABITS)
         == AllDue(rs, i, c.placementNs, HABITS) + Heralded(rs, i, c.placementNs, HABITS) + Closing(rs, i, c.placementNs, HABITS)
  {
  }

  lemma KeysStep(a: seq<Placement>, b: seq<Placement>, due: seq<nat>, heralded: seq<nat>, closing: seq<nat>)
    requires SideKeys(a) == PairsAt(due) && SideKeys(b) == PairsAt(heralded + closing)
    ensures SideKeys(a + b) == PairsAt(due + heralded + closing)
  {
    KeysJoin(a, b);
    PairsJoin(due, heralded + closing);
    Regroup(due, heralded, closing);
  }

  lemma GridKeysAt(rs: seq<Record>, i: nat, step: nat)
    requires step > 0 && i < |rs| && Usable(rs)
    ensures SideKeys(GridBrings(rs, i, step)) == PairsAt(Heralded(rs, i, step, HABITS) + Closing(rs, i, step, HABITS))
  {
    KeysJoin(HeraldedOn(rs, i, step), ClosingOn(rs, i, step));
    PairsJoin(Heralded(rs, i, step, HABITS), Closing(rs, i, step, HABITS));
    if Open(rs, i) {
      OpenShows(rs, i);
      PairsAreKeys(Heralded(rs, i, step, HABITS), SegmentsBy(rs, i, HABITS), rs[i - 1].book);
    }
    if Open(rs, i + 1) {
      OpenShows(rs, i + 1);
      PairsAreKeys(Closing(rs, i, step, HABITS), SegmentsBy(rs, i + 1, HABITS), rs[i].book);
    }
  }
}
