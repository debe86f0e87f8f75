/** A whole replay seen by the queue observer (cpp/replay/event_replayer.cpp:142-315,
    cpp/research/queue_sensitivity.cpp:95-230, 255-465): every callback in the order the replay loop makes
    it, over any sequence of records. */
module QueueReplay {
  import opened Wrappers
  import opened OrderBooks
  import opened QueueGrid
  import opened QueueSensitivity
  import opened QueuePlans
  import opened QueueLives
  import opened Grids
  import opened Replays

  /** A grid never places behind the stamps already replayed. */
  ghost predicate GridAhead(d: Desk, c: Config, local: nat) {
    c.mode == Grid ==> d.next >= local
  }

  /** Between two records of a clean replay. */
  ghost predicate Settled(d: Desk, gs: seq<Origin>, rs: seq<Record>, i: nat, start: nat, c: Config)
    requires i <= |rs|
  {
    && d.inSegment == Open(rs, i) && d.segment == SegmentsBy(rs, i, HABITS) && AllTrue(d.emitted, rs, c)
    && (if d.inSegment then && OneSegment(rs, start, i, HABITS) && AllFit(d.pending, gs, rs, start, i, c, Resting)
                            && InOrder(d.pending, rs[i - 1].local) && GridAhead(d, c, rs[i - 1].local + 1)
        else d.pending == [])
  }

  /** While a record is replayed, before its event is told. */
  ghost predicate Announced(d: Desk, gs: seq<Origin>, rs: seq<Record>, i: nat, start: nat, c: Config)
    requires i < |rs|
  {
    && d.inSegment == Open(rs, i) && d.segment == SegmentsBy(rs, i, HABITS) && AllTrue(d.emitted, rs, c)
    && (if d.inSegment then && OneSegment(rs, start, i, HABITS) && AllFit(d.pending, gs, rs, start, i, c, Waiting)
                            && InOrder(d.pending, rs[i].local) && GridAhead(d, c, rs[i].local)
        else d.pending == [])
  }

  /** And after. */
  ghost predicate Delivered(d: Desk, gs: seq<Origin>, rs: seq<Record>, i: nat, start: nat, c: Config)
    requires i < |rs|
  {
    && d.inSegment == (Open(rs, i) && !Cuts(rs[i].event, HABITS)) && d.segment == SegmentsBy(rs, i, HABITS) && AllTrue(d.emitted, rs, c)
    && (if d.inSegment then && OneSegment(rs, start, i, HABITS) && AllFit(d.pending, gs, rs, start, i, c, Informed)
                            && InOrder(d.pending, rs[i].local) && GridAhead(d, c, rs[i].local)
        else d.pending == [])
  }

  /** New orders: at the touch of the book, in one segment, within a stretch of time, in placement order. */
  ghost predicate NewOrders(os: seq<Order>, book: Book, segment: nat, lo: nat, hi: nat) {
    && (forall k {:trigger AtTouch(os[k], book)} | 0 <= k < |os| :: NewOrder(os[k], book, segment, lo, hi))
    && forall j, k | 0 <= j < k < |os| :: os[j].placement <= os[k].placement
  }

  ghost predicate NewOrder(o: Order, book: Book, segment: nat, lo: nat, hi: nat) {
    AtTouch(o, book) && o.segment == segment && lo <= o.placement <= hi
  }

  lemma PairIsNew(ns: nat, segment: nat, book: Book)
    ensures NewOrders(Pair(ns, segment, book), book, segment, ns, ns)
  {
    var os := Pair(ns, segment, book);
    forall k | 0 <= k < |os| ensures NewOrder(os[k], book, segment, ns, ns) {
    }
  }

  lemma {:induction false} DueAreNew(next: nat, local: nat, inclusive: bool, step: nat, segment: nat, book: Book)
    requires step > 0 && (inclusive || local > 0)
    ensures NewOrders(DueOrders(next, local, inclusive, step, segment, book), book, segment, next, if inclusive then local else local - 1)
    decreases local + 1 - next
  {
    if next < local || (inclusive && next == local) {
      DueAreNew(next + step, local, inclusive, step, segment, book);
      PairIsNew(next, segment, book);
      NewJoin(Pair(next, segment, book), DueOrders(next + step, local, inclusive, step, segment, book), book, segment, next,
              next + step, if inclusive then local else local - 1);
    }
  }

  lemma NewJoin(a: seq<Order>, b: seq<Order>, book: Book, segment: nat, lo: nat, mid: nat, hi: nat)
    requires lo <= mid && NewOrders(a, book, segment, lo, lo) && NewOrders(b, book, segment, mid, hi) && lo <= hi
    ensures NewOrders(a + b, book, segment, lo, hi)
  {
    forall k | 0 <= k < |a + b| ensures NewOrder((a + b)[k], book, segment, lo, hi) {
      if k < |a| {
        assert AtTouch(a[k], book);
      } else {
        assert AtTouch(b[k - |a|], book);
      }
    }
    forall j, k | 0 <= j < k < |a + b| ensures (a + b)[j].placement <= (a + b)[k].placement {
      assert j < |a| ==> AtTouch(a[j], book);
      assert k >= |a| ==> AtTouch(b[k - |a|], book);
    }
  }

  ghost function Origins(os: seq<Order>, from: nat): (gs: seq<Origin>)
    ensures |gs| == |os| && forall k | 0 <= k < |os| :: gs[k] == Origin(os[k], from)
  {
    seq(|os|, k requires 0 <= k < |os| => Origin(os[k], from))
  }

  /** Orders placed with a record, */
  lemma NewRest(os: seq<Order>, rs: seq<Record>, start: nat, i: nat, c: Config)
    requires start < i <= |rs| && rs[i - 1].book.valid && Open(rs, i)
    requires NewOrders(os, rs[i - 1].book, SegmentsBy(rs, i, HABITS), rs[i - 1].local, rs[i - 1].local)
    ensures AllFit(os, Origins(os, i), rs, start, i, c, Resting)
  {
    forall k | 0 <= k < |os| ensures Fits(os[k], Origins(os, i)[k], rs, start, i, c, Resting) {
      assert AtTouch(os[k], rs[i - 1].book);
    }
  }

  /** in the gap before one, */
  lemma NewWait(os: seq<Order>, rs: seq<Record>, start: nat, i: nat, c: Config)
    requires start < i < |rs| && rs[i - 1].book.valid && Open(rs, i) && rs[i].local > 0
    requires NewOrders(os, rs[i - 1].book, SegmentsBy(rs, i, HABITS), rs[i - 1].local + 1, rs[i].local - 1)
    ensures AllFit(os, Origins(os, i), rs, start, i, c, Waiting)
  {
    forall k | 0 <= k < |os| ensures Fits(os[k], Origins(os, i)[k], rs, start, i, c, Waiting) {
      assert AtTouch(os[k], rs[i - 1].book);
    }
  }

  /** and by the event of one. */
  lemma NewInformed(os: seq<Order>, rs: seq<Record>, start: nat, i: nat, c: Config)
    requires start < i < |rs| && rs[i].book.valid && Survives(rs, i, HABITS)
    requires NewOrders(os, rs[i].book, SegmentsBy(rs, i, HABITS), rs[i].local, rs[i].local)
    ensures AllFit(os, Origins(os, i + 1), rs, start, i, c, Informed)
  {
    forall k | 0 <= k < |os| ensures Fits(os[k], Origins(os, i + 1)[k], rs, start, i, c, Informed) {
      assert AtTouch(os[k], rs[i].book);
    }
  }

  /** The grid orders of an advance. */
  ghost function DueNow(d: Desk, c: Config, local: nat, inclusive: bool, book: Book): seq<Order>
    requires c.placementNs > 0
  {
    if c.mode == Grid && book.valid then DueOrders(d.next, local, inclusive, c.placementNs, d.segment, book) else []
  }

  lemma DueNowIsNew(d: Desk, c: Config, local: nat, inclusive: bool, book: Book)
    requires c.placementNs > 0
    ensures inclusive || local > 0 ==>
              NewOrders(DueNow(d, c, local, inclusive, book), book, d.segment, d.next, if inclusive then local else local - 1)
    ensures !inclusive && local == 0 ==> DueNow(d, c, local, inclusive, book) == []
  {
    if inclusive || local > 0 {
      DueAreNew(d.next, local, inclusive, c.placementNs, d.segment, book);
    }
  }

  lemma SteppedIs(d: Desk, c: Config, local: nat, inclusive: bool, book: Book)
    requires c.placementNs > 0
    ensures var k, p := DuePrefix(d.pending, c.windowNs, local, 0), Stepped(d, c, local, inclusive, book);
            && p.pending == d.pending[k..] + DueNow(d, c, local, inclusive, book)
            && p.emitted == Left(d, c.windowNs, local, k).emitted && p.inSegment == d.inSegment && p.segment == d.segment
            && p.next == if c.mode == Grid then NextFrom(d.next, local, inclusive, c.placementNs) else d.next
  {
  }

  lemma OrderJoin(a: seq<Order>, b: seq<Order>, k: nat, book: Book, segment: nat, mid: nat, lo: nat, hi: nat)
    requires k <= |a| && InOrder(a, mid) && NewOrders(b, book, segment, lo, hi) && mid <= lo && mid <= hi
    ensures InOrder(a[k..] + b, hi)
  {
    forall j | 0 <= j < |b| ensures lo <= b[j].placement <= hi {
      assert AtTouch(b[j], book);
    }
  }

  lemma NothingNew(os: seq<Order>, book: Book, segment: nat, lo: nat, hi: nat)
    requires os == []
    ensures NewOrders(os, book, segment, lo, hi)
  {
  }

  /** What an advance leaves on the desk, each order with its origin. */
  ghost function Advance(d: Desk, gs: seq<Origin>, c: Config, upto: nat, local: nat, inclusive: bool, book: Book): seq<Origin>
    requires c.placementNs > 0 && |gs| == |d.pending|
  {
    gs[DuePrefix(d.pending, c.windowNs, local, 0)..] + Origins(DueNow(d, c, local, inclusive, book), upto)
  }

  lemma NewWithin(os: seq<Order>, book: Book, segment: nat, lo: nat, hi: nat, lower: nat, higher: nat)
    requires lower <= lo && hi <= higher && NewOrders(os, book, segment, lo, hi)
    ensures NewOrders(os, book, segment, lower, higher)
  {
    forall k | 0 <= k < |os| ensures NewOrder(os[k], book, segment, lower, higher) {
      assert AtTouch(os[k], book);
    }
  }

  lemma DeskStepsOrder(d: Desk, c: Config, local: nat, inclusive: bool, book: Book, last: nat)
    requires c.placementNs > 0 && InOrder(d.pending, last) && GridAhead(d, c, last) && last <= local
    ensures InOrder(Stepped(d, c, local, inclusive, book).pending, local)
  {
    var k, due := DuePrefix(d.pending, c.windowNs, local, 0), DueNow(d, c, local, inclusive, book);
    SteppedIs(d, c, local, inclusive, book);
    DueNowIsNew(d, c, local, inclusive, book);
    if due == [] {
      NothingNew(due, book, d.segment, local, local);
      OrderJoin(d.pending, due, k, book, d.segment, last, local, local);
    } else {
      NewWithin(due, book, d.segment, d.next, if inclusive then local else local - 1, d.next, local);
      OrderJoin(d.pending, due, k, book, d.segment, last, d.next, local);
    }
  }

  /** What an advance makes of a desk whose orders left as they should. */
  lemma DeskSteps(d: Desk, gs: seq<Origin>, rs: seq<Record>, start: nat, i: nat, upto: nat, c: Config, local: nat, inclusive: bool, book: Book,
                  s: Stage)
    requires c.placementNs > 0 && |gs| == |d.pending|
    requires AllFit(d.pending[DuePrefix(d.pending, c.windowNs, local, 0)..], gs[DuePrefix(d.pending, c.windowNs, local, 0)..], rs, start, i, c, s)
    requires var due := DueNow(d, c, local, inclusive, book); due != [] ==> AllFit(due, Origins(due, upto), rs, start, i, c, s)
    ensures AllFit(Stepped(d, c, local, inclusive, book).pending, Advance(d, gs, c, upto, local, inclusive, book), rs, start, i, c, s)
  {
    var k, due := DuePrefix(d.pending, c.windowNs, local, 0), DueNow(d, c, local, inclusive, book);
    SteppedIs(d, c, local, inclusive, book);
    if due == [] {
      assert Advance(d, gs, c, upto, local, inclusive, book) == gs[k..];
      assert Stepped(d, c, local, inclusive, book).pending == d.pending[k..];
    } else {
      FitJoin(d.pending[k..], gs[k..], due, Origins(due, upto), rs, start, i, c, s);
    }
  }

  /** Announcing a record to an open segment. */
  lemma AnnounceInside(d: Desk, gs: seq<Origin>, rs: seq<Record>, i: nat, start: nat, c: Config)
    requires c.placementNs > 0 && 0 < i < |rs| && Clean(rs) && Settled(d, gs, rs, i, start, c) && d.inSegment
    ensures var book, local := rs[i - 1].book, rs[i].local;
            Announced(Stepped(d, c, local, false, book), Advance(d, gs, c, i, local, false, book), rs, i, start, c)
  {
    var book, local := rs[i - 1].book, rs[i].local;
    var due := DueNow(d, c, local, false, book);
    AnnounceLeaves(d, gs, rs, start, i, c);
    DueNowIsNew(d, c, local, false, book);
    if due != [] {
      NewWithin(due, book, d.segment, d.next, local - 1, rs[i - 1].local + 1, local - 1);
      NewWait(due, rs, start, i, c);
    }
    DeskSteps(d, gs, rs, start, i, i, c, local, false, book, Waiting);
    SteppedIs(d, c, local, false, book);
    DeskStepsOrder(d, c, local, false, book, rs[i - 1].local);
  }

  /** Concluding one inside it. */
  lemma ConcludeInside(d: Desk, gs: seq<Origin>, rs: seq<Record>, i: nat, start: nat, c: Config)
    requires c.placementNs > 0 && c.windowNs > 0 && i < |rs| && Clean(rs) && Delivered(d, gs, rs, i, start, c) && d.inSegment && Open(rs, i + 1)
    ensures var book, local := rs[i].book, rs[i].local;
            Settled(Stepped(d, c, local, true, book), Advance(d, gs, c, i + 1, local, true, book), rs, i + 1, start, c)
  {
    var book, local := rs[i].book, rs[i].local;
    var due := DueNow(d, c, local, true, book);
    ConcludeLeaves(d, gs, rs, start, i, c);
    DueNowIsNew(d, c, local, true, book);
    if due != [] {
      NewWithin(due, book, d.segment, d.next, local, local, local);
      NewRest(due, rs, start, i + 1, c);
    }
    DeskSteps(d, gs, rs, start, i + 1, i + 1, c, local, true, book, Resting);
    SteppedIs(d, c, local, true, book);
    DeskStepsOrder(d, c, local, true, book, local);
  }

  /** A segment that ends with the record. */
  lemma ConcludeEnds(d: Desk, gs: seq<Origin>, rs: seq<Record>, i: nat, start: nat, c: Config)
    requires i < |rs| && Delivered(d, gs, rs, i, start, c) && d.inSegment && !Open(rs, i + 1)
    ensures Settled(Cut(d, c.windowNs, rs[i].local).(inSegment := false), [], rs, i + 1, start, c)
  {
    CutTrue(d, gs, rs, start, i, c);
  }

  /** One that begins with it. */
  lemma ConcludeOpens(d: Desk, gs: seq<Origin>, rs: seq<Record>, i: nat, start: nat, c: Config) returns (now: seq<Origin>)
    requires c.placementNs > 0 && i < |rs| && Delivered(d, gs, rs, i, start, c) && !d.inSegment && Open(rs, i + 1)
    requires rs[i].book.valid && rs[i].book.TwoSided()
    ensures Settled(Started(d, c, rs[i].local, rs[i].book), now, rs, i + 1, i, c)
  {
    var local, book := rs[i].local, rs[i].book;
    var os := FirstOrders(c, local, d.segment + 1, book);
    now := Origins(os, i + 1);
    FirstAreNew(c, local, d.segment + 1, book);
    NewRest(os, rs, i, i + 1, c);
    NewInOrder(os, book, d.segment + 1, local);
    OpensSegment(rs, i);
  }

  lemma OpensSegment(rs: seq<Record>, i: nat)
    requires i < |rs| && Open(rs, i + 1)
    ensures OneSegment(rs, i, i + 1, HABITS)
  {
  }

  lemma NewInOrder(os: seq<Order>, book: Book, segment: nat, local: nat)
    requires NewOrders(os, book, segment, local, local)
    ensures InOrder(os, local)
  {
    OrderJoin([], os, 0, book, segment, local, local, local);
    assert [][0..] + os == os;
  }

  lemma FirstAreNew(c: Config, local: nat, segment: nat, book: Book)
    requires c.placementNs > 0
    ensures NewOrders(FirstOrders(c, local, segment, book), book, segment, local, local)
  {
    if c.mode == Grid {
      var first := NextInstant(local, c.placementNs);
      DueAreNew(first, local, true, c.placementNs, segment, book);
      NewWithin(FirstOrders(c, local, segment, book), book, segment, first, local, local, local);
    } else {
      BornAreNew(None, local, segment, book);
    }
  }

  lemma BornAreNew(lastBest: Option<(int, int)>, local: nat, segment: nat, book: Book)
    ensures NewOrders(BornOrders(lastBest, local, segment, book), book, segment, local, local)
  {
    var os := BornOrders(lastBest, local, segment, book);
    forall k | 0 <= k < |os| ensures NewOrder(os[k], book, segment, local, local) {
    }
  }

  lemma ConcludeIdle(d: Desk, gs: seq<Origin>, rs: seq<Record>, i: nat, start: nat, c: Config)
    requires i < |rs| && Delivered(d, gs, rs, i, start, c) && !d.inSegment && !Open(rs, i + 1)
    ensures Settled(d, [], rs, i + 1, start, c)
  {
  }

  /** An event every resting order lives through; some may be born with it. */
  lemma DeliverTouches(d: Desk, gs: seq<Origin>, p: Desk, rs: seq<Record>, i: nat, start: nat, c: Config, born: seq<Order>)
    requires i < |rs| && Announced(d, gs, rs, i, start, c) && !Cuts(rs[i].event, HABITS) && d.inSegment
    requires p.inSegment && p.emitted == d.emitted && p.next == d.next && p.segment == d.segment && |p.pending| == |d.pending| + |born|
    requires forall k | 0 <= k < |d.pending| :: p.pending[k] == Touched(d.pending[k], rs[i], BookBefore(rs, i), c.lots)
    requires p.pending[|d.pending|..] == born && (born != [] ==> rs[i].book.valid)
    requires NewOrders(born, rs[i].book, d.segment, rs[i].local, rs[i].local) && (born != [] ==> Open(rs, i + 1))
    ensures Delivered(p, gs + Origins(born, i + 1), rs, i, start, c)
  {
    var ps := p.pending[..|d.pending|];
    EventTouches(d.pending, gs, ps, rs, i, start, c);
    if born == [] {
      assert p.pending == ps && gs + Origins(born, i + 1) == gs;
    } else {
      NewInformed(born, rs, start, i, c);
      FitJoin(ps, gs, born, Origins(born, i + 1), rs, start, i, c, Informed);
      OrderJoin(ps, born, 0, rs[i].book, d.segment, rs[i].local, rs[i].local, rs[i].local);
      assert p.pending == ps + born && ps[0..] == ps;
    }
  }

  lemma DeliverIdle(d: Desk, gs: seq<Origin>, p: Desk, rs: seq<Record>, i: nat, start: nat, c: Config)
    requires i < |rs| && Announced(d, gs, rs, i, start, c) && !d.inSegment
    requires !p.inSegment && p.emitted == d.emitted && p.segment == d.segment && p.pending == []
    ensures Delivered(p, [], rs, i, start, c)
  {
  }

  lemma DeliverSnapshot(d: Desk, gs: seq<Origin>, rs: seq<Record>, i: nat, start: nat, c: Config)
    requires i < |rs| && Announced(d, gs, rs, i, start, c) && rs[i].event.Snapshot?
    ensures Delivered(Cut(d, c.windowNs, rs[i].local).(inSegment := false), [], rs, i, start, c)
  {
    if d.inSegment {
      EventTouches(d.pending, gs, d.pending, rs, i, start, c);
      CutTrue(d, gs, rs, start, i, c);
    } else {
      assert Cut(d, c.windowNs, rs[i].local).emitted == d.emitted;
    }
  }

  lemma LiveIsUsable(rs: seq<Record>, i: nat)
    requires i < |rs| && Clean(rs) && rs[i].live
    ensures rs[i].book.valid && rs[i].book.TwoSided()
  {
    assert Readable(rs[i]);
  }

  /** What the driver carries along: the origin of every resting order, and the record that opened the
      segment. */
  datatype Trail = Trail(origins: seq<Origin>, start: nat)

  /** Between two records: the observer, its plan for any input whatever, and over clean input its orders. */
  ghost predicate Between(e: QueueSensitivityObserver, rs: seq<Record>, i: nat, t: Trail)
    requires i <= |rs| && AllReadable(rs)
    reads e
  {
    && e.Valid() && e.tradeStreamUp == Up(rs, i) && e.clock == (if i == 0 then 0 else rs[i - 1].local)
    && (i > 0 ==> e.lastRecord == rs[i - 1].local) && OnPlan(e.View(), PlanAt(rs, i, e.config))
    && (Replays.StampsOrdered(rs) ==> e.monotone)
    && (Clean(rs) ==> Settled(e.View(), t.origins, rs, i, t.start, e.config) && (e.inSegment ==> e.segmentStart == rs[t.start].local))
  }

  ghost predicate During(e: QueueSensitivityObserver, rs: seq<Record>, i: nat, t: Trail, told: bool)
    requires i < |rs| && AllReadable(rs)
    reads e
  {
    && e.Valid() && e.tradeStreamUp == Up(rs, if told then i + 1 else i) && e.clock == rs[i].local
    && OnPlan(e.View(), Midway(rs, i, told, e.config))
    && (Replays.StampsOrdered(rs) ==> e.monotone)
    && (Clean(rs) ==> && (if told then Delivered(e.View(), t.origins, rs, i, t.start, e.config)
                          else Announced(e.View(), t.origins, rs, i, t.start, e.config))
                      && (e.inSegment ==> e.segmentStart == rs[t.start].local))
  }

  /** Announcing a record. */
  method Announce(e: QueueSensitivityObserver, rs: seq<Record>, i: nat, ghost t: Trail) returns (ghost now: Trail)
    requires i < |rs| && AllReadable(rs) && Between(e, rs, i, t)
    modifies e
    ensures During(e, rs, i, now, false)
  {
    AllShown(rs, i);
    assert i > 0 ==> Readable(rs[i - 1]);
    if e.inSegment {
      now := AnnounceOpen(e, rs, i, t);
    } else {
      now := t;
      e.BeforeRecord(rs[i].local, BookBefore(rs, i), LiveBefore(rs, i));
    }
  }

  method AnnounceOpen(e: QueueSensitivityObserver, rs: seq<Record>, i: nat, ghost t: Trail) returns (ghost now: Trail)
    requires i < |rs| && AllReadable(rs) && BookBefore(rs, i).Sound() && Between(e, rs, i, t) && e.inSegment
    modifies e
    ensures During(e, rs, i, now, false)
  {
    ghost var d := e.View();
    now := t;
    PlanIsUsable(rs, i, e.config);
    AllShown(rs, i);
    StepsOnPlan(d, PlanAt(rs, i, e.config), e.config, rs[i].local, false, BookBefore(rs, i));
    e.BeforeRecord(rs[i].local, BookBefore(rs, i), LiveBefore(rs, i));
    if Clean(rs) {
      LiveIsUsable(rs, i - 1);
      AnnounceInside(d, t.origins, rs, i, t.start, e.config);
      now := t.(origins := Advance(d, t.origins, e.config, i, rs[i].local, false, rs[i - 1].book));
    }
  }

  lemma TouchedPlacements(os: seq<Order>, ps: seq<Order>, r: Record, before: Book, lots: int)
    requires |ps| == |os| && forall k | 0 <= k < |os| :: ps[k] == Touched(os[k], r, before, lots)
    ensures PendingPlacements(ps) == PendingPlacements(os)
  {
    forall k | 0 <= k < |os| ensures PlacementOf(ps[k]) == PlacementOf(os[k]) {
      TouchedPlace(os[k], r, before, lots);
    }
  }

  /** Delivering its event. */
  method Deliver(e: QueueSensitivityObserver, rs: seq<Record>, i: nat, ghost t: Trail) returns (ghost now: Trail)
    requires i < |rs| && AllReadable(rs) && Readable(rs[i]) && During(e, rs, i, t, false)
    modifies e
    ensures During(e, rs, i, now, true)
  {
    match rs[i].event {
      case Connection(trades, open) => now := DeliverConnection(e, rs, i, t);
      case Snapshot => now := ReportSnapshot(e, rs, i, t);
      case Depth(outcome) => now := ReportDepth(e, rs, i, t);
      case Trade(trade) => now := ReportTrade(e, rs, i, t);
      case Other => now := DeliverNothing(e, rs, i, t);
    }
  }

  /** What an event that brings no order does to the desk: every resting order lives through it. */
  ghost predicate QuietEvent(d: Desk, p: Desk, rs: seq<Record>, i: nat, c: Config)
    requires i < |rs|
  {
    && !Cuts(rs[i].event, HABITS) && !(Applies(rs[i]) && d.inSegment) && p == d.(pending := p.pending) && |p.pending| == |d.pending|
    && forall k | 0 <= k < |d.pending| :: p.pending[k] == Touched(d.pending[k], rs[i], BookBefore(rs, i), c.lots)
  }

  /** The plan does not change with it, */
  lemma QuietPlan(d: Desk, p: Desk, rs: seq<Record>, i: nat, c: Config)
    requires c.placementNs > 0 && i < |rs| && AllReadable(rs) && QuietEvent(d, p, rs, i, c) && OnPlan(d, Midway(rs, i, false, c))
    ensures OnPlan(p, Midway(rs, i, true, c))
  {
    AllShown(rs, i);
    TouchedPlacements(d.pending, p.pending, rs[i], BookBefore(rs, i), c.lots);
    KeepsOnPlan(d, p, Midway(rs, i, false, c));
  }

  /** and what it leaves behind. */
  lemma Quiet(d: Desk, p: Desk, rs: seq<Record>, i: nat, t: Trail, c: Config) returns (now: Trail)
    requires i < |rs| && QuietEvent(d, p, rs, i, c) && Announced(d, t.origins, rs, i, t.start, c)
    ensures now.start == t.start && Delivered(p, now.origins, rs, i, now.start, c)
  {
    if d.inSegment {
      NothingNew([], rs[i].book, d.segment, rs[i].local, rs[i].local);
      DeliverTouches(d, t.origins, p, rs, i, t.start, c, []);
      now := t.(origins := t.origins + Origins([], i + 1));
    } else {
      DeliverIdle(d, t.origins, p, rs, i, t.start, c);
      now := t.(origins := []);
    }
  }

  method DeliverNothing(e: QueueSensitivityObserver, rs: seq<Record>, i: nat, ghost t: Trail) returns (ghost now: Trail)
    requires i < |rs| && AllReadable(rs) && During(e, rs, i, t, false) && rs[i].event.Other?
    ensures During(e, rs, i, now, true)
  {
    now := t;
    QuietPlan(e.View(), e.View(), rs, i, e.config);
    if Clean(rs) {
      now := Quiet(e.View(), e.View(), rs, i, t, e.config);
    }
  }

  method DeliverConnection(e: QueueSensitivityObserver, rs: seq<Record>, i: nat, ghost t: Trail) returns (ghost now: Trail)
    requires i < |rs| && AllReadable(rs) && During(e, rs, i, t, false) && rs[i].event.Connection?
    modifies e
    ensures During(e, rs, i, now, true)
  {
    ghost var d := e.View();
    e.OnConnection(rs[i].event.trades, rs[i].event.open);
    now := t;
    QuietPlan(d, e.View(), rs, i, e.config);
    if Clean(rs) {
      now := Quiet(d, e.View(), rs, i, t, e.config);
    }
  }

  method ReportTrade(e: QueueSensitivityObserver, rs: seq<Record>, i: nat, ghost t: Trail) returns (ghost now: Trail)
    requires i < |rs| && AllReadable(rs) && Readable(rs[i]) && During(e, rs, i, t, false) && rs[i].event.Trade?
    modifies e
    ensures During(e, rs, i, now, true)
  {
    ghost var d := e.View();
    e.OnTrade(rs[i].local, rs[i].event.trade, rs[i].live);
    now := t;
    QuietPlan(d, e.View(), rs, i, e.config);
    if Clean(rs) {
      now := Quiet(d, e.View(), rs, i, t, e.config);
    }
  }

  method ReportSnapshot(e: QueueSensitivityObserver, rs: seq<Record>, i: nat, ghost t: Trail) returns (ghost now: Trail)
    requires i < |rs| && AllReadable(rs) && During(e, rs, i, t, false) && rs[i].event.Snapshot?
    modifies e
    ensures During(e, rs, i, now, true)
  {
    ghost var d := e.View();
    e.AfterSnapshot(rs[i].local, rs[i].live);
    now := t.(origins := []);
    AllShown(rs, i);
    CutOnPlan(d, Midway(rs, i, false, e.config), e.config.windowNs, rs[i].local);
    if Clean(rs) {
      DeliverSnapshot(d, t.origins, rs, i, t.start, e.config);
    }
  }

  /** A depth message: announced, applied or refused, and reported unless that failed. */
  method ReportDepth(e: QueueSensitivityObserver, rs: seq<Record>, i: nat, ghost t: Trail) returns (ghost now: Trail)
    requires i < |rs| && AllReadable(rs) && Readable(rs[i]) && During(e, rs, i, t, false) && rs[i].event.Depth?
    modifies e
    ensures During(e, rs, i, now, true)
  {
    match rs[i].event.outcome {
      case Applied => now := ReportApplied(e, rs, i, t);
      case Refused => now := ReportRefused(e, rs, i, t);
      case Failed => now := ReportFailed(e, rs, i, t);
    }
  }

  method ReportFailed(e: QueueSensitivityObserver, rs: seq<Record>, i: nat, ghost t: Trail) returns (ghost now: Trail)
    requires i < |rs| && AllReadable(rs) && During(e, rs, i, t, false) && rs[i].event.Depth? && rs[i].event.outcome.Failed?
    modifies e
    ensures During(e, rs, i, now, true)
  {
    ghost var d := e.View();
    e.BeforeDepthEvent(BookBefore(rs, i));
    now := t;
    QuietPlan(d, e.View(), rs, i, e.config);
    if Clean(rs) {
      now := Quiet(d, e.View(), rs, i, t, e.config);
    }
  }

  method ReportRefused(e: QueueSensitivityObserver, rs: seq<Record>, i: nat, ghost t: Trail) returns (ghost now: Trail)
    requires i < |rs| && AllReadable(rs) && Readable(rs[i]) && During(e, rs, i, t, false)
    requires rs[i].event.Depth? && rs[i].event.outcome.Refused?
    modifies e
    ensures During(e, rs, i, now, true)
  {
    ghost var d := e.View();
    e.BeforeDepthEvent(BookBefore(rs, i));
    e.AfterDepthEvent(rs[i].local, rs[i].book, false, rs[i].live);
    now := t;
    QuietPlan(d, e.View(), rs, i, e.config);
    if Clean(rs) {
      now := Quiet(d, e.View(), rs, i, t, e.config);
    }
  }

  method ReportApplied(e: QueueSensitivityObserver, rs: seq<Record>, i: nat, ghost t: Trail) returns (ghost now: Trail)
    requires i < |rs| && AllReadable(rs) && Readable(rs[i]) && During(e, rs, i, t, false)
    requires rs[i].event.Depth? && rs[i].event.outcome.Applied?
    modifies e
    ensures During(e, rs, i, now, true)
  {
    ghost var d := e.View();
    ghost var m := TellApplied(e, rs, i);
    if d.inSegment && rs[i].book.valid {
      AppliedPlan(d, m, e.View(), rs, i, e.config);
    } else {
      QuietPlan(d, e.View(), rs, i, e.config);
    }
    now := t;
    if Clean(rs) {
      now := AppliedOrQuiet(d, m, e.View(), rs, i, t, e.config);
    }
  }

  /** An applied event: what each resting order remembered before it, and what the desk is then told. */
  ghost predicate AppliedEvent(d: Desk, m: Desk, p: Desk, rs: seq<Record>, i: nat, c: Config)
    requires i < |rs| && Readable(rs[i])
  {
    && Applies(rs[i]) && d.inSegment && m == d.(pending := m.pending) && |m.pending| == |d.pending|
    && (forall k | 0 <= k < |d.pending| :: m.pending[k] == if BookBefore(rs, i).valid then Observe(d.pending[k], BookBefore(rs, i)) else d.pending[k])
    && p == QueueSensitivity.Told(m, c, rs[i].local, rs[i].book, Open(rs, i + 1))
  }

  method TellApplied(e: QueueSensitivityObserver, rs: seq<Record>, i: nat) returns (ghost m: Desk)
    requires i < |rs| && Readable(rs[i]) && e.Valid() && e.tradeStreamUp == Up(rs, i) && rs[i].event.Depth? && rs[i].event.outcome.Applied?
    modifies e`bookLive, e`pending, e`placed, e`lastBest, e`lastMid, e`midPath, e`behindLots, e`explainedLots, e`unexplainedLots, e`reduced
    ensures e.Valid()
    ensures if e.inSegment && rs[i].book.valid then AppliedEvent(old(e.View()), m, e.View(), rs, i, e.config)
            else QuietEvent(old(e.View()), e.View(), rs, i, e.config)
  {
    e.BeforeDepthEvent(BookBefore(rs, i));
    m := e.View();
    e.AfterDepthEvent(rs[i].local, rs[i].book, true, rs[i].live);
  }

  lemma AppliedPlan(d: Desk, m: Desk, p: Desk, rs: seq<Record>, i: nat, c: Config)
    requires c.placementNs > 0 && i < |rs| && AllReadable(rs) && Readable(rs[i]) && AppliedEvent(d, m, p, rs, i, c)
    requires OnPlan(d, Midway(rs, i, false, c))
    ensures OnPlan(p, Midway(rs, i, true, c))
  {
    AllShown(rs, i);
    forall k | 0 <= k < |d.pending| ensures PlacementOf(m.pending[k]) == PlacementOf(d.pending[k]) {
    }
    assert PendingPlacements(m.pending) == PendingPlacements(d.pending);
    KeepsOnPlan(d, m, Midway(rs, i, false, c));
    ToldOnPlan(m, Midway(rs, i, false, c), c, rs[i].local, rs[i].book, Open(rs, i + 1));
  }

  /** What an applied event leaves behind: every order charged, and perhaps new ones at a level just born. */
  lemma Applied(d: Desk, m: Desk, p: Desk, rs: seq<Record>, i: nat, t: Trail, c: Config) returns (now: Trail)
    requires i < |rs| && Readable(rs[i]) && AppliedEvent(d, m, p, rs, i, c) && Announced(d, t.origins, rs, i, t.start, c)
    ensures now.start == t.start && Delivered(p, now.origins, rs, i, now.start, c)
  {
    var charged := ChargedAll(m.pending, rs[i].book);
    var born := if c.mode == LevelBirth && Open(rs, i + 1) then BornOrders(d.lastBest, rs[i].local, d.segment, rs[i].book) else [];
    assert p.pending == charged + born;
    BornAreNew(d.lastBest, rs[i].local, d.segment, rs[i].book);
    NothingNew([], rs[i].book, d.segment, rs[i].local, rs[i].local);
    DeliverTouches(d, t.origins, p, rs, i, t.start, c, born);
    now := t.(origins := t.origins + Origins(born, i + 1));
  }

  lemma AppliedOrQuiet(d: Desk, m: Desk, p: Desk, rs: seq<Record>, i: nat, t: Trail, c: Config) returns (now: Trail)
    requires i < |rs| && Readable(rs[i]) && Announced(d, t.origins, rs, i, t.start, c)
    requires if d.inSegment && rs[i].book.valid then AppliedEvent(d, m, p, rs, i, c) else QuietEvent(d, p, rs, i, c)
    ensures now.start == t.start && Delivered(p, now.origins, rs, i, now.start, c)
  {
    if d.inSegment && rs[i].book.valid {
      now := Applied(d, m, p, rs, i, t, c);
    } else {
      now := Quiet(d, p, rs, i, t, c);
    }
  }

  /** Concluding the record: the segment goes on, ends, or opens. */
  method Conclude(e: QueueSensitivityObserver, rs: seq<Record>, i: nat, ghost t: Trail) returns (ghost now: Trail)
    requires i < |rs| && AllReadable(rs) && Readable(rs[i]) && During(e, rs, i, t, true)
    modifies e
    ensures Between(e, rs, i + 1, now)
  {
    ghost var d := e.View();
    AllShown(rs, i);
    ConcludedOnPlan(d, Midway(rs, i, true, e.config), e.config, rs, i);
    e.AfterRecord(rs[i].local, rs[i].book, rs[i].live);
    now := t;
    if Clean(rs) {
      now := Concludes(d, rs, i, t, e.config);
    }
  }

  /** What that leaves behind. */
  lemma Concludes(d: Desk, rs: seq<Record>, i: nat, t: Trail, c: Config) returns (now: Trail)
    requires c.placementNs > 0 && c.windowNs > 0 && i < |rs| && Clean(rs) && Readable(rs[i]) && Delivered(d, t.origins, rs, i, t.start, c)
    ensures Settled(QueueSensitivity.Concluded(d, c, rs[i].local, rs[i].book, Open(rs, i + 1)), now.origins, rs, i + 1, now.start, c)
    ensures now.start == if !d.inSegment && Open(rs, i + 1) then i else t.start
  {
    if d.inSegment && Open(rs, i + 1) {
      LiveIsUsable(rs, i);
      ConcludeInside(d, t.origins, rs, i, t.start, c);
      now := t.(origins := Advance(d, t.origins, c, i + 1, rs[i].local, true, rs[i].book));
    } else if d.inSegment {
      ConcludeEnds(d, t.origins, rs, i, t.start, c);
      now := t.(origins := []);
    } else if Open(rs, i + 1) {
      LiveIsUsable(rs, i);
      var gs := ConcludeOpens(d, t.origins, rs, i, t.start, c);
      now := Trail(gs, i);
    } else {
      ConcludeIdle(d, t.origins, rs, i, t.start, c);
      now := t.(origins := []);
    }
  }

  /** Every order's 25 cells are in the grid's order, and so are its fill stamps, none in the future. */
  ghost predicate GridsKept(es: seq<Emission>, lots: int) {
    forall k {:trigger OrderOk(es[k].order, lots)} | 0 <= k < |es| :: OrderOk(es[k].order, lots)
  }

  ghost predicate TimesKept(es: seq<Emission>, clock: nat) {
    forall k {:trigger TimesOk(es[k].order, clock)} | 0 <= k < |es| :: TimesOk(es[k].order, clock)
  }

  /** The whole replay, over any records. Every order the records call for is placed and emitted exactly
      once, in order, with its cells in the grid's order; when stamps never go back, so are its fill
      stamps. Over a book usable while live the orders are, in grid mode and with ordered stamps, a bid and
      an ask for each instant the records bring (GridKeys), and over a steady book, in level-birth mode,
      one for each best price a record made, next to the path of the mids. Every order emitted over clean
      input is what the records of its segment make of it alone. */
  method Replay(config: Config, rs: seq<Record>) returns (emitted: seq<Emission>, midPath: seq<(nat, int)>)
    requires config.Ok() && AllReadable(rs)
    ensures EmittedPlacements(emitted) == PlanAt(rs, |rs|, config).placed && midPath == PlanAt(rs, |rs|, config).midPath
    ensures GridsKept(emitted, config.lots)
    ensures Replays.StampsOrdered(rs) ==> TimesKept(emitted, if rs == [] then 0 else rs[|rs| - 1].local)
    ensures LiveShows(rs) && Known(rs, config) ==> EmittedPlacements(emitted) == AllPlaced(rs, |rs|, config)
    ensures LiveShows(rs) && Steady(rs) ==> midPath == MidsOf(rs, |rs|)
    ensures Clean(rs) ==> AllTrue(emitted, rs, config)
  {
    var e := new QueueSensitivityObserver(config);
    Starts(e, rs);
    ghost var t := Run(e, rs);
    End(e, rs, t);
    emitted, midPath := e.emitted, e.midPath;
    PlanIsRead(rs, config);
  }

  method Run(e: QueueSensitivityObserver, rs: seq<Record>) returns (ghost t: Trail)
    requires AllReadable(rs) && Between(e, rs, 0, Trail([], 0))
    modifies e
    ensures Between(e, rs, |rs|, t)
  {
    var i := 0;
    t := Trail([], 0);
    while i < |rs|
      invariant 0 <= i <= |rs| && Between(e, rs, i, t)
    {
      t := Step(e, rs, i, t);
      i := i + 1;
    }
  }

  /** What the plan is where a live book is usable. */
  lemma PlanIsRead(rs: seq<Record>, c: Config)
    requires c.placementNs > 0 && AllReadable(rs)
    ensures LiveShows(rs) && Known(rs, c) ==> PlanAt(rs, |rs|, c).placed == AllPlaced(rs, |rs|, c)
    ensures LiveShows(rs) && Steady(rs) ==> PlanAt(rs, |rs|, c).midPath == MidsOf(rs, |rs|)
  {
    if LiveShows(rs) {
      PlanStands(rs, |rs|, c);
    }
  }

  method Step(e: QueueSensitivityObserver, rs: seq<Record>, i: nat, ghost t: Trail) returns (ghost now: Trail)
    requires i < |rs| && AllReadable(rs) && Between(e, rs, i, t)
    modifies e
    ensures Between(e, rs, i + 1, now)
  {
    assert Readable(rs[i]);
    now := Announce(e, rs, i, t);
    now := Deliver(e, rs, i, now);
    now := Conclude(e, rs, i, now);
  }

  lemma Starts(e: QueueSensitivityObserver, rs: seq<Record>)
    requires e.Valid() && !e.tradeStreamUp && e.monotone && e.clock == 0 && AllReadable(rs)
    requires e.View() == Desk([], [], 0, false, 0, None, None, [])
    ensures Between(e, rs, 0, Trail([], 0))
  {
    assert DeskPlacements(e.View()) == [];
  }

  /** Closing the observer. */
  method End(e: QueueSensitivityObserver, rs: seq<Record>, ghost t: Trail)
    requires AllReadable(rs) && Between(e, rs, |rs|, t)
    modifies e
    ensures EmittedPlacements(e.emitted) == PlanAt(rs, |rs|, e.config).placed && e.midPath == PlanAt(rs, |rs|, e.config).midPath
    ensures GridsKept(e.emitted, e.config.lots)
    ensures Replays.StampsOrdered(rs) ==> TimesKept(e.emitted, if rs == [] then 0 else rs[|rs| - 1].local)
    ensures Clean(rs) ==> AllTrue(e.emitted, rs, e.config)
  {
    ghost var d := e.View();
    e.Finish();
    EmissionsKept(e.emitted, e.config, e.clock, e.monotone);
    if Clean(rs) && d.inSegment {
      LastTrue(d, t.origins, rs, t.start, e.config);
    }
  }

  lemma EmissionsKept(es: seq<Emission>, config: Config, clock: nat, monotone: bool)
    requires EmissionsHealthy(es, config, clock, monotone)
    ensures GridsKept(es, config.lots) && (monotone ==> TimesKept(es, clock))
  {
    forall k | 0 <= k < |es| ensures OrderOk(es[k].order, config.lots) && (monotone ==> TimesOk(es[k].order, clock)) {
      assert Healthy(es[k].order, config.lots, clock, monotone);
    }
  }
}
