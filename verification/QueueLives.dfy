/** The life of one hypothetical order through the records of a replay (cpp/replay/event_replayer.cpp:142-315,
    cpp/research/queue_sensitivity.cpp:203-230, 255-430): placed at the touch of the book that was shown,
    touched by every event of its segment alone, and gone at the first chance after its window. */
module QueueLives {
  import opened OrderBooks
  import opened QueueGrid
  import opened QueueSensitivity
  import opened QueuePlans
  import opened Replays

  /** What one record does to one resting order. */
  function Touched(o: Order, r: Record, before: Book, lots: int): Order {
    match r.event
    case Trade(t) => PrintOrder(o, t, lots, r.local)
    case Depth(outcome) =>
      var seen := if before.valid then Observe(o, before) else o;
      if outcome.Failed? then seen else if outcome.Applied? && r.book.valid then DepthStep(seen, r.book).0 else Forget(seen)
    case _ => o
  }

  /** An order on its own: what the records from `from` on make of it, whatever else rests beside it. */
  ghost function Lived(o: Order, rs: seq<Record>, from: nat, upto: nat, lots: int): Order
    requires from <= upto <= |rs|
    decreases upto
  {
    if upto == from then o else Touched(Lived(o, rs, from, upto - 1, lots), rs[upto - 1], BookBefore(rs, upto - 1), lots)
  }

  /** What an order was placed as stays. */
  ghost predicate SamePlace(a: Order, b: Order) {
    a.placement == b.placement && a.segment == b.segment && a.side == b.side && a.quote == b.quote && a.displayed == b.displayed
  }

  lemma TouchedPlace(o: Order, r: Record, before: Book, lots: int)
    ensures SamePlace(Touched(o, r, before, lots), o)
  {
  }

  lemma {:induction false} LivedPlace(o: Order, rs: seq<Record>, from: nat, upto: nat, lots: int)
    requires from <= upto <= |rs|
    ensures SamePlace(Lived(o, rs, from, upto, lots), o)
    decreases upto
  {
    if upto > from {
      LivedPlace(o, rs, from, upto - 1, lots);
    }
  }

  /** An order as placed, and the first record it lives through. */
  datatype Origin = Origin(order: Order, from: nat)

  ghost predicate AtTouch(o: Order, book: Book) {
    book.TwoSided() && (o == Pair(o.placement, o.segment, book)[0] || o == Pair(o.placement, o.segment, book)[1])
  }

  /** It was placed at the touch of the book that record found, no earlier than the record before it, in the
      segment then open. */
  ghost predicate PlacedBefore(g: Origin, rs: seq<Record>) {
    && 0 < g.from <= |rs| && rs[g.from - 1].book.valid && Open(rs, g.from)
    && AtTouch(g.order, rs[g.from - 1].book) && g.order.segment == SegmentsBy(rs, g.from, HABITS) && rs[g.from - 1].local <= g.order.placement
    && (g.order.placement == rs[g.from - 1].local || (g.from < |rs| && g.order.placement < rs[g.from].local))
  }

  ghost predicate Lives(o: Order, g: Origin, rs: seq<Record>, start: nat, upto: nat, lots: int) {
    && PlacedBefore(g, rs) && start < g.from <= upto <= |rs| && o == Lived(g.order, rs, g.from, upto, lots)
  }

  ghost predicate Clean(rs: seq<Record>) {
    StampsOrdered(rs) && LiveShows(rs) && AllReadable(rs)
  }

  /** An order stays while its window lasts: no record it has lived through reached the end of it, except
      perhaps the one in whose announcement it was placed. */
  ghost predicate Stays(g: Origin, rs: seq<Record>, upto: nat, windowNs: nat)
    requires upto <= |rs| && 0 < g.from
  {
    && (forall j | g.from < j < upto :: rs[j].local < g.order.placement + windowNs)
    && (g.from < upto && g.order.placement == rs[g.from - 1].local ==> rs[g.from].local < g.order.placement + windowNs)
  }

  /** It leaves with its whole window when a record that reaches the end is announced or, placed in that very
      announcement, when it is concluded; or else with its segment, having been seen until then. */
  ghost predicate Leaves(e: Emission, g: Origin, rs: seq<Record>, upto: nat, windowNs: nat)
    requires 0 < g.from <= upto <= |rs|
  {
    var end, last := g.order.placement + windowNs, LastOf(rs, g.from, HABITS);
    || (upto <= last && upto < |rs| && rs[upto].local >= end && (g.from < upto || g.order.placement == rs[upto - 1].local) && e.observedEnd == end)
    || (g.from < upto <= last && rs[upto - 1].local >= end && e.observedEnd == end)
    || (upto == Whole(rs, last) && e.observedEnd == SeenUntil(e.order, windowNs, EndStamp(rs, last)))
  }

  /** An emitted order is the one placed, as the records of its segment left it until it had to leave. */
  ghost predicate TrueTo(e: Emission, g: Origin, rs: seq<Record>, upto: nat, c: Config) {
    Lives(e.order, g, rs, 0, upto, c.lots) && Stays(g, rs, upto, c.windowNs) && Leaves(e, g, rs, upto, c.windowNs)
  }

  ghost predicate TrueEmission(e: Emission, rs: seq<Record>, c: Config) {
    exists g: Origin, upto: nat :: TrueTo(e, g, rs, upto, c)
  }

  ghost predicate AllTrue(es: seq<Emission>, rs: seq<Record>, c: Config) {
    forall k {:trigger TrueEmission(es[k], rs, c)} | 0 <= k < |es| :: TrueEmission(es[k], rs, c)
  }

  /** No order leaves before it has to. */
  lemma LeavesInTime(e: Emission, g: Origin, rs: seq<Record>, u: nat, v: nat, c: Config)
    requires StampsOrdered(rs) && TrueTo(e, g, rs, u, c) && g.from <= v <= Whole(rs, LastOf(rs, g.from, HABITS))
    requires Stays(g, rs, v, c.windowNs)
    ensures v <= u
  {
  }

  /** So the records leave no choice when it leaves, nor as what. */
  lemma LeavesOnce(e: Emission, f: Emission, g: Origin, rs: seq<Record>, u: nat, v: nat, c: Config)
    requires StampsOrdered(rs) && TrueTo(e, g, rs, u, c) && TrueTo(f, g, rs, v, c)
    ensures u == v && e == f
  {
    LeavesInTime(e, g, rs, u, v, c);
    LeavesInTime(f, g, rs, v, u, c);
    LivedPlace(g.order, rs, g.from, u, c.lots);
  }

  /** With rising stamps the instant and the side say which order it was, and so everything emitted of it. */
  lemma EmissionIsDetermined(e: Emission, f: Emission, g: Origin, h: Origin, rs: seq<Record>, u: nat, v: nat, c: Config)
    requires Replays.StampsRise(rs) && TrueTo(e, g, rs, u, c) && TrueTo(f, h, rs, v, c)
    requires e.order.placement == f.order.placement && e.order.side == f.order.side
    ensures g == h && e == f
  {
    LivedPlace(g.order, rs, g.from, u, c.lots);
    LivedPlace(h.order, rs, h.from, v, c.lots);
    LeavesOnce(e, f, g, rs, u, v, c);
  }

  /** The end of its window comes no later than that of its segment. */
  ghost predicate WindowInside(g: Origin, rs: seq<Record>, windowNs: nat)
    requires 0 < g.from <= |rs|
  {
    g.order.placement + windowNs <= EndStamp(rs, LastOf(rs, g.from, HABITS))
  }

  /** An order was seen for its whole window if and only if that window lies inside its segment. */
  lemma WholeWindowIff(e: Emission, g: Origin, rs: seq<Record>, upto: nat, c: Config)
    requires StampsOrdered(rs) && TrueTo(e, g, rs, upto, c)
    ensures e.observedEnd == e.order.placement + c.windowNs <==> WindowInside(g, rs, c.windowNs)
    ensures e.observedEnd <= e.order.placement + c.windowNs
  {
    LivedPlace(g.order, rs, g.from, upto, c.lots);
  }

  /** An order resting between two records, one waiting for the event of record i, and one that has been told
      of it. */
  datatype Stage = Resting | Waiting | Informed

  /** While record i is replayed only an order placed in its announcement can have its window behind it. */
  ghost predicate InTime(g: Origin, rs: seq<Record>, i: nat, c: Config)
    requires 0 < i < |rs|
  {
    rs[i].local < g.order.placement + c.windowNs || (g.from == i && g.order.placement > rs[i - 1].local)
  }

  ghost predicate Fits(o: Order, g: Origin, rs: seq<Record>, start: nat, i: nat, c: Config, s: Stage) {
    match s
    case Resting =>
      && 0 < i <= |rs| && Lives(o, g, rs, start, i, c.lots) && Stays(g, rs, i, c.windowNs)
      && (if g.from < i then rs[i - 1].local < g.order.placement + c.windowNs else g.order.placement == rs[i - 1].local)
    case Waiting =>
      0 < i < |rs| && Lives(o, g, rs, start, i, c.lots) && Stays(g, rs, i, c.windowNs) && InTime(g, rs, i, c)
    case Informed =>
      && 0 < i < |rs| && Lives(o, g, rs, start, i + 1, c.lots) && Stays(g, rs, i + 1, c.windowNs)
      && (if g.from <= i then InTime(g, rs, i, c) else Survives(rs, i, HABITS) && g.order.placement == rs[i].local)
  }

  ghost predicate AllFit(os: seq<Order>, gs: seq<Origin>, rs: seq<Record>, start: nat, i: nat, c: Config, s: Stage) {
    |os| == |gs| && forall k {:trigger Fits(os[k], gs[k], rs, start, i, c, s)} | 0 <= k < |os| :: Fits(os[k], gs[k], rs, start, i, c, s)
  }

  /** At a stamp an order leaves as it should, or fits the stage that follows. */
  ghost predicate Parts(o: Order, g: Origin, rs: seq<Record>, start: nat, i: nat, upto: nat, local: nat, c: Config, s: Stage) {
    if local >= o.placement + c.windowNs then TrueTo(Emission(o, SeenUntil(o, c.windowNs, local)), g, rs, upto, c)
    else Fits(o, g, rs, start, i, c, s)
  }

  /** When record i is announced, */
  lemma PartsNow(o: Order, g: Origin, rs: seq<Record>, start: nat, i: nat, c: Config)
    requires StampsOrdered(rs) && 0 < i < |rs| && OneSegment(rs, start, i, HABITS) && Fits(o, g, rs, start, i, c, Resting)
    ensures Parts(o, g, rs, start, i, i, rs[i].local, c, Waiting)
  {
    LivedPlace(g.order, rs, g.from, i, c.lots);
    LastIsFirst(rs, g.from, i, HABITS);
  }

  /** when it is concluded and its segment outlives it, */
  lemma PartsThen(o: Order, g: Origin, rs: seq<Record>, start: nat, i: nat, c: Config)
    requires c.windowNs > 0 && StampsOrdered(rs) && 0 < i < |rs| && OneSegment(rs, start, i + 1, HABITS) && Fits(o, g, rs, start, i, c, Informed)
    ensures Parts(o, g, rs, start, i + 1, i + 1, rs[i].local, c, Resting)
  {
    LivedPlace(g.order, rs, g.from, i + 1, c.lots);
    LastIsFirst(rs, g.from, i + 1, HABITS);
  }

  /** when its segment ends with the record, */
  lemma CutThen(o: Order, g: Origin, rs: seq<Record>, start: nat, i: nat, c: Config)
    requires 0 < i < |rs| && OneSegment(rs, start, i, HABITS) && !Survives(rs, i, HABITS) && Fits(o, g, rs, start, i, c, Informed)
    ensures TrueTo(Emission(o, SeenUntil(o, c.windowNs, rs[i].local)), g, rs, i + 1, c)
  {
    LastIsFirst(rs, g.from, i, HABITS);
  }

  /** and when the input ends. */
  lemma CutLast(o: Order, g: Origin, rs: seq<Record>, start: nat, c: Config)
    requires OneSegment(rs, start, |rs|, HABITS) && Fits(o, g, rs, start, |rs|, c, Resting)
    ensures TrueTo(Emission(o, SeenUntil(o, c.windowNs, rs[|rs| - 1].local)), g, rs, |rs|, c)
  {
    LastIsFirst(rs, g.from, |rs|, HABITS);
  }

  /** What leaves joins the emissions true to their records. */
  lemma LeavingTrue(d: Desk, gs: seq<Origin>, rs: seq<Record>, upto: nat, local: nat, k: nat, c: Config)
    requires AllTrue(d.emitted, rs, c) && k <= |d.pending| == |gs|
    requires forall j | 0 <= j < k :: TrueTo(Emission(d.pending[j], SeenUntil(d.pending[j], c.windowNs, local)), gs[j], rs, upto, c)
    ensures AllTrue(Left(d, c.windowNs, local, k).emitted, rs, c)
  {
    var es := Left(d, c.windowNs, local, k).emitted;
    forall j | 0 <= j < |es| ensures TrueEmission(es[j], rs, c) {
      if j < |d.emitted| {
        assert TrueEmission(d.emitted[j], rs, c);
      } else {
        assert TrueTo(es[j], gs[j - |d.emitted|], rs, upto, c);
      }
    }
  }

  /** Placement order. */
  ghost predicate InOrder(os: seq<Order>, last: nat) {
    && (forall j, k | 0 <= j < k < |os| :: os[j].placement <= os[k].placement)
    && (forall k | 0 <= k < |os| :: os[k].placement <= last)
  }

  /** The run of due orders at the front is all of them: placement order is what makes that so. */
  lemma {:induction false} DuePrefixIsAll(os: seq<Order>, windowNs: nat, local: nat, n: nat, last: nat)
    requires n <= |os| && InOrder(os, last)
    ensures var k := DuePrefix(os, windowNs, local, n);
            && (forall j | n <= j < k :: local >= os[j].placement + windowNs)
            && (forall j | k <= j < |os| :: local < os[j].placement + windowNs)
    decreases |os| - n
  {
    if n < |os| && local >= os[n].placement + windowNs {
      DuePrefixIsAll(os, windowNs, local, n + 1, last);
    }
  }

  lemma OthersFit(os: seq<Order>, gs: seq<Origin>, rs: seq<Record>, start: nat, i: nat, upto: nat, local: nat, c: Config, s: Stage, k: nat)
    requires k <= |os| == |gs| && forall j | k <= j < |os| :: local < os[j].placement + c.windowNs
    requires forall j {:trigger Parts(os[j], gs[j], rs, start, i, upto, local, c, s)} | 0 <= j < |os| ::
               Parts(os[j], gs[j], rs, start, i, upto, local, c, s)
    ensures AllFit(os[k..], gs[k..], rs, start, i, c, s)
  {
    forall j | 0 <= j < |os| - k ensures Fits(os[k..][j], gs[k..][j], rs, start, i, c, s) {
      assert Parts(os[k + j], gs[k + j], rs, start, i, upto, local, c, s);
    }
  }

  /** So over a whole desk everybody due leaves, and everybody else fits the stage that follows. */
  lemma DueLeave(d: Desk, gs: seq<Origin>, rs: seq<Record>, start: nat, i: nat, upto: nat, local: nat, last: nat, c: Config, s: Stage)
    requires InOrder(d.pending, last) && AllTrue(d.emitted, rs, c) && |gs| == |d.pending|
    requires forall j {:trigger Parts(d.pending[j], gs[j], rs, start, i, upto, local, c, s)} | 0 <= j < |d.pending| ::
               Parts(d.pending[j], gs[j], rs, start, i, upto, local, c, s)
    ensures var k := DuePrefix(d.pending, c.windowNs, local, 0);
            AllTrue(Left(d, c.windowNs, local, k).emitted, rs, c) && AllFit(d.pending[k..], gs[k..], rs, start, i, c, s)
  {
    var k := DuePrefix(d.pending, c.windowNs, local, 0);
    DuePrefixIsAll(d.pending, c.windowNs, local, 0, last);
    forall j | 0 <= j < k ensures TrueTo(Emission(d.pending[j], SeenUntil(d.pending[j], c.windowNs, local)), gs[j], rs, upto, c) {
      assert Parts(d.pending[j], gs[j], rs, start, i, upto, local, c, s);
    }
    LeavingTrue(d, gs, rs, upto, local, k, c);
    OthersFit(d.pending, gs, rs, start, i, upto, local, c, s, k);
  }

  /** Announcing record i, */
  lemma AnnounceLeaves(d: Desk, gs: seq<Origin>, rs: seq<Record>, start: nat, i: nat, c: Config)
    requires StampsOrdered(rs) && 0 < i < |rs| && OneSegment(rs, start, i, HABITS) && AllFit(d.pending, gs, rs, start, i, c, Resting)
    requires InOrder(d.pending, rs[i - 1].local) && AllTrue(d.emitted, rs, c)
    ensures var k := DuePrefix(d.pending, c.windowNs, rs[i].local, 0);
            AllTrue(Left(d, c.windowNs, rs[i].local, k).emitted, rs, c) && AllFit(d.pending[k..], gs[k..], rs, start, i, c, Waiting)
  {
    forall j | 0 <= j < |d.pending| ensures Parts(d.pending[j], gs[j], rs, start, i, i, rs[i].local, c, Waiting) {
      assert Fits(d.pending[j], gs[j], rs, start, i, c, Resting);
      PartsNow(d.pending[j], gs[j], rs, start, i, c);
    }
    DueLeave(d, gs, rs, start, i, i, rs[i].local, rs[i - 1].local, c, Waiting);
  }

  /** concluding one its segment outlives, */
  lemma ConcludeLeaves(d: Desk, gs: seq<Origin>, rs: seq<Record>, start: nat, i: nat, c: Config)
    requires c.windowNs > 0 && StampsOrdered(rs) && 0 < i < |rs| && OneSegment(rs, start, i + 1, HABITS)
    requires AllFit(d.pending, gs, rs, start, i, c, Informed) && InOrder(d.pending, rs[i].local) && AllTrue(d.emitted, rs, c)
    ensures var k := DuePrefix(d.pending, c.windowNs, rs[i].local, 0);
            AllTrue(Left(d, c.windowNs, rs[i].local, k).emitted, rs, c) && AllFit(d.pending[k..], gs[k..], rs, start, i + 1, c, Resting)
  {
    forall j | 0 <= j < |d.pending| ensures Parts(d.pending[j], gs[j], rs, start, i + 1, i + 1, rs[i].local, c, Resting) {
      assert Fits(d.pending[j], gs[j], rs, start, i, c, Informed);
      PartsThen(d.pending[j], gs[j], rs, start, i, c);
    }
    DueLeave(d, gs, rs, start, i + 1, i + 1, rs[i].local, rs[i].local, c, Resting);
  }

  /** one that ends it, */
  lemma CutTrue(d: Desk, gs: seq<Origin>, rs: seq<Record>, start: nat, i: nat, c: Config)
    requires 0 < i < |rs| && OneSegment(rs, start, i, HABITS) && !Survives(rs, i, HABITS)
    requires AllFit(d.pending, gs, rs, start, i, c, Informed) && AllTrue(d.emitted, rs, c)
    ensures AllTrue(Cut(d, c.windowNs, rs[i].local).emitted, rs, c)
  {
    forall j | 0 <= j < |d.pending|
      ensures TrueTo(Emission(d.pending[j], SeenUntil(d.pending[j], c.windowNs, rs[i].local)), gs[j], rs, i + 1, c)
    {
      assert Fits(d.pending[j], gs[j], rs, start, i, c, Informed);
      CutThen(d.pending[j], gs[j], rs, start, i, c);
    }
    LeavingTrue(d, gs, rs, i + 1, rs[i].local, |d.pending|, c);
  }

  /** and the end of the input. */
  lemma LastTrue(d: Desk, gs: seq<Origin>, rs: seq<Record>, start: nat, c: Config)
    requires OneSegment(rs, start, |rs|, HABITS) && AllFit(d.pending, gs, rs, start, |rs|, c, Resting) && AllTrue(d.emitted, rs, c)
    ensures AllTrue(Cut(d, c.windowNs, rs[|rs| - 1].local).emitted, rs, c)
  {
    forall j | 0 <= j < |d.pending|
      ensures TrueTo(Emission(d.pending[j], SeenUntil(d.pending[j], c.windowNs, rs[|rs| - 1].local)), gs[j], rs, |rs|, c)
    {
      assert Fits(d.pending[j], gs[j], rs, start, |rs|, c, Resting);
      CutLast(d.pending[j], gs[j], rs, start, c);
    }
    LeavingTrue(d, gs, rs, |rs|, rs[|rs| - 1].local, |d.pending|, c);
  }

  /** Telling record i: an order lives through it, */
  lemma TouchFits(o: Order, g: Origin, rs: seq<Record>, start: nat, i: nat, c: Config)
    requires Fits(o, g, rs, start, i, c, Waiting)
    ensures Fits(Touched(o, rs[i], BookBefore(rs, i), c.lots), g, rs, start, i, c, Informed)
  {
  }

  /** and so does the whole desk. */
  lemma EventTouches(os: seq<Order>, gs: seq<Origin>, ps: seq<Order>, rs: seq<Record>, i: nat, start: nat, c: Config)
    requires 0 < i < |rs| && AllFit(os, gs, rs, start, i, c, Waiting) && InOrder(os, rs[i].local)
    requires |ps| == |os| && forall k | 0 <= k < |os| :: ps[k] == Touched(os[k], rs[i], BookBefore(rs, i), c.lots)
    ensures AllFit(ps, gs, rs, start, i, c, Informed) && InOrder(ps, rs[i].local)
  {
    forall k | 0 <= k < |os| ensures ps[k].placement == os[k].placement {
      TouchedPlace(os[k], rs[i], BookBefore(rs, i), c.lots);
    }
    forall k | 0 <= k < |os| ensures Fits(ps[k], gs[k], rs, start, i, c, Informed) {
      assert Fits(os[k], gs[k], rs, start, i, c, Waiting);
      TouchFits(os[k], gs[k], rs, start, i, c);
    }
  }

  lemma FitJoin(a: seq<Order>, ga: seq<Origin>, b: seq<Order>, gb: seq<Origin>, rs: seq<Record>, start: nat, i: nat, c: Config, s: Stage)
    requires AllFit(a, ga, rs, start, i, c, s) && AllFit(b, gb, rs, start, i, c, s)
    ensures AllFit(a + b, ga + gb, rs, start, i, c, s)
  {
    forall k | 0 <= k < |a + b| ensures Fits((a + b)[k], (ga + gb)[k], rs, start, i, c, s) {
      if k < |a| {
        assert Fits(a[k], ga[k], rs, start, i, c, s);
      } else {
        assert Fits(b[k - |a|], gb[k - |a|], rs, start, i, c, s);
      }
    }
  }
}
