/** What the level observer keeps and emits (cpp/research/level_lifecycle.cpp:130-275, 300-536): levels,
    pending samples and rows, and what must hold of them. */
module LevelRows {
  import opened Wrappers
  import opened OrderBooks
  import opened LevelEpisodes
  import opened Grids

  const BID: nat := 0
  const ASK: nat := 1

  function SideOf(side: nat, book: Book): Side {
    if side == BID then book.bids else book.asks
  }

  /** A grid row as emitted: its labels, and the segment edge that censors them (zero for none). */
  datatype Row = Row(pending: Pending, edge: nat)

  predicate Censored(r: Row, horizon: nat) {
    r.edge != 0 && r.pending.ns + horizon > r.edge
  }

  ghost predicate LevelsBalanced(levels: seq<Episode>) {
    |levels| == 2 && (levels[BID].active ==> Balanced(levels[BID])) && (levels[ASK].active ==> Balanced(levels[ASK]))
  }

  ghost predicate EndedBalanced(ended: seq<Ended>) {
    forall k {:trigger Balanced(ended[k].episode)} | 0 <= k < |ended| :: Balanced(ended[k].episode)
  }

  function Running(levels: seq<Episode>): (n: nat)
    requires |levels| == 2
  {
    (if levels[BID].active then 1 else 0) + (if levels[ASK].active then 1 else 0)
  }

  /** Both levels are the book's best ones. */
  ghost predicate MirrorBook(levels: seq<Episode>, book: Book) {
    |levels| == 2 && Mirrors(levels[BID], book.bids) && Mirrors(levels[ASK], book.asks)
  }

  /** Before a depth event a level notes what the book shows at its price. */
  function NotedLevel(e: Episode, s: Side): Episode {
    e.(preEvent := if e.active then QuantityAt(s, e.price) else -1)
  }

  function NotedLevels(levels: seq<Episode>, book: Book): seq<Episode>
    requires |levels| == 2
  {
    [NotedLevel(levels[BID], book.bids), NotedLevel(levels[ASK], book.asks)]
  }

  /** What before_depth_event notes down. */
  ghost predicate Noted(levels: seq<Episode>, book: Book) {
    |levels| == 2
    && levels[BID].preEvent == (if levels[BID].active then QuantityAt(book.bids, levels[BID].price) else -1)
    && levels[ASK].preEvent == (if levels[ASK].active then QuantityAt(book.asks, levels[ASK].price) else -1)
  }

  ghost predicate AllLabelled(ps: seq<Pending>, prints: seq<Print>, horizons: seq<nat>) {
    forall k {:trigger Labelled(ps[k], prints, horizons)} | 0 <= k < |ps| :: Labelled(ps[k], prints, horizons)
  }

  ghost predicate Shaped(ps: seq<Pending>, horizons: seq<nat>) {
    forall k | 0 <= k < |ps| :: |ps[k].atQuote| == |ps[k].through| == |ps[k].crossed| == |horizons|
  }

  /** An emitted row is exact for the prints seen when it left. */
  ghost predicate RowLabelled(r: Row, prints: Option<seq<Print>>, horizons: seq<nat>) {
    prints.Some? ==> Labelled(r.pending, prints.value, horizons)
  }

  ghost predicate RowsLabelled(rows: seq<Row>, evidence: seq<Option<seq<Print>>>, horizons: seq<nat>) {
    |evidence| == |rows|
    && forall k {:trigger RowLabelled(rows[k], evidence[k], horizons)} | 0 <= k < |rows| :: RowLabelled(rows[k], evidence[k], horizons)
  }

  ghost predicate PrintsBy(prints: seq<Print>, t: nat) {
    forall k | 0 <= k < |prints| :: prints[k].ns <= t
  }

  lemma SampledIsLabelled(ns: nat, bid: bool, level: Episode, horizons: seq<nat>, prints: seq<Print>)
    requires forall k | 0 <= k < |prints| :: prints[k].ns <= ns
    ensures Labelled(Sampled(ns, bid, level, horizons), prints, horizons)
  {
    var p := Sampled(ns, bid, level, horizons);
    forall i | 0 <= i < |horizons|
      ensures AtQuote(prints, p, horizons[i], |prints|) == 0 && Through(prints, p, horizons[i], |prints|) == 0
    {
      NothingYet(prints, p, horizons[i], |prints|);
    }
  }

  lemma {:induction false} NothingYet(prints: seq<Print>, p: Pending, horizon: nat, n: nat)
    requires n <= |prints| && forall k | 0 <= k < |prints| :: prints[k].ns <= p.ns
    ensures AtQuote(prints, p, horizon, n) == 0 && Through(prints, p, horizon, n) == 0
  {
    if n > 0 {
      NothingYet(prints, p, horizon, n - 1);
    }
  }

  /** One sample per active level. */
  function SamplesAt(levels: seq<Episode>, ns: nat, horizons: seq<nat>): seq<Pending>
    requires |levels| == 2
  {
    (if levels[BID].active then [Sampled(ns, true, levels[BID], horizons)] else [])
    + (if levels[ASK].active then [Sampled(ns, false, levels[ASK], horizons)] else [])
  }

  /** The samples due from `next` on: at every grid instant before the stamp (or up to it). */
  ghost function DueSamples(levels: seq<Episode>, next: nat, local: nat, inclusive: bool, step: nat, horizons: seq<nat>): seq<Pending>
    requires step > 0 && |levels| == 2
    decreases local + 1 - next
  {
    if !(next < local || (inclusive && next == local)) then []
    else SamplesAt(levels, next, horizons) + DueSamples(levels, next + step, local, inclusive, step, horizons)
  }

  function Forgotten(levels: seq<Episode>): seq<Episode>
    requires |levels| == 2
  {
    [levels[BID].(preEvent := -1), levels[ASK].(preEvent := -1)]
  }

  /** How many samples at the front have seen their widest horizon pass. */
  function Passed(ps: seq<Pending>, widest: nat, local: nat, n: nat): (k: nat)
    requires n <= |ps|
    ensures n <= k <= |ps|
    decreases |ps| - n
  {
    if n < |ps| && local >= ps[n].ns + widest then Passed(ps, widest, local, n + 1) else n
  }

  function Leaving(ps: seq<Pending>, edge: nat, n: nat): (rs: seq<Row>)
    requires n <= |ps|
    ensures |rs| == n && forall k | 0 <= k < n :: rs[k] == Row(ps[k], edge)
  {
    seq(n, k requires 0 <= k < n => Row(ps[k], edge))
  }

  /** What n rows leaving now are held to. */
  ghost function Marks(n: nat, ordered: bool, prints: seq<Print>): (es: seq<Option<seq<Print>>>)
    ensures |es| == n && forall k | 0 <= k < n :: es[k] == if ordered then Some(prints) else None
  {
    seq(n, _ => if ordered then Some(prints) else None)
  }

  /** What a segment edge ends. */
  function EndsOf(levels: seq<Episode>, local: nat, reason: Reason): seq<Ended>
    requires |levels| == 2
  {
    (if levels[BID].active then [Ended(levels[BID], local, reason)] else [])
    + (if levels[ASK].active then [Ended(levels[ASK], local, reason)] else [])
  }

  /** The sampled side of the observer: what is pending, what has left, what it is held to, and where the
      grid stands. */
  datatype Samples = Samples(pending: seq<Pending>, rows: seq<Row>, evidence: seq<Option<seq<Print>>>, next: nat)

  /** The first k samples leave. */
  ghost function Left(s: Samples, k: nat, edge: nat, exact: bool, prints: seq<Print>): Samples
    requires k <= |s.pending|
  {
    Samples(s.pending[k..], s.rows + Leaving(s.pending, edge, k), s.evidence + Marks(k, exact, prints), s.next)
  }

  lemma LeftOneMore(s: Samples, k: nat, edge: nat, exact: bool, prints: seq<Print>)
    requires k < |s.pending|
    ensures var l := Left(s, k, edge, exact, prints);
            && |l.pending| > 0 && l.pending[0] == s.pending[k]
            && Left(s, k + 1, edge, exact, prints)
               == Samples(l.pending[1..], l.rows + [Row(l.pending[0], edge)], l.evidence + [if exact then Some(prints) else None], l.next)
  {
    assert Leaving(s.pending, edge, k + 1) == Leaving(s.pending, edge, k) + [Row(s.pending[k], edge)];
    assert Marks(k + 1, exact, prints) == Marks(k, exact, prints) + [if exact then Some(prints) else None];
  }

  /** The grid sampled up to a stamp on the levels as they stand, when the book is usable. */
  ghost function Advanced(s: Samples, levels: seq<Episode>, local: nat, inclusive: bool, book: Book, step: nat, horizons: seq<nat>): Samples
    requires step > 0 && |levels| == 2
  {
    s.(pending := s.pending + if book.valid then DueSamples(levels, s.next, local, inclusive, step, horizons) else [],
       next := NextFrom(s.next, local, inclusive, step))
  }

  lemma AdvancedStep(s: Samples, levels: seq<Episode>, local: nat, inclusive: bool, book: Book, step: nat, horizons: seq<nat>)
    requires step > 0 && |levels| == 2
    ensures var ahead := s.next < local || (inclusive && s.next == local);
            Advanced(s, levels, local, inclusive, book, step, horizons)
            == if !ahead then s
               else Advanced(s.(pending := s.pending + if book.valid then SamplesAt(levels, s.next, horizons) else [], next := s.next + step),
                             levels, local, inclusive, book, step, horizons)
  {
  }

  /** A record inside a segment: samples that have seen their widest horizon leave, held to the prints seen
      so far, and the grid goes on. */
  ghost function Stepped(s: Samples, levels: seq<Episode>, exact: bool, prints: seq<Print>, local: nat, inclusive: bool, book: Book,
                         step: nat, horizons: seq<nat>, widest: nat): Samples
    requires step > 0 && |levels| == 2
  {
    Advanced(Left(s, Passed(s.pending, widest, local, 0), 0, exact, prints), levels, local, inclusive, book, step, horizons)
  }

  /** A segment edge: everything pending leaves, marked with the edge. */
  ghost function Cut(s: Samples, exact: bool, prints: seq<Print>, edge: nat): Samples {
    Left(s, |s.pending|, edge, exact, prints)
  }

  /** The record that opens a segment is sampled when it falls on the grid. */
  ghost function Fresh(s: Samples, levels: seq<Episode>, local: nat, step: nat, horizons: seq<nat>): Samples
    requires step > 0 && |levels| == 2
  {
    var first := NextInstant(local, step);
    Samples(DueSamples(levels, first, local, true, step, horizons), s.rows, s.evidence, NextFrom(first, local, true, step))
  }

  /** The two episodes a segment starts with. */
  function FirstLevels(lastId: nat, segment: nat, book: Book, local: nat): seq<Episode>
    requires book.TwoSided()
  {
    [Started(lastId + 1, segment, book.bids.price, book.bids.qty, local),
     Started(lastId + 2, segment, book.asks.price, book.asks.qty, local)]
  }

  /** The observer as its callbacks leave it. */
  datatype Observer = Observer(levels: seq<Episode>, ended: seq<Ended>, nextId: nat, segmentId: nat, inSegment: bool, samples: Samples,
                               prints: seq<Print>, ordered: bool, shown: Book, mirrored: bool)

  /** What concluding a record does: an open segment goes on sampling, or ends where a stream is no longer
      usable; a usable book opens one. */
  ghost function Concluded(o: Observer, local: nat, book: Book, usable: bool, step: nat, horizons: seq<nat>, widest: nat): Observer
    requires step > 0 && |o.levels| == 2 && (book.valid ==> book.TwoSided())
  {
    if o.inSegment && usable then
      o.(samples := Stepped(o.samples, o.levels, o.ordered, o.prints, local, true, book, step, horizons, widest))
    else if o.inSegment then
      o.(inSegment := false, samples := Cut(o.samples, o.ordered, o.prints, local),
         levels := Idle(o.levels), ended := o.ended + EndsOf(o.levels, local, SegmentEnd))
    else if usable && book.valid then
      var levels := FirstLevels(o.nextId, o.segmentId + 1, book, local);
      Observer(levels, o.ended, o.nextId + 2, o.segmentId + 1, true, Fresh(o.samples, levels, local, step, horizons), [], true, book, true)
    else o
  }

  function Idle(levels: seq<Episode>): seq<Episode>
    requires |levels| == 2
  {
    [levels[BID].(active := false), levels[ASK].(active := false)]
  }

  /** Every level and every ended episode has a balanced ledger, ids count episodes, and levels known to
      mirror the book do. */
  ghost predicate LevelsKept(levels: seq<Episode>, ended: seq<Ended>, nextId: nat, inSegment: bool, mirrored: bool, shown: Book, noted: bool) {
    && LevelsBalanced(levels) && EndedBalanced(ended) && nextId == |ended| + Running(levels)
    && (!inSegment ==> Running(levels) == 0)
    && (inSegment && mirrored ==> shown.Sound() && MirrorBook(levels, shown) && (noted ==> Noted(levels, shown)))
  }

  /** Every row is exact for the evidence it left with and, while stamps never went back, every pending
      sample for the prints seen so far. */
  ghost predicate LabelsKept(s: Samples, prints: seq<Print>, clock: nat, ordered: bool, inSegment: bool, horizons: seq<nat>) {
    && RowsLabelled(s.rows, s.evidence, horizons) && Shaped(s.pending, horizons) && (!inSegment ==> s.pending == [])
    && (inSegment && ordered ==> AllLabelled(s.pending, prints, horizons) && PrintsBy(prints, clock) && clock <= s.next)
  }
}
