/** The quotes of the event-selective maker dataset (cpp/research/event_dataset_exporter.cpp:348-374, 441-510): what
    each row must say, given when it was placed and when the book was replaced. */
module EventQuotes {
  import opened Wrappers
  import opened OrderBooks
  import opened FillModel
  import opened FillAnswers
  import opened PassiveQueue
  import opened PassiveIndex
  import opened ExtremeTrees

  datatype Resting = Resting(side: QuoteSide, price: int, queue: int, placement: nat, expiry: nat)

  /** A quote as written: the window it actually had, and what became of it there. */
  datatype Row = Row(quote: Resting, end: nat, invalidated: bool, outcome: Outcome)

  /** A replacement snapshot: its stamp, and how many quotes had been placed by then. */
  datatype Cut = Cut(ns: nat, placed: nat)

  /** The first snapshot after the k-th quote. */
  ghost function FirstCut(cuts: seq<Cut>, k: nat, n: nat): Option<nat>
    requires n <= |cuts|
  {
    if n == 0 then None
    else if FirstCut(cuts, k, n - 1).Some? then FirstCut(cuts, k, n - 1)
    else if k < cuts[n - 1].placed then Some(cuts[n - 1].ns)
    else None
  }

  /** Where the window of the k-th quote must end: at its expiry, or at the first later snapshot. */
  ghost function WindowEnd(q: Resting, cuts: seq<Cut>, k: nat): nat {
    var cut := FirstCut(cuts, k, |cuts|);
    if cut.Some? && cut.value < q.expiry then cut.value else q.expiry
  }

  ghost predicate RowTrue(r: Row, q: Resting, cuts: seq<Cut>, k: nat, history: seq<TardisTrade>, lots: int) {
    && r.quote == q && r.end == WindowEnd(q, cuts, k)
    && (r.invalidated <==> FirstCut(cuts, k, |cuts|).Some? && r.end < q.expiry)
    && var query := Query(q.side == Bid, q.price, lots, q.queue, q.placement, r.end);
       query.Valid() && r.outcome == Report(HistoryRun(history, if q.side == Bid then Sell else Buy, query, |history|), query)
  }

  /** So every field of its outcome says what the prints of the opposite aggressor inside its window make of it. */
  lemma RowAnswers(r: Row, q: Resting, cuts: seq<Cut>, k: nat, history: seq<TardisTrade>, lots: int)
    requires RowTrue(r, q, cuts, k, history, lots)
    ensures Answers(r.outcome, PrintsOf(history, if q.side == Bid then Sell else Buy, |history|),
                    Query(q.side == Bid, q.price, lots, q.queue, q.placement, WindowEnd(q, cuts, k)))
  {
    var a, query := if q.side == Bid then Sell else Buy, Query(q.side == Bid, q.price, lots, q.queue, q.placement, r.end);
    HistoryRunIsRun(history, a, query, |history|);
    ReportAnswers(PrintsOf(history, a, |history|), query);
  }

  ghost predicate RowsTrue(rows: seq<Row>, placed: seq<Resting>, cuts: seq<Cut>, history: seq<TardisTrade>, lots: int) {
    |rows| <= |placed|
    && forall k {:trigger RowTrue(rows[k], placed[k], cuts, k, history, lots)} | 0 <= k < |rows| ::
         RowTrue(rows[k], placed[k], cuts, k, history, lots)
  }

  /** Quotes that left the queue did so before any later snapshot could matter. */
  ghost predicate Settled(placed: seq<Resting>, cuts: seq<Cut>, n: nat, clock: nat)
    requires n <= |placed|
  {
    forall k {:trigger placed[k]} | 0 <= k < n :: FirstCut(cuts, k, |cuts|).Some? || placed[k].expiry <= clock
  }

  ghost predicate Uncut(cuts: seq<Cut>, from: nat) {
    forall i | 0 <= i < |cuts| :: cuts[i].placed <= from
  }

  lemma {:induction false} NoCutYet(cuts: seq<Cut>, k: nat, n: nat)
    requires n <= |cuts| && Uncut(cuts, k)
    ensures FirstCut(cuts, k, n) == None
  {
    if n > 0 {
      NoCutYet(cuts, k, n - 1);
    }
  }

  lemma {:induction false} CutPrefix(cuts: seq<Cut>, c: Cut, k: nat, n: nat)
    requires n <= |cuts|
    ensures FirstCut(cuts + [c], k, n) == FirstCut(cuts, k, n)
  {
    if n > 0 {
      CutPrefix(cuts, c, k, n - 1);
    }
  }

  /** A later snapshot does not move the end of a quote already settled. */
  lemma LaterCut(q: Resting, cuts: seq<Cut>, c: Cut, k: nat)
    requires FirstCut(cuts, k, |cuts|).Some? || q.expiry <= c.ns
    ensures WindowEnd(q, cuts + [c], k) == WindowEnd(q, cuts, k)
    ensures FirstCut(cuts + [c], k, |cuts| + 1).Some? && WindowEnd(q, cuts, k) < q.expiry ==> FirstCut(cuts, k, |cuts|).Some?
    ensures FirstCut(cuts, k, |cuts|).Some? ==> FirstCut(cuts + [c], k, |cuts| + 1).Some?
  {
    CutPrefix(cuts, c, k, |cuts|);
  }

  lemma RowsSurviveCut(rows: seq<Row>, placed: seq<Resting>, cuts: seq<Cut>, c: Cut, history: seq<TardisTrade>, lots: int, clock: nat)
    requires RowsTrue(rows, placed, cuts, history, lots) && Settled(placed, cuts, |rows|, clock) && clock <= c.ns
    ensures RowsTrue(rows, placed, cuts + [c], history, lots) && Settled(placed, cuts + [c], |rows|, clock)
  {
    forall k | 0 <= k < |rows| ensures RowTrue(rows[k], placed[k], cuts + [c], k, history, lots) {
      assert RowTrue(rows[k], placed[k], cuts, k, history, lots);
      LaterCut(placed[k], cuts, c, k);
    }
    forall k | 0 <= k < |rows| ensures FirstCut(cuts + [c], k, |cuts| + 1).Some? || placed[k].expiry <= clock {
      LaterCut(placed[k], cuts, c, k);
    }
  }

  lemma RowJoins(rows: seq<Row>, placed: seq<Resting>, cuts: seq<Cut>, r: Row, history: seq<TardisTrade>, lots: int)
    requires RowsTrue(rows, placed, cuts, history, lots) && |rows| < |placed|
    requires RowTrue(r, placed[|rows|], cuts, |rows|, history, lots)
    ensures RowsTrue(rows + [r], placed, cuts, history, lots)
  {
    forall k | 0 <= k < |rows| + 1 ensures RowTrue((rows + [r])[k], placed[k], cuts, k, history, lots) {
      if k < |rows| {
        assert RowTrue(rows[k], placed[k], cuts, k, history, lots);
      }
    }
  }

  lemma QuotesJoin(rows: seq<Row>, placed: seq<Resting>, more: seq<Resting>, cuts: seq<Cut>, history: seq<TardisTrade>, lots: int, clock: nat)
    requires RowsTrue(rows, placed, cuts, history, lots) && Settled(placed, cuts, |rows|, clock)
    ensures RowsTrue(rows, placed + more, cuts, history, lots) && Settled(placed + more, cuts, |rows|, clock)
  {
    forall k | 0 <= k < |rows| ensures RowTrue(rows[k], (placed + more)[k], cuts, k, history, lots) {
      assert RowTrue(rows[k], placed[k], cuts, k, history, lots);
    }
  }

  /** Decisions are a cooldown apart, except after one stamped zero, which the source takes for none. */
  ghost predicate Spaced(decisions: seq<nat>, cooldown: nat) {
    forall i {:trigger decisions[i]} | 0 < i < |decisions| :: decisions[i - 1] == 0 || decisions[i] >= decisions[i - 1] + cooldown
  }

  datatype Tally = Tally(full: nat, partial: nat, unfilled: nat, invalidations: nat, suppressed: nat, invalidBook: nat)

  function Count(t: Tally, r: Row): Tally {
    var n := t.(invalidations := t.invalidations + if r.invalidated then 1 else 0);
    match r.outcome.state
    case Full => n.(full := n.full + 1)
    case Partial => n.(partial := n.partial + 1)
    case Unfilled => n.(unfilled := n.unfilled + 1)
  }

  /** How many of the first n rows ended in a state. */
  ghost function InState(rows: seq<Row>, s: FillState, n: nat): nat
    requires n <= |rows|
  {
    if n == 0 then 0 else InState(rows, s, n - 1) + if rows[n - 1].outcome.state == s then 1 else 0
  }

  lemma {:induction false} InStateAppended(rows: seq<Row>, r: Row, s: FillState, n: nat)
    requires n <= |rows|
    ensures InState(rows + [r], s, n) == InState(rows, s, n)
  {
    if n > 0 {
      InStateAppended(rows, r, s, n - 1);
    }
  }

  /** How many of the first n rows a snapshot cut short. */
  ghost function Invalidated(rows: seq<Row>, n: nat): nat
    requires n <= |rows|
  {
    if n == 0 then 0 else Invalidated(rows, n - 1) + if rows[n - 1].invalidated then 1 else 0
  }

  lemma {:induction false} InvalidatedAppended(rows: seq<Row>, r: Row, n: nat)
    requires n <= |rows|
    ensures Invalidated(rows + [r], n) == Invalidated(rows, n)
  {
    if n > 0 {
      InvalidatedAppended(rows, r, n - 1);
    }
  }

  /** The tally counts the rows by outcome, and the ones cut short. */
  ghost predicate Tallied(t: Tally, rows: seq<Row>) {
    && t.full == InState(rows, Full, |rows|) && t.partial == InState(rows, Partial, |rows|) && t.unfilled == InState(rows, Unfilled, |rows|)
    && t.invalidations == Invalidated(rows, |rows|)
  }

  lemma CountTallies(t: Tally, rows: seq<Row>, r: Row)
    requires Tallied(t, rows)
    ensures Tallied(Count(t, r), rows + [r])
  {
    InStateAppended(rows, r, Full, |rows|);
    InStateAppended(rows, r, Partial, |rows|);
    InStateAppended(rows, r, Unfilled, |rows|);
    InvalidatedAppended(rows, r, |rows|);
  }

  /** Every row is in exactly one of the three states. */
  lemma {:induction false} StatesCover(rows: seq<Row>, n: nat)
    requires n <= |rows|
    ensures InState(rows, Full, n) + InState(rows, Partial, n) + InState(rows, Unfilled, n) == n
  {
    if n > 0 {
      StatesCover(rows, n - 1);
    }
  }

  /** The books about quotes and decisions: what waits is what was placed and not written, two quotes a
      decision, decisions a cooldown apart. */
  ghost predicate Booked(rows: seq<Row>, placed: seq<Resting>, pending: seq<Resting>, decisions: seq<nat>, candidates: nat,
                         lastDecision: nat, tally: Tally, cooldown: nat) {
    && |rows| <= |placed| && pending == placed[|rows|..]
    && candidates == |placed| == 2 * |decisions|
    && Tallied(tally, rows)
    && Spaced(decisions, cooldown) && lastDecision == (if decisions == [] then 0 else decisions[|decisions| - 1])
    && forall k {:trigger placed[k]} | 0 <= k < |placed| :: IsInt64(placed[k].price)
  }

  /** The index accepts the quote over the window it gets: a usable price and queue, and a window that is
      not empty, even when a snapshot cuts it. */
  predicate FitFor(q: Resting, cut: Option<nat>) {
    q.price > 0 && q.queue >= 0 && q.placement < q.expiry && (cut.Some? ==> q.placement < cut.value)
  }

  /** The quotes of a stretch are all accepted. */
  ghost predicate AllFit(placed: seq<Resting>, from: nat, to: nat, cut: Option<nat>) {
    forall k {:trigger FitFor(placed[k], cut)} | from <= k < to && k < |placed| :: FitFor(placed[k], cut)
  }

  lemma FitInLonger(placed: seq<Resting>, goal: seq<Resting>, from: nat, to: nat, cut: Option<nat>, later: Option<nat>)
    requires placed <= goal && to <= |placed| && AllFit(placed, from, to, cut)
    requires later.Some? ==> cut.Some? && cut.value <= later.value
    ensures AllFit(goal, from, to, later)
  {
    forall k | from <= k < to && k < |goal| ensures FitFor(goal[k], later) {
      assert FitFor(placed[k], cut);
    }
  }

  lemma UnfitInLonger(placed: seq<Resting>, goal: seq<Resting>, from: nat, was: nat, cut: Option<nat>)
    requires placed <= goal && was <= from && !AllFit(placed, from, |placed|, None)
    ensures !AllFit(goal, was, |goal|, cut)
  {
    var k :| from <= k < |placed| && !FitFor(placed[k], None);
    assert !FitFor(goal[k], cut);
  }

  lemma FitStep(placed: seq<Resting>, from: nat, n: nat, cut: Option<nat>)
    requires n < |placed| && AllFit(placed, from, n, cut) && FitFor(placed[n], cut)
    ensures AllFit(placed, from, n + 1, cut)
  {
  }

  lemma UnfitAt(placed: seq<Resting>, from: nat, n: nat, cut: Option<nat>)
    requires from <= n < |placed| && !FitFor(placed[n], cut)
    ensures !AllFit(placed, from, |placed|, cut)
  {
  }

  lemma StillUnfit(placed: seq<Resting>, from: nat, was: nat, cut: Option<nat>)
    requires was <= from && !AllFit(placed, from, |placed|, cut)
    ensures !AllFit(placed, was, |placed|, cut)
  {
    var k :| from <= k < |placed| && !FitFor(placed[k], cut);
  }

  lemma FitJoins(placed: seq<Resting>, from: nat, mid: nat, to: nat, cut: Option<nat>)
    requires AllFit(placed, from, mid, cut) && AllFit(placed, mid, to, cut)
    ensures AllFit(placed, from, to, cut)
  {
    forall k | from <= k < to && k < |placed| ensures FitFor(placed[k], cut) {
    }
  }

  /** What the rows written so far are worth at a stamp. */
  ghost predicate Proven(rows: seq<Row>, placed: seq<Resting>, cuts: seq<Cut>, trades: seq<TardisTrade>, lots: int, local: nat) {
    RowsTrue(rows, placed, cuts, trades, lots) && |rows| <= |placed| && Settled(placed, cuts, |rows|, local)
  }

  /** A decision needs a usable deep book and a cooldown that is over; a zero stamp counts as none. */
  predicate Decides(book: Book, deep: bool, last: nat, local: nat, cooldown: nat) {
    book.valid && deep && (last == 0 || local >= last + cooldown)
  }

  /** The quotes of a decision: the touch of both sides, behind what it shows, for one lifetime. */
  function Touches(book: Book, local: nat, lifetime: nat): (qs: seq<Resting>)
    requires book.TwoSided()
    ensures |qs| == 2
  {
    [Resting(Bid, book.bids.price, book.bids.qty, local, local + lifetime),
     Resting(Ask, book.asks.price, book.asks.qty, local, local + lifetime)]
  }

  /** What a moment that may decide leaves: a pair of quotes, or everything as it was. */
  ghost predicate Decided(wasPlaced: seq<Resting>, wasDecisions: seq<nat>, last: nat, placed: seq<Resting>, decisions: seq<nat>,
                          lastDecision: nat, book: Book, deep: bool, local: nat, cooldown: nat, lifetime: nat)
    requires deep ==> book.TwoSided()
  {
    if Decides(book, deep, last, local, cooldown)
    then placed == wasPlaced + Touches(book, local, lifetime) && decisions == wasDecisions + [local] && lastDecision == local
    else placed == wasPlaced && decisions == wasDecisions && lastDecision == last
  }

  /** The first trade after the n-th with another stamp. */
  function GroupEnd(trades: seq<TardisTrade>, n: nat, local: nat): (m: nat)
    requires n <= |trades|
    ensures n <= m <= |trades| && (n < |trades| && trades[n].localTime == local ==> n < m)
    decreases |trades| - n
  {
    if n < |trades| && trades[n].localTime == local then GroupEnd(trades, n + 1, local) else n
  }

  /** A run of trades of one stamp is the whole group. */
  lemma {:induction false} GroupIs(trades: seq<TardisTrade>, n: nat, m: nat, local: nat)
    requires n <= m <= |trades| && OneStamp(trades, n, m, local) && (m < |trades| ==> trades[m].localTime != local)
    ensures GroupEnd(trades, n, local) == m
    decreases m - n
  {
    if n < m {
      GroupIs(trades, n + 1, m, local);
    }
  }

  ghost predicate OneStamp(trades: seq<TardisTrade>, n: nat, m: nat, local: nat)
    requires m <= |trades|
  {
    forall k | n <= k < m :: trades[k].localTime == local
  }

  predicate Due(trades: seq<TardisTrade>, n: nat, limit: Option<nat>)
    requires n <= |trades|
  {
    n < |trades| && (limit.Some? ==> trades[n].localTime < limit.value)
  }

  /** The quotes the trades from the n-th on bring, up to a stamp: one decision per stamp, when the last
      one is a cooldown ago. */
  ghost function TradeQuotes(trades: seq<TardisTrade>, n: nat, limit: Option<nat>, book: Book, deep: bool, last: nat, cooldown: nat,
                             lifetime: nat): seq<Resting>
    requires n <= |trades| && (deep ==> book.TwoSided())
    decreases |trades| - n
  {
    if !Due(trades, n, limit) then []
    else
      var local := trades[n].localTime;
      var after := GroupEnd(trades, n, local);
      if Decides(book, deep, last, local, cooldown)
      then Touches(book, local, lifetime) + TradeQuotes(trades, after, limit, book, deep, local, cooldown, lifetime)
      else TradeQuotes(trades, after, limit, book, deep, last, cooldown, lifetime)
  }

  /** A loaded index over the day's trades. */
  ghost predicate Loaded(index: PassiveTradeIndex, history: seq<TardisTrade>)
    reads index, index.buyTree, index.sellTree, index.buyTree.tree, index.sellTree.tree
  {
    index.Valid() && index.finalized && index.history == history
  }

  /** Trades come in order of arrival. */
  ghost predicate Sorted(trades: seq<TardisTrade>) {
    forall i, j {:trigger trades[i].localTime, trades[j].localTime} | 0 <= i < j < |trades| :: trades[i].localTime <= trades[j].localTime
  }

  /** A snapshot covers every quote still waiting, and no earlier one does. */
  ghost predicate CutAt(cuts: seq<Cut>, from: nat, to: nat, at: Option<nat>) {
    forall k: nat {:trigger FirstCut(cuts, k, |cuts|)} | from <= k < to :: FirstCut(cuts, k, |cuts|) == at
  }

  lemma ExpiredSettles(placed: seq<Resting>, cuts: seq<Cut>, n: nat, clock: nat, local: nat)
    requires n < |placed| && Settled(placed, cuts, n, clock) && clock <= local && placed[n].expiry <= local
    ensures Settled(placed, cuts, n + 1, local)
  {
  }

  lemma LaterClock(placed: seq<Resting>, cuts: seq<Cut>, n: nat, clock: nat, local: nat)
    requires n <= |placed| && Settled(placed, cuts, n, clock) && clock <= local
    ensures Settled(placed, cuts, n, local)
  {
  }

  lemma UncutMeansNone(cuts: seq<Cut>, from: nat, to: nat)
    requires Uncut(cuts, from)
    ensures CutAt(cuts, from, to, None)
  {
    forall k: nat | from <= k < to ensures FirstCut(cuts, k, |cuts|) == None {
      NoCutYet(cuts, k, |cuts|);
    }
  }

  lemma NewCutCovers(cuts: seq<Cut>, c: Cut, from: nat)
    requires Uncut(cuts, from)
    ensures CutAt(cuts + [c], from, c.placed, Some(c.ns))
    ensures from <= c.placed ==> Uncut(cuts + [c], c.placed)
  {
    var all := cuts + [c];
    forall k: nat | from <= k < c.placed ensures FirstCut(all, k, |all|) == Some(c.ns) {
      NoCutYet(cuts, k, |cuts|);
      CutPrefix(cuts, c, k, |cuts|);
    }
  }

  /** After a snapshot every quote placed so far has its cut or has expired. */
  lemma EveryQuoteCut(placed: seq<Resting>, cuts: seq<Cut>, from: nat, local: nat, clock: nat)
    requires from <= |placed| && Settled(placed, cuts, from, clock) && CutAt(cuts, from, |placed|, Some(local))
    ensures Settled(placed, cuts, |placed|, clock)
  {
    forall k | 0 <= k < |placed| ensures FirstCut(cuts, k, |cuts|).Some? || placed[k].expiry <= clock {
      if k >= from {
        assert FirstCut(cuts, k, |cuts|) == Some(local);
      }
    }
  }

  /** Exactly when a waiting quote gets a row: the index accepts it over the window it had. A snapshot stamped
      no later than its placement leaves it no window at all. */
  lemma NoWindowNoRow(q: Resting, cuts: seq<Cut>, k: nat, lots: int)
    requires lots > 0 && IsInt64(q.price)
    ensures Query(q.side == Bid, q.price, lots, q.queue, q.placement, WindowEnd(q, cuts, k)).Valid()
       <==> FitFor(q, FirstCut(cuts, k, |cuts|))
  {
  }
}
