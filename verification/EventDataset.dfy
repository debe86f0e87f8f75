/** EventDatasetExporter (cpp/research/event_dataset_exporter.cpp:167-250, 318-374, 441-520): trades merged into the
    book stream, decisions a cooldown apart, and every quote resolved exactly once. */
module EventDataset {
  import opened Wrappers
  import opened OrderBooks
  import opened FillModel
  import opened PassiveQueue
  import opened PassiveIndex
  import opened EventQuotes
  import opened ExtremeTrees

  class EventDatasetExporter {
    const trades: seq<TardisTrade>
    const cooldown: nat
    const lifetime: nat
    const lots: int
    var nextTrade: nat
    var pending: seq<Resting>
    var rows: seq<Row>
    var tally: Tally
    var candidates: nat
    var lastDecision: nat
    /** Every quote placed, every decision, every replacement snapshot; the latest stamp seen, and
        whether stamps never went back. */
    ghost var placed: seq<Resting>
    ghost var decisions: seq<nat>
    ghost var cuts: seq<Cut>
    ghost var clock: nat
    ghost var ordered: bool

    ghost predicate Counted()
      reads this
    {
      && lots > 0 && lifetime > 0 && cooldown > 0 && nextTrade <= |trades|
      && Booked(rows, placed, pending, decisions, candidates, lastDecision, tally, cooldown) && Sorted(trades)
    }

    ghost predicate Truthful()
      reads this
    {
      && Told(clock)
      && (ordered && nextTrade < |trades| ==> trades[nextTrade].localTime >= clock)
    }

    ghost predicate Valid()
      reads this
    {
      Counted() && Truthful()
    }

    constructor (trades: seq<TardisTrade>, cooldown: nat, lifetime: nat, lots: int)
      requires cooldown > 0 && lifetime > 0 && lots > 0 && Sorted(trades)
      ensures Valid() && placed == [] && rows == [] && ordered && this.trades == trades && nextTrade == 0 && this.lots == lots
      ensures this.cooldown == cooldown && this.lifetime == lifetime && decisions == [] && lastDecision == 0 == clock
    {
      this.trades, this.cooldown, this.lifetime, this.lots := trades, cooldown, lifetime, lots;
      nextTrade, pending, rows, candidates, lastDecision := 0, [], [], 0, 0;
      tally := Tally(0, 0, 0, 0, 0, 0);
      placed, decisions, cuts, clock, ordered := [], [], [], 0, true;
    }

    /** The front quote, evaluated over the window it had; the index refuses an empty window. */
    method EmitFront(index: PassiveTradeIndex, end: nat, invalidated: bool) returns (ok: bool)
      requires Counted() && Loaded(index, trades) && pending != []
      requires ordered ==> RowsTrue(rows, placed, cuts, trades, lots) && end == WindowEnd(pending[0], cuts, |rows|)
                           && (invalidated <==> FirstCut(cuts, |rows|, |cuts|).Some? && end < pending[0].expiry)
      modifies `pending, `rows, `tally
      ensures ok <==> Query(old(pending)[0].side == Bid, old(pending)[0].price, lots, old(pending)[0].queue, old(pending)[0].placement, end).Valid()
      ensures ok ==> Counted() && (ordered ==> RowsTrue(rows, placed, cuts, trades, lots))
      ensures ok ==> |rows| == |old(rows)| + 1 && pending == old(pending)[1..] && old(rows) <= rows
      ensures !ok ==> pending == old(pending) && rows == old(rows) && tally == old(tally)
    {
      var q := pending[0];
      assert q == placed[|rows|];
      var r := index.Evaluate(q.side, q.price, lots, q.queue, q.placement, end);
      if r.Failure? {
        return false;
      }
      KeepRow(Row(q, end, invalidated, r.value));
      ok := true;
    }

    method KeepRow(row: Row)
      requires Counted() && pending != []
      requires ordered ==> RowsTrue(rows, placed, cuts, trades, lots) && RowTrue(row, pending[0], cuts, |rows|, trades, lots)
      modifies `pending, `rows, `tally
      ensures Counted() && (ordered ==> RowsTrue(rows, placed, cuts, trades, lots))
      ensures rows == old(rows) + [row] && pending == old(pending)[1..]
    {
      assert pending[0] == placed[|rows|];
      if ordered {
        RowJoins(rows, placed, cuts, row, trades, lots);
      }
      CountTallies(tally, rows, row);
      tally := Count(tally, row);
      rows := rows + [row];
      pending := pending[1..];
    }

    /** Time has come to a stamp. */
    ghost method Arrive(local: nat)
      modifies `clock, `ordered
      ensures clock == local && ordered == (old(ordered) && old(clock) <= local)
    {
      ordered := ordered && clock <= local;
      clock := local;
    }

    /** What the rows written so far are worth at a stamp. */
    ghost predicate Told(local: nat)
      reads this
    {
      && Uncut(cuts, |rows|)
      && (ordered ==> Proven(rows, placed, cuts, trades, lots, local))
    }

    method EmitExpired(index: PassiveTradeIndex, local: nat) returns (ok: bool)
      requires Counted() && Told(local) && Loaded(index, trades) && pending != [] && pending[0].expiry <= local
      modifies `pending, `rows, `tally
      ensures ok <==> FitFor(old(pending)[0], None)
      ensures ok ==> Counted() && Told(local) && |rows| == |old(rows)| + 1 && |pending| < |old(pending)| && old(rows) <= rows
      ensures !ok ==> rows == old(rows)
    {
      NoCutYet(cuts, |rows|, |cuts|);
      assert pending[0] == placed[|rows|];
      if ordered {
        ExpiredSettles(placed, cuts, |rows|, local, local);
      }
      ok := EmitFront(index, pending[0].expiry, false);
    }

    /** Quotes whose lifetime is over leave from the front with their whole window. */
    method ResolveUntil(index: PassiveTradeIndex, local: nat) returns (ok: bool)
      requires Counted() && Told(local) && Loaded(index, trades)
      modifies `pending, `rows, `tally
      ensures ok ==> Counted() && Told(local) && old(rows) <= rows && (pending != [] ==> pending[0].expiry > local)
      ensures ok ==> AllFit(placed, |old(rows)|, |rows|, Some(local))
      ensures !ok ==> !AllFit(placed, |old(rows)|, |placed|, None)
    {
      ghost var start := |rows|;
      while pending != [] && pending[0].expiry <= local
        invariant Counted() && Told(local) && old(rows) <= rows && AllFit(placed, start, |rows|, Some(local))
        decreases |pending|
      {
        ghost var n := |rows|;
        assert pending[0] == placed[n];
        ok := EmitExpired(index, local);
        if !ok {
          UnfitAt(placed, start, n, None);
          return;
        }
        FitStep(placed, start, n, Some(local));
      }
      ok := true;
    }

    /** The front quote at a cut. */
    method EmitCut(index: PassiveTradeIndex, cut: Option<nat>) returns (ok: bool)
      requires Counted() && Loaded(index, trades) && pending != [] && FirstCut(cuts, |rows|, |cuts|) == cut
      requires ordered ==> RowsTrue(rows, placed, cuts, trades, lots)
      modifies `pending, `rows, `tally
      ensures ok <==> FitFor(old(pending)[0], cut)
      ensures ok ==> Counted() && (ordered ==> RowsTrue(rows, placed, cuts, trades, lots))
      ensures ok ==> |rows| == |old(rows)| + 1 && pending == old(pending)[1..]
      ensures !ok ==> rows == old(rows)
    {
      var expiry := pending[0].expiry;
      var end := if cut.Some? && cut.value < expiry then cut.value else expiry;
      ok := EmitFront(index, end, cut.Some? && cut.value < expiry);
    }

    /** At a replacement snapshot, or at the end of the input, everything still waiting is resolved. */
    method ResolveAll(index: PassiveTradeIndex, cut: Option<nat>) returns (ok: bool)
      requires Counted() && Loaded(index, trades) && CutAt(cuts, |rows|, |placed|, cut)
      requires ordered ==> RowsTrue(rows, placed, cuts, trades, lots)
      modifies `pending, `rows, `tally
      ensures ok ==> Counted() && pending == [] && |rows| == |placed| && (ordered ==> RowsTrue(rows, placed, cuts, trades, lots))
      ensures ok <==> AllFit(placed, |old(rows)|, |placed|, cut)
    {
      ghost var start := |rows|;
      while pending != []
        invariant Counted() && CutAt(cuts, |rows|, |placed|, cut) && start <= |rows| && AllFit(placed, start, |rows|, cut)
        invariant ordered ==> RowsTrue(rows, placed, cuts, trades, lots)
        decreases |pending|
      {
        ghost var n := |rows|;
        assert FirstCut(cuts, n, |cuts|) == cut && pending[0] == placed[n];
        ok := EmitCut(index, cut);
        if !ok {
          UnfitAt(placed, start, n, cut);
          return;
        }
        FitStep(placed, start, n, cut);
      }
      ok := true;
    }

    /** A new stamp: expired quotes leave first. */
    method AdvanceTo(index: PassiveTradeIndex, local: nat) returns (ok: bool)
      requires Counted() && Told(clock) && Loaded(index, trades)
      modifies `pending, `rows, `tally, `clock, `ordered
      ensures clock == local && ordered == (old(ordered) && old(clock) <= local)
      ensures ok ==> Counted() && Told(clock) && old(rows) <= rows && (pending != [] ==> pending[0].expiry > local)
      ensures ok ==> |old(rows)| <= |rows| <= |placed| && AllFit(placed, |old(rows)|, |rows|, Some(local))
      ensures !ok ==> !AllFit(placed, |old(rows)|, |placed|, None)
    {
      if ordered && clock <= local {
        LaterClock(placed, cuts, |rows|, clock, local);
      }
      Arrive(local);
      ok := ResolveUntil(index, local);
    }

    /** A pair of quotes at the touch, unless the cooldown or the book forbids it. */
    method MaybeDecide(book: Book, deep: bool, local: nat)
      requires Counted() && Told(clock) && (deep ==> book.TwoSided() && IsInt64(book.bids.price) && IsInt64(book.asks.price))
      modifies `pending, `tally, `candidates, `lastDecision, `placed, `decisions
      ensures Counted() && Told(clock) && old(pending) <= pending
      ensures Decided(old(placed), old(decisions), old(lastDecision), book, deep, local)
      ensures tally.suppressed == old(tally).suppressed
              + if book.valid && old(lastDecision) != 0 && local < old(lastDecision) + cooldown then 1 else 0
      ensures tally.invalidBook == old(tally).invalidBook
              + if !book.valid || (!deep && (old(lastDecision) == 0 || local >= old(lastDecision) + cooldown)) then 1 else 0
    {
      if !book.valid {
        tally := tally.(invalidBook := tally.invalidBook + 1);
        return;
      }
      if lastDecision != 0 && local < lastDecision + cooldown {
        tally := tally.(suppressed := tally.suppressed + 1);
        return;
      }
      if !deep {
        tally := tally.(invalidBook := tally.invalidBook + 1);
        return;
      }
      Enqueue(Resting(Bid, book.bids.price, book.bids.qty, local, local + lifetime),
              Resting(Ask, book.asks.price, book.asks.qty, local, local + lifetime), local);
    }

    ghost predicate Decided(wasPlaced: seq<Resting>, wasDecisions: seq<nat>, last: nat, book: Book, deep: bool, local: nat)
      requires deep ==> book.TwoSided()
      reads `placed, `decisions, `lastDecision
    {
      EventQuotes.Decided(wasPlaced, wasDecisions, last, placed, decisions, lastDecision, book, deep, local, cooldown, lifetime)
    }

    method Enqueue(bid: Resting, ask: Resting, local: nat)
      requires Counted() && Told(clock) && IsInt64(bid.price) && IsInt64(ask.price)
      requires lastDecision == 0 || local >= lastDecision + cooldown
      modifies `pending, `candidates, `lastDecision, `placed, `decisions
      ensures Counted() && Told(clock) && pending == old(pending) + [bid, ask] && placed == old(placed) + [bid, ask]
      ensures decisions == old(decisions) + [local] && lastDecision == local
    {
      if ordered {
        QuotesJoin(rows, placed, [bid, ask], cuts, trades, lots, clock);
      }
      lastDecision := local;
      decisions := decisions + [local];
      pending := pending + [bid, ask];
      placed := placed + [bid, ask];
      candidates := candidates + 2;
    }

    /** All trades of one stamp are one event. */
    method ProcessTradeGroup(index: PassiveTradeIndex, book: Book, deep: bool) returns (ok: bool)
      requires Counted() && Told(clock) && Loaded(index, trades) && nextTrade < |trades|
      requires deep ==> book.TwoSided() && IsInt64(book.bids.price) && IsInt64(book.asks.price)
      modifies `pending, `rows, `tally, `clock, `ordered, `nextTrade, `candidates, `lastDecision, `placed, `decisions
      ensures clock == trades[old(nextTrade)].localTime && ordered == (old(ordered) && old(clock) <= clock)
      ensures ok ==> Counted() && Told(clock) && old(nextTrade) < nextTrade && (nextTrade < |trades| ==> trades[nextTrade].localTime > clock)
      ensures ok ==> OneStamp(trades, old(nextTrade), nextTrade, clock)
      ensures ok ==> |old(rows)| <= |rows| <= |old(placed)| && AllFit(old(placed), |old(rows)|, |rows|, Some(clock))
      ensures !ok ==> !AllFit(old(placed), |old(rows)|, |old(placed)|, None)
      ensures ok ==> Decided(old(placed), old(decisions), old(lastDecision), book, deep, clock)
    {
      var local := trades[nextTrade].localTime;
      ok := AdvanceTo(index, local);
      if ok {
        TakeAndDecide(book, deep, local);
      }
    }

    method TakeAndDecide(book: Book, deep: bool, local: nat)
      requires Counted() && Told(clock) && TradesAt(local)
      requires deep ==> book.TwoSided() && IsInt64(book.bids.price) && IsInt64(book.asks.price)
      modifies `nextTrade, `pending, `tally, `candidates, `lastDecision, `placed, `decisions
      ensures Counted() && Told(clock) && OneStamp(trades, old(nextTrade), nextTrade, local)
      ensures old(nextTrade) < nextTrade && (nextTrade < |trades| ==> trades[nextTrade].localTime > local)
      ensures Decided(old(placed), old(decisions), old(lastDecision), book, deep, local)
    {
      TakeGroup(local);
      MaybeDecide(book, deep, local);
    }

    method TakeGroup(local: nat)
      requires Counted() && Told(clock) && TradesAt(local)
      modifies `nextTrade
      ensures Counted() && Told(clock)
      ensures old(nextTrade) < nextTrade <= |trades| && (nextTrade < |trades| ==> trades[nextTrade].localTime > local)
      ensures OneStamp(trades, old(nextTrade), nextTrade, local)
    {
      var n := nextTrade;
      while n < |trades| && trades[n].localTime == local
        invariant nextTrade <= n <= |trades| && OneStamp(trades, nextTrade, n, local)
      {
        n := n + 1;
      }
      nextTrade := n;
    }

    ghost predicate Caught(local: nat)
      reads this
    {
      ordered && nextTrade < |trades| ==> trades[nextTrade].localTime >= local
    }

    /** The next group on the way to what the remaining trades bring. */
    method NextGroup(index: PassiveTradeIndex, book: Book, deep: bool, ghost limit: Option<nat>, ghost goal: seq<Resting>, ghost start: nat)
      returns (ok: bool)
      requires Counted() && Told(clock) && Loaded(index, trades) && Due(trades, nextTrade, limit)
      requires deep ==> book.TwoSided() && IsInt64(book.bids.price) && IsInt64(book.asks.price)
      requires goal == placed + Coming(limit, book, deep) && start <= |rows| && AllFit(placed, start, |rows|, limit)
      modifies `pending, `rows, `tally, `clock, `ordered, `nextTrade, `candidates, `lastDecision, `placed, `decisions
      ensures clock == trades[old(nextTrade)].localTime && ordered == (old(ordered) && old(clock) <= clock)
      ensures ok ==> Counted() && Told(clock) && old(nextTrade) < nextTrade && (nextTrade < |trades| ==> trades[nextTrade].localTime > clock)
      ensures ok ==> goal == placed + Coming(limit, book, deep) && start <= |rows| && AllFit(placed, start, |rows|, limit)
      ensures ok ==> old(decisions) <= decisions
      ensures !ok ==> !AllFit(goal, start, |goal|, None)
    {
      ghost var n, was, from := nextTrade, placed, |rows|;
      ok := ProcessTradeGroup(index, book, deep);
      if !ok {
        UnfitInLonger(was, goal, from, start, None);
        return;
      }
      GroupIs(trades, n, nextTrade, clock);
      FitInLonger(was, placed, start, from, limit, limit);
      FitInLonger(was, placed, from, |rows|, Some(clock), limit);
      FitJoins(placed, start, from, |rows|, limit);
    }

    /** Every trade strictly before a book event comes before it, and decides on the book it has not
        touched yet. */
    method ProcessTradesBefore(index: PassiveTradeIndex, local: nat, book: Book, deep: bool) returns (ok: bool)
      requires Valid() && Loaded(index, trades)
      requires deep ==> book.TwoSided() && IsInt64(book.bids.price) && IsInt64(book.asks.price)
      modifies `pending, `rows, `tally, `clock, `ordered, `nextTrade, `candidates, `lastDecision, `placed, `decisions
      ensures ok ==> Counted() && Told(clock) && old(nextTrade) <= nextTrade && (nextTrade < |trades| ==> trades[nextTrade].localTime >= local)
      ensures ok && old(ordered) && old(clock) <= local ==> ordered && clock <= local
      ensures ok ==> placed == old(placed) + old(Coming(Some(local), book, deep))
      ensures ok ==> |old(rows)| <= |rows| && AllFit(placed, |old(rows)|, |rows|, Some(local)) && old(decisions) <= decisions
      ensures !ok ==> old(Unfit(Some(local), book, deep, None))
    {
      ghost var goal, start := placed + Coming(Some(local), book, deep), |rows|;
      while nextTrade < |trades| && trades[nextTrade].localTime < local
        invariant start <= |rows| && AllFit(placed, start, |rows|, Some(local)) && old(decisions) <= decisions
        invariant Counted() && Told(clock) && Caught(clock) && old(nextTrade) <= nextTrade
        invariant old(ordered) && old(clock) <= local ==> ordered && clock <= local
        invariant goal == placed + Coming(Some(local), book, deep)
        decreases |trades| - nextTrade
      {
        ok := NextGroup(index, book, deep, Some(local), goal, start);
        if !ok {
          return;
        }
      }
      ok := true;
    }

    /** Some quote waiting now, or brought by the trades up to a stamp, will be refused. */
    ghost predicate Unfit(limit: Option<nat>, book: Book, deep: bool, cut: Option<nat>)
      requires nextTrade <= |trades| && (deep ==> book.TwoSided())
      reads `nextTrade, `lastDecision, `placed, `rows
    {
      var goal := placed + Coming(limit, book, deep);
      !AllFit(goal, |rows|, |goal|, cut)
    }

    /** The quotes the trades still to come will bring, up to a stamp, on an unchanged book. */
    ghost function Coming(limit: Option<nat>, book: Book, deep: bool): seq<Resting>
      requires nextTrade <= |trades| && (deep ==> book.TwoSided())
      reads `nextTrade, `lastDecision
    {
      TradeQuotes(trades, nextTrade, limit, book, deep, lastDecision, cooldown, lifetime)
    }

    /** Before a depth event: earlier trades, then what has expired. Stamps stay in order as long as the
        book's own do. */
    method BeforeDepthEvent(index: PassiveTradeIndex, local: nat, book: Book, deep: bool) returns (ok: bool)
      requires Valid() && Loaded(index, trades)
      requires deep ==> book.TwoSided() && IsInt64(book.bids.price) && IsInt64(book.asks.price)
      modifies `pending, `rows, `tally, `clock, `ordered, `nextTrade, `candidates, `lastDecision, `placed, `decisions
      ensures ok ==> Valid() && clock == local && (old(ordered) && old(clock) <= local ==> ordered)
      ensures ok ==> old(nextTrade) <= nextTrade && (nextTrade < |trades| ==> trades[nextTrade].localTime >= local)
      ensures ok ==> placed == old(placed) + old(Coming(Some(local), book, deep)) && (pending != [] ==> pending[0].expiry > local)
      ensures ok ==> |old(rows)| <= |rows| && AllFit(placed, |old(rows)|, |rows|, Some(local)) && old(decisions) <= decisions
      ensures !ok ==> old(Unfit(Some(local), book, deep, None))
    {
      ok := ProcessTradesBefore(index, local, book, deep);
      if ok {
        ghost var from := |rows|;
        ok := AdvanceTo(index, local);
        if ok {
          FitJoins(placed, |old(rows)|, from, |rows|, Some(local));
        } else {
          UnfitInLonger(placed, placed, from, |old(rows)|, None);
        }
      }
    }

    /** Trades of exactly this stamp are next. */
    predicate TradesAt(local: nat)
      reads `nextTrade
    {
      nextTrade < |trades| && trades[nextTrade].localTime == local
    }

    /** After it: trades of the same stamp, then the best levels' own move; together they decide at most
        once, and exactly when either happened and the cooldown is over. */
    method AfterDepthEvent(index: PassiveTradeIndex, local: nat, book: Book, deep: bool, bboChanged: bool) returns (ok: bool)
      requires Valid() && Loaded(index, trades) && local == clock
      requires deep ==> book.TwoSided() && IsInt64(book.bids.price) && IsInt64(book.asks.price)
      modifies `pending, `rows, `tally, `clock, `ordered, `nextTrade, `candidates, `lastDecision, `placed, `decisions
      ensures ok ==> Valid() && (old(ordered) ==> ordered) && clock == local
      ensures ok && (old(TradesAt(local)) || bboChanged) ==> Decided(old(placed), old(decisions), old(lastDecision), book, deep, local)
      ensures ok && !(old(TradesAt(local)) || bboChanged) ==> placed == old(placed) && decisions == old(decisions)
      ensures !old(TradesAt(local)) ==> ok && rows == old(rows)
      ensures ok && book.valid ==> !TradesAt(local)
      ensures !ok ==> !AllFit(old(placed), |old(rows)|, |old(placed)|, None)
    {
      if !book.valid {
        tally := tally.(invalidBook := tally.invalidBook + 1);
        return true;
      }
      ok := FollowEvent(index, local, book, deep, bboChanged);
    }

    method FollowEvent(index: PassiveTradeIndex, local: nat, book: Book, deep: bool, bboChanged: bool) returns (ok: bool)
      requires Counted() && Told(clock) && Loaded(index, trades) && local == clock && book.valid
      requires deep ==> book.TwoSided() && IsInt64(book.bids.price) && IsInt64(book.asks.price)
      modifies `pending, `rows, `tally, `clock, `ordered, `nextTrade, `candidates, `lastDecision, `placed, `decisions
      ensures ok ==> Counted() && Told(clock) && ordered == old(ordered) && clock == local
      ensures ok ==> !TradesAt(local) && (old(Caught(clock)) ==> Caught(clock))
      ensures !ok ==> !AllFit(old(placed), |old(rows)|, |old(placed)|, None)
      ensures ok && (old(TradesAt(local)) || bboChanged) ==> Decided(old(placed), old(decisions), old(lastDecision), book, deep, local)
      ensures ok && !(old(TradesAt(local)) || bboChanged) ==> placed == old(placed) && decisions == old(decisions)
      ensures !old(TradesAt(local)) ==> ok && rows == old(rows)
    {
      var sameTime := TradesAt(local);
      ghost var p, d, last := placed, decisions, lastDecision;
      if sameTime {
        ok := ProcessTradeGroup(index, book, deep);
        if !ok {
          return;
        }
      }
      MoveDecides(book, deep, local, bboChanged, sameTime, p, d, last);
      ok := true;
    }

    /** The best levels' move decides too, unless a trade of the same stamp just has. */
    method MoveDecides(book: Book, deep: bool, local: nat, bboChanged: bool, sameTime: bool,
                       ghost p: seq<Resting>, ghost d: seq<nat>, ghost last: nat)
      requires Counted() && Told(clock) && book.valid && (deep ==> book.TwoSided() && IsInt64(book.bids.price) && IsInt64(book.asks.price))
      requires if sameTime then Decided(p, d, last, book, deep, local) else placed == p && decisions == d && lastDecision == last
      modifies `pending, `tally, `candidates, `lastDecision, `placed, `decisions
      ensures Counted() && Told(clock)
      ensures if sameTime || bboChanged then Decided(p, d, last, book, deep, local) else placed == p && decisions == d
    {
      if bboChanged && (!sameTime || lastDecision != local) {
        MaybeDecide(book, deep, local);
      }
    }

    /** A replacement snapshot ends the window of every quote still waiting. */
    method BeforeSnapshot(index: PassiveTradeIndex, local: nat, book: Book, deep: bool) returns (ok: bool)
      requires Valid() && Loaded(index, trades)
      requires deep ==> book.TwoSided() && IsInt64(book.bids.price) && IsInt64(book.asks.price)
      modifies `pending, `rows, `tally, `clock, `ordered, `nextTrade, `candidates, `lastDecision, `placed, `decisions, `cuts
      ensures ok ==> Valid() && pending == [] && clock == local && (old(ordered) && old(clock) <= local ==> ordered)
      ensures ok ==> placed == old(placed) + old(Coming(Some(local), book, deep)) && cuts == old(cuts) + [Cut(local, |placed|)]
      ensures ok <==> !old(Unfit(Some(local), book, deep, Some(local)))
    {
      ghost var goal := placed + Coming(Some(local), book, deep);
      ok := BeforeDepthEvent(index, local, book, deep);
      if ok {
        ghost var from := |rows|;
        ok := CutWindows(index, local);
        if ok {
          FitJoins(placed, |old(rows)|, from, |placed|, Some(local));
        } else {
          StillUnfit(placed, from, |old(rows)|, Some(local));
        }
      } else {
        UnfitInLonger(goal, goal, |old(rows)|, |old(rows)|, Some(local));
      }
    }

    /** The snapshot is noted against every quote still waiting. */
    ghost method NoteCut(local: nat)
      requires Valid() && clock == local
      modifies `cuts
      ensures Counted() && cuts == old(cuts) + [Cut(local, |placed|)]
      ensures CutAt(cuts, |rows|, |placed|, Some(local)) && Uncut(cuts, |placed|)
      ensures ordered ==> RowsTrue(rows, placed, cuts, trades, lots) && Settled(placed, cuts, |rows|, clock)
    {
      var c := Cut(local, |placed|);
      NewCutCovers(cuts, c, |rows|);
      if ordered {
        RowsSurviveCut(rows, placed, cuts, c, trades, lots, clock);
      }
      cuts := cuts + [c];
    }

    method CutWindows(index: PassiveTradeIndex, local: nat) returns (ok: bool)
      requires Valid() && Loaded(index, trades) && clock == local
      modifies `pending, `rows, `tally, `cuts
      ensures ok ==> Valid() && pending == [] && cuts == old(cuts) + [Cut(local, |placed|)]
      ensures ok <==> AllFit(placed, |old(rows)|, |placed|, Some(local))
    {
      NoteCut(local);
      ghost var from := |rows|;
      ok := ResolveAll(index, Some(local));
      if ok && ordered {
        EveryQuoteCut(placed, cuts, from, local, clock);
      }
    }

    method AfterSnapshot(index: PassiveTradeIndex, local: nat, book: Book, deep: bool) returns (ok: bool)
      requires Valid() && Loaded(index, trades) && local == clock
      requires deep ==> book.TwoSided() && IsInt64(book.bids.price) && IsInt64(book.asks.price)
      modifies `pending, `rows, `tally, `clock, `ordered, `nextTrade, `candidates, `lastDecision, `placed, `decisions
      ensures ok ==> Valid() && (old(ordered) ==> ordered) && clock == local && !TradesAt(local)
      ensures ok && old(TradesAt(local)) ==> Decided(old(placed), old(decisions), old(lastDecision), book, deep, local)
      ensures ok && !old(TradesAt(local)) ==> placed == old(placed) && decisions == old(decisions)
      ensures !ok ==> !AllFit(old(placed), |old(rows)|, |old(placed)|, None)
    {
      ok := true;
      if TradesAt(local) {
        ok := ProcessTradeGroup(index, book, deep);
      }
    }

    method ProcessRemaining(index: PassiveTradeIndex, book: Book, deep: bool) returns (ok: bool)
      requires Valid() && Loaded(index, trades)
      requires deep ==> book.TwoSided() && IsInt64(book.bids.price) && IsInt64(book.asks.price)
      modifies `pending, `rows, `tally, `clock, `ordered, `nextTrade, `candidates, `lastDecision, `placed, `decisions
      ensures ok ==> Counted() && Told(clock) && nextTrade == |trades| && placed == old(placed) + old(Coming(None, book, deep))
      ensures ok && old(ordered) ==> ordered
      ensures ok ==> |old(rows)| <= |rows| && AllFit(placed, |old(rows)|, |rows|, None)
      ensures !ok ==> old(Unfit(None, book, deep, None))
    {
      ghost var goal, start := placed + Coming(None, book, deep), |rows|;
      while nextTrade < |trades|
        invariant start <= |rows| && AllFit(placed, start, |rows|, None)
        invariant Counted() && Told(clock) && Caught(clock) && (old(ordered) ==> ordered)
        invariant goal == placed + Coming(None, book, deep)
        decreases |trades| - nextTrade
      {
        ok := NextGroup(index, book, deep, None, goal, start);
        if !ok {
          return;
        }
      }
      ok := true;
    }

    /** At the end: every trade taken, every quote written exactly once in the order it was placed, and
        the counts agree. */
    method Finish(index: PassiveTradeIndex, book: Book, deep: bool) returns (ok: bool)
      requires Valid() && Loaded(index, trades)
      requires deep ==> book.TwoSided() && IsInt64(book.bids.price) && IsInt64(book.asks.price)
      modifies `pending, `rows, `tally, `clock, `ordered, `nextTrade, `candidates, `lastDecision, `placed, `decisions
      ensures ok ==> Counted() && nextTrade == |trades| && pending == []
      ensures ok ==> |rows| == candidates == 2 * |decisions| == tally.full + tally.partial + tally.unfilled
      ensures ok && ordered ==> RowsTrue(rows, placed, cuts, trades, lots) && |rows| == |placed|
      ensures ok ==> placed == old(placed) + old(Coming(None, book, deep))
      ensures ok && old(ordered) ==> ordered
      ensures ok <==> !old(Unfit(None, book, deep, None))
    {
      ok := ProcessRemaining(index, book, deep);
      if ok {
        ghost var from := |rows|;
        UncutMeansNone(cuts, |rows|, |placed|);
        ok := ResolveAll(index, None);
        StatesCover(rows, |rows|);
        if ok {
          FitJoins(placed, |old(rows)|, from, |placed|, None);
        } else {
          StillUnfit(placed, from, |old(rows)|, None);
        }
      }
    }
  }
}
