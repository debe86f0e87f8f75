/** The native exporter and the trade index on one replay (cpp/research/native_dataset_exporter.cpp:590-676,
    911-978, cpp/research/passive_queue.cpp:185-343): the fill labels of a row are what the index answers
    over every trade of the replay. */
module NativeAgreement {
  import opened Wrappers
  import opened OrderBooks
  import opened FillModel
  import opened FillAnswers
  import PassiveQueue
  import opened PassiveIndex
  import opened FillAgreement
  import opened NativeRows
  import opened NativeTruth
  import opened NativePassives
  import opened NativeLives
  import opened NativeSegments
  import opened Replays
  import opened ReplayTrades
  import QueueGrid

  function SideOf(r: Row, bid: bool): SideState {
    if bid then r.bid else r.ask
  }

  /** The question a row puts to the index for one of its quotes. */
  function Asked(r: Row, bid: bool, c: Config): Query {
    var fill := SideOf(r, bid).fill;
    Query(bid, fill.quote, c.lots, fill.queue, r.ns, r.ns + c.horizonNs)
  }

  /** One print on either side of the comparison. */
  lemma PrintMatches(x: NativeSide, s: Progress, q: Query, t: QueueGrid.Print, u: Trade)
    requires q.Valid() && NativeMatches(x, s, q) && u.price == t.price && u.qty == t.qty
    ensures NativeMatches(NativePrint(x, q.findLess, q.placement, q.end - q.placement, q.order, u.localTime, t),
                          if t.aggressiveBuy != q.findLess then FillModel.Step(s, u, q) else s, q)
  {
  }

  lemma TouchedFill(p: Row, r: Record, before: Book, bid: bool, c: Config)
    ensures var n, s := SideOf(Touched(p, r, before, c), bid).fill, SideOf(p, bid).fill;
            n == if r.event.Trade? then NativePrint(s, bid, p.ns, c.horizonNs, c.lots, r.local, r.event.trade) else s
  {
  }

  lemma PrintKeepsQuote(s: NativeSide, bid: bool, ns: nat, horizon: nat, lots: int, local: nat, t: QueueGrid.Print)
    ensures var n := NativePrint(s, bid, ns, horizon, lots, local, t); n.quote == s.quote && n.queue == s.queue
  {
  }

  /** A row's fill follows the walk over the trades of the replay, record by record. */
  lemma {:induction false} FillFollowsTrades(p: Row, rs: seq<Record>, from: nat, n: nat, bid: bool, c: Config)
    requires StampsOrdered(rs) && PlacedAfter(p.ns, rs, from) && from <= n <= |rs|
    requires p == Born(p.ns, rs[from - 1].book, c) && Asked(p, bid, c).Valid()
    ensures var l := Lived(p, rs, from, n, c);
            l.ns == p.ns && Asked(l, bid, c) == Asked(p, bid, c)
            && NativeMatches(SideOf(l, bid).fill, Walked(rs, Asked(p, bid, c), n), Asked(p, bid, c))
    decreases n
  {
    var q := Asked(p, bid, c);
    if n == from {
      OutsideKeeps(rs, q, 0, n);
      assert Trades(rs, 0) == [];
    } else {
      FillFollowsTrades(p, rs, from, n - 1, bid, c);
      var l, r := Lived(p, rs, from, n - 1, c), rs[n - 1];
      TouchedKeepsNs(l, r, BookBefore(rs, n - 1), c);
      TouchedFill(l, r, BookBefore(rs, n - 1), bid, c);
      WalkedStep(rs, q, n);
      if r.event.Trade? {
        PrintKeepsQuote(SideOf(l, bid).fill, bid, l.ns, c.horizonNs, c.lots, r.local, r.event.trade);
        PrintMatches(SideOf(l, bid).fill, Walked(rs, q, n - 1), q, r.event.trade, RecordTrade(r, |Trades(rs, n - 1)|));
      }
    }
  }

  /** The fill a row was written with is where the walk over the trades told by then stands. */
  lemma WrittenFillFollows(r: Row, rs: seq<Record>, from: nat, told: nat, bid: bool, c: Config)
    requires told <= |rs| && StampsOrdered(rs) && LivedFrom(Bare(r), rs, from, told, c) && Asked(r, bid, c).Valid()
    ensures NativeMatches(SideOf(r, bid).fill, Walked(rs, Asked(r, bid, c), told), Asked(r, bid, c))
  {
    var p := Born(r.ns, rs[from - 1].book, c);
    LivedQuote(p, rs, from, told, bid, c);
    FillFollowsTrades(p, rs, from, told, bid, c);
  }

  lemma {:induction false} LivedQuote(p: Row, rs: seq<Record>, from: nat, n: nat, bid: bool, c: Config)
    requires n <= |rs|
    ensures Asked(Lived(p, rs, from, n, c), bid, c) == Asked(p, bid, c)
    decreases n
  {
    if n > from {
      LivedQuote(p, rs, from, n - 1, bid, c);
      var l, r := Lived(p, rs, from, n - 1, c), rs[n - 1];
      TouchedKeepsNs(l, r, BookBefore(rs, n - 1), c);
      TouchedFill(l, r, BookBefore(rs, n - 1), bid, c);
      if r.event.Trade? {
        PrintKeepsQuote(SideOf(l, bid).fill, bid, l.ns, c.horizonNs, c.lots, r.local, r.event.trade);
      }
    }
  }

  /** What the fill labels say once all of them are decided. */
  ghost predicate FillLabels(s: SideState, ns: nat, w: Progress, q: Query, c: Config) {
    && NativeMatches(s.fill, w, q) && s.filledAtHorizon == Some(FilledLots(w, q)) && |s.fillFlag| == |c.fillNs|
    && forall k | 0 <= k < |c.fillNs| :: s.fillFlag[k] == Some(w.full.Some? && w.full.value.localTime <= ns + c.fillNs[k])
  }

  lemma LabelsFollowFill(bid: bool, ns: nat, midX2: int, s: SideState, h: seq<Sample>, now: nat, due: nat, w: Progress, q: Query, c: Config)
    requires c.Ok() && SideTrue(bid, ns, midX2, s, h, now, due, c) && ns < now && ns + c.horizonNs <= due
    requires NativeMatches(s.fill, w, q) && q.order == c.lots && q.Valid()
    ensures FillLabels(s, ns, w, q, c)
  {
  }

  lemma LabelsDecided(r: Row, h: seq<Sample>, now: nat, due: nat, bid: bool, w: Progress, q: Query, c: Config)
    requires c.Ok() && RowTrue(r, h, now, due, c) && r.ns < now && r.ns + c.horizonNs <= due
    requires NativeMatches(SideOf(r, bid).fill, w, q) && q.order == c.lots && q.Valid()
    ensures FillLabels(SideOf(r, bid), r.ns, w, q, c)
  {
    LabelsFollowFill(bid, r.ns, r.midX2, SideOf(r, bid), h, now, due, w, q, c);
  }

  /** Trades after the segment that reaches the end of the window come too late to count. */
  lemma LaterTradesKeep(rs: seq<Record>, q: Query, last: nat)
    requires StampsRise(rs) && 0 < last <= |rs| && q.end <= Reach(rs, last)
    ensures Walked(rs, q, |rs|) == Walked(rs, q, Whole(rs, last))
  {
    OutsideKeeps(rs, q, Whole(rs, last), |rs|);
  }

  /** The window of a row lies inside the segment it was placed in. */
  ghost predicate WindowInside(r: Row, rs: seq<Record>, from: nat, c: Config) {
    PlacedAfter(r.ns, rs, from) && Inside(r, r.ns + c.horizonNs, rs, from)
  }

  /** If its window lies inside one segment a row's fill labels are final: they are what the walk over every
      trade of the replay comes to, at the horizon and at every earlier one. */
  lemma DecidedFillIsFinal(r: Row, rs: seq<Record>, from: nat, bid: bool, c: Config)
    requires c.Ok() && StampsRise(rs) && TrueRow(r, rs, c) && WindowInside(r, rs, from, c) && Asked(r, bid, c).Valid()
    ensures FillLabels(SideOf(r, bid), r.ns, Walked(rs, Asked(r, bid, c), |rs|), Asked(r, bid, c), c)
  {
    var first: nat, own: nat :| TrueTo(r, rs, first, own, c);
    PlacedOnce(r.ns, rs, from, own);
    FinalFrom(r, rs, first, from, bid, c);
  }

  lemma FinalFrom(r: Row, rs: seq<Record>, first: nat, from: nat, bid: bool, c: Config)
    requires c.Ok() && StampsRise(rs) && TrueTo(r, rs, first, from, c) && WindowInside(r, rs, from, c) && Asked(r, bid, c).Valid()
    ensures FillLabels(SideOf(r, bid), r.ns, Walked(rs, Asked(r, bid, c), |rs|), Asked(r, bid, c), c)
  {
    var q, last := Asked(r, bid, c), EndOf(rs, from);
    WrittenFillFollows(r, rs, from, Whole(rs, last), bid, c);
    LabelsDecided(r, Mids(rs, first, last), EndStamp(rs, last), Reach(rs, last), bid, Walked(rs, q, Whole(rs, last)), q, c);
    LaterTradesKeep(rs, q, last);
  }

  /** An answer and a side that say the same. */
  ghost predicate Agrees(s: SideState, o: FillAnswers.Outcome) {
    && s.filledAtHorizon == Some(o.filled) && (s.fill.fullFilled <==> o.state == FillAnswers.Full)
    && s.fill.fullNs == o.fullLocal && (s.fill.byThrough <==> o.byTradeThrough)
  }

  lemma ReportShows(s: SideState, ns: nat, w: Progress, q: Query, c: Config)
    requires q.Valid() && FillLabels(s, ns, w, q, c)
    ensures Agrees(s, Report(w, q))
  {
  }

  lemma ReportAgrees(r: Row, rs: seq<Record>, from: nat, bid: bool, c: Config)
    requires c.Ok() && StampsRise(rs) && TrueRow(r, rs, c) && WindowInside(r, rs, from, c) && Asked(r, bid, c).Valid()
    ensures Agrees(SideOf(r, bid), Report(Walked(rs, Asked(r, bid, c), |rs|), Asked(r, bid, c)))
  {
    DecidedFillIsFinal(r, rs, from, bid, c);
    ReportShows(SideOf(r, bid), r.ns, Walked(rs, Asked(r, bid, c), |rs|), Asked(r, bid, c), c);
  }

  /** So the index, asked about the same quote over the same trades, reports the same fill: whenever the
      window of the row lies inside one segment. */
  method AskIndex(index: PassiveTradeIndex, r: Row, bid: bool, c: Config, ghost rs: seq<Record>, ghost from: nat)
    returns (answer: PassiveQueue.Evaluation)
    requires index.Valid() && index.finalized && index.history == Trades(rs, |rs|)
    requires c.Ok() && StampsRise(rs) && TrueRow(r, rs, c) && WindowInside(r, rs, from, c) && Asked(r, bid, c).Valid()
    ensures answer.Success? && Agrees(SideOf(r, bid), answer.value)
  {
    ReportAgrees(r, rs, from, bid, c);
    answer := Put(index, r, bid, c, rs);
  }

  method Put(index: PassiveTradeIndex, r: Row, bid: bool, c: Config, ghost rs: seq<Record>) returns (answer: PassiveQueue.Evaluation)
    requires index.Valid() && index.finalized && index.history == Trades(rs, |rs|) && Asked(r, bid, c).Valid()
    ensures answer == PassiveQueue.Success(Report(Walked(rs, Asked(r, bid, c), |rs|), Asked(r, bid, c)))
  {
    var fill := SideOf(r, bid).fill;
    var side := if bid then PassiveQueue.Bid else PassiveQueue.Ask;
    answer := index.Evaluate(side, fill.quote, c.lots, fill.queue, r.ns, r.ns + c.horizonNs);
  }
}
