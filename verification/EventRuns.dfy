/** Two runs of the event dataset (cpp/research/event_dataset_exporter.cpp:319-374, 456-501) on a day without
    trades: when a replacement snapshot stops it, and how a decision stamped zero is forgotten. */
module EventRuns {
  import opened Wrappers
  import opened OrderBooks
  import opened PassiveIndex
  import opened EventQuotes
  import opened EventDataset
  import opened ExtremeTrees

  /** A book good for quoting at both touches. */
  ghost predicate Quotable(book: Book) {
    && book.valid && book.TwoSided() && 0 < book.bids.price && 0 < book.asks.price
    && IsInt64(book.bids.price) && IsInt64(book.asks.price) && book.bids.qty >= 0 && book.asks.qty >= 0
  }

  lemma TouchesFit(book: Book, local: nat, lifetime: nat, cut: Option<nat>)
    requires Quotable(book) && lifetime > 0
    ensures AllFit(Touches(book, local, lifetime), 0, 2, cut) <==> (cut.Some? ==> local < cut.value)
  {
    var qs := Touches(book, local, lifetime);
    assert FitFor(qs[0], cut) <==> (cut.Some? ==> local < cut.value);
  }

  /** An index over a day without trades. */
  method EmptyIndex() returns (index: PassiveTradeIndex)
    ensures Loaded(index, []) && fresh(index)
  {
    index := new PassiveTradeIndex();
    var s := index.Finalize();
  }

  /** A day without trades up to its first event. */
  method Opened(index: PassiveTradeIndex, book: Book, at: nat, cooldown: nat, lifetime: nat, lots: int) returns (e: EventDatasetExporter)
    requires Loaded(index, []) && Quotable(book) && cooldown > 0 && lifetime > 0 && lots > 0
    ensures fresh(e) && e.Valid() && e.trades == [] && e.clock == at && e.placed == [] && e.decisions == []
    ensures e.cooldown == cooldown && e.lifetime == lifetime && e.rows == [] && e.nextTrade == 0 == e.lastDecision
  {
    e := new EventDatasetExporter([], cooldown, lifetime, lots);
    assert e.Coming(Some(at), book, true) == [];
    var ok := e.BeforeDepthEvent(index, at, book, true);
  }

  /** A day without trades whose first event makes a decision. */
  method FirstDecision(index: PassiveTradeIndex, book: Book, at: nat, cooldown: nat, lifetime: nat, lots: int) returns (e: EventDatasetExporter)
    requires Loaded(index, []) && Quotable(book) && cooldown > 0 && lifetime > 0 && lots > 0
    ensures fresh(e) && e.Valid() && e.trades == [] && e.rows == [] && e.clock == at && e.nextTrade == 0
    ensures e.cooldown == cooldown && e.lifetime == lifetime && e.placed == Touches(book, at, lifetime) && e.decisions == [at]
  {
    e := Opened(index, book, at, cooldown, lifetime, lots);
    var ok := e.AfterDepthEvent(index, at, book, true, true);
  }

  /** A decision and a later snapshot: the run goes on if and only if the snapshot is stamped after the
      decision. At one stamp, which the feed can deliver, it stops. */
  method DecideThenCut(book: Book, decision: nat, cut: nat, cooldown: nat, lifetime: nat, lots: int) returns (ok: bool)
    requires Quotable(book) && cooldown > 0 && lifetime > 0 && lots > 0 && decision <= cut
    ensures ok <==> decision < cut
  {
    var index := EmptyIndex();
    var e := FirstDecision(index, book, decision, cooldown, lifetime, lots);
    TouchesFit(book, decision, lifetime, Some(cut));
    assert e.Coming(Some(cut), book, true) == [];
    ok := e.BeforeSnapshot(index, cut, book, true);
  }

  /** A decision stamped zero counts as none: the next one may follow at once, whatever the cooldown. */
  method DecideAtZero(book: Book, cooldown: nat, lifetime: nat, lots: int) returns (e: EventDatasetExporter)
    requires Quotable(book) && cooldown > 1 && lifetime > 0 && lots > 0
    ensures e.decisions == [0, 1]
  {
    var index := EmptyIndex();
    e := FirstDecision(index, book, 0, cooldown, lifetime, lots);
    TouchesFit(book, 0, lifetime, None);
    Again(e, index, book);
  }

  method Again(e: EventDatasetExporter, index: PassiveTradeIndex, book: Book)
    requires e.Valid() && Loaded(index, e.trades) && e.trades == [] && e.decisions == [0] && Quotable(book)
    requires AllFit(e.placed, |e.rows|, |e.placed|, None)
    modifies e
    ensures e.decisions == [0, 1]
  {
    assert e.Coming(Some(1), book, true) == [];
    var ok := e.BeforeDepthEvent(index, 1, book, true);
    AtOne(e, index, book);
  }

  method AtOne(e: EventDatasetExporter, index: PassiveTradeIndex, book: Book)
    requires e.Valid() && Loaded(index, e.trades) && e.trades == [] && e.clock == 1 && e.decisions == [0] && Quotable(book)
    modifies e
    ensures e.decisions == [0, 1]
  {
    var ok := e.AfterDepthEvent(index, 1, book, true, true);
  }
}
