/** What a print and a depth event do to pending rows (cpp/research/native_dataset_exporter.cpp:475-526,
    911-978), and that both keep the caches sound and the labels true. */
module NativeEvents {
  import opened OrderBooks
  import opened FillAgreement
  import opened NativeRows
  import opened NativeResolver
  import opened NativeTruth
  import QueueGrid

  function PrintSide(bid: bool, ns: nat, s: SideState, local: nat, t: QueueGrid.Print, midX2: int, c: Config): SideState {
    var fill := NativePrint(s.fill, bid, ns, c.horizonNs, c.lots, local, t);
    if fill.fullFilled && !s.fill.fullFilled
    then s.(fill := fill, fillMidX2 := midX2, race := if s.race == Undecided then FillFirst else s.race)
    else s.(fill := fill)
  }

  /** One print over one row: only the side its aggressor can hit reacts, and a fill refreshes the
      cached deadline. */
  function PrintRow(r: Row, local: nat, t: QueueGrid.Print, midX2: int, c: Config): Row
    requires Shaped(r, c)
  {
    var hit := if t.aggressiveBuy then r.(ask := PrintSide(false, r.ns, r.ask, local, t, midX2, c))
               else r.(bid := PrintSide(true, r.ns, r.bid, local, t, midX2, c));
    if hit.bid.fill.fullFilled == r.bid.fill.fullFilled && hit.ask.fill.fullFilled == r.ask.fill.fullFilled then hit
    else hit.(nextDeadline := Fresh(hit, c))
  }

  /** The two book races of a side; the flag says whether either is still outstanding. */
  function WatchSide(bid: bool, ns: nat, s: SideState, local: nat, book: Book, c: Config): (SideState, bool)
    requires book.TwoSided()
  {
    var censor := ns + c.horizonNs <= local;
    var best := if bid then book.bids.price else book.asks.price;
    var adverse := if bid then best < s.fill.quote else best > s.fill.quote;
    var a := if s.bestAdverseNs != 0 || !adverse then s
             else s.(bestAdverseNs := local, quoteGoneNs := if s.quoteGoneNs == 0 then local else s.quoteGoneNs);
    var waitAdverse := s.bestAdverseNs == 0 && !adverse && !censor;
    if a.quoteGoneNs != 0 then (a, waitAdverse)
    else
      var gone := best != s.fill.quote && QuantityAt(if bid then book.bids else book.asks, s.fill.quote) == 0;
      (if gone then a.(quoteGoneNs := local) else a, waitAdverse || (!gone && !censor))
  }

  function WatchRow(r: Row, local: nat, book: Book, c: Config): Row
    requires book.TwoSided()
  {
    if !r.watching then r
    else
      var (bid, waitBid) := WatchSide(true, r.ns, r.bid, local, book, c);
      var (ask, waitAsk) := WatchSide(false, r.ns, r.ask, local, book, c);
      r.(bid := bid, ask := ask, watching := waitBid || waitAsk)
  }

  lemma {:induction false} AdverseIsPast(h: seq<Sample>, ns: nat, cap: nat, bid: bool, midX2: int, threshold: int, n: nat)
    requires n <= |h| && Rising(h)
    ensures var a := FirstAdverse(h, ns, cap, bid, midX2, threshold, n); a.Some? ==> a.value <= LastNs(h)
  {
    if n > 0 {
      AdverseIsPast(h, ns, cap, bid, midX2, threshold, n - 1);
    }
  }

  lemma PrintKeepsSide(bid: bool, ns: nat, midX2: int, s: SideState, h: seq<Sample>, local: nat, t: QueueGrid.Print, mid: int, c: Config)
    requires c.Ok() && Rising(h) && LastNs(h) < local && SideTrue(bid, ns, midX2, s, h, local, local - 1, c)
    ensures SideTrue(bid, ns, midX2, PrintSide(bid, ns, s, local, t, mid, c), h, local, local - 1, c)
  {
    AdverseIsPast(h, ns, ns + c.horizonNs, bid, midX2, c.threshold, |h|);
  }

  /** A print changes no label that is already due, and decides the fill race truthfully. */
  lemma PrintKeepsTruth(r: Row, h: seq<Sample>, local: nat, t: QueueGrid.Print, mid: int, c: Config)
    requires c.Ok() && Rising(h) && LastNs(h) < local && RowTrue(r, h, local, local - 1, c)
    ensures RowTrue(PrintRow(r, local, t, mid, c), h, local, local - 1, c)
  {
    PrintKeepsSide(true, r.ns, r.midX2, r.bid, h, local, t, mid, c);
    PrintKeepsSide(false, r.ns, r.midX2, r.ask, h, local, t, mid, c);
  }

  lemma PrintKeepsDeadline(bid: bool, ns: nat, s: SideState, watching: bool, local: nat, t: QueueGrid.Print, mid: int, c: Config)
    requires SideShaped(s, c)
    ensures var p := PrintSide(bid, ns, s, local, t, mid, c);
            SideShaped(p, c) && (p.fill.fullFilled == s.fill.fullFilled ==> SideDeadline(ns, p, watching, c) == SideDeadline(ns, s, watching, c))
  {
    var p := PrintSide(bid, ns, s, local, t, mid, c);
    if p.fill.fullFilled == s.fill.fullFilled {
      assert p.fill.fullFilled ==> p == s;
      assert FillHorizons(ns, p, c) == FillHorizons(ns, s, c);
      assert PostFillHorizons(ns, p, c) == PostFillHorizons(ns, s, c);
    }
  }

  lemma FreshIgnoresCache(r: Row, d: Deadline, c: Config)
    requires Shaped(r, c)
    ensures Fresh(r.(nextDeadline := d), c) == Fresh(r, c)
  {
    assert MarkoutHorizons(r.(nextDeadline := d), c) == MarkoutHorizons(r, c);
  }

  lemma PrintKeepsCache(r: Row, local: nat, t: QueueGrid.Print, mid: int, lastDue: nat, c: Config)
    requires CacheOk(r, lastDue, c)
    ensures CacheOk(PrintRow(r, local, t, mid, c), lastDue, c)
  {
    PrintKeepsDeadline(true, r.ns, r.bid, r.watching, local, t, mid, c);
    PrintKeepsDeadline(false, r.ns, r.ask, r.watching, local, t, mid, c);
    var hit := if t.aggressiveBuy then r.(ask := PrintSide(false, r.ns, r.ask, local, t, mid, c))
               else r.(bid := PrintSide(true, r.ns, r.bid, local, t, mid, c));
    assert MarkoutHorizons(hit, c) == MarkoutHorizons(r, c);
    FreshIgnoresCache(hit, Fresh(hit, c), c);
  }

  lemma WatchKeepsSide(bid: bool, ns: nat, s: SideState, watching: bool, local: nat, book: Book, c: Config)
    requires SideShaped(s, c) && book.TwoSided()
    ensures var (w, wait) := WatchSide(bid, ns, s, local, book, c);
            SideShaped(w, c) && FillHorizons(ns, w, c) == FillHorizons(ns, s, c) && PostFillHorizons(ns, w, c) == PostFillHorizons(ns, s, c)
            && w.filledAtHorizon == s.filledAtHorizon && w.race == s.race
  {
    var (w, wait) := WatchSide(bid, ns, s, local, book, c);
    assert FillHorizons(ns, w, c) == FillHorizons(ns, s, c);
    assert PostFillHorizons(ns, w, c) == PostFillHorizons(ns, s, c);
  }

  /** Settling the races can only postpone the soonest horizon, and only past the fill horizon. */
  lemma WatchKeepsCache(r: Row, local: nat, book: Book, lastDue: nat, c: Config)
    requires CacheOk(r, lastDue, c) && book.TwoSided()
    ensures CacheOk(WatchRow(r, local, book, c), lastDue, c)
  {
    WatchKeepsSide(true, r.ns, r.bid, r.watching, local, book, c);
    WatchKeepsSide(false, r.ns, r.ask, r.watching, local, book, c);
    var w := WatchRow(r, local, book, c);
    assert MarkoutHorizons(w, c) == MarkoutHorizons(r, c);
    if r.watching {
      SoonerLater(Soonest(MarkoutHorizons(r, c), 0), SideDeadline(r.ns, r.bid, true, c), SideDeadline(r.ns, r.ask, true, c),
                  SideDeadline(r.ns, w.bid, w.watching, c), SideDeadline(r.ns, w.ask, w.watching, c), At(r.ns + c.horizonNs));
    }
  }

  lemma RacesAreNoLabels(bid: bool, ns: nat, midX2: int, s: SideState, w: SideState, h: seq<Sample>, now: nat, due: nat, c: Config)
    requires SideTrue(bid, ns, midX2, s, h, now, due, c)
    requires w == s.(bestAdverseNs := w.bestAdverseNs, quoteGoneNs := w.quoteGoneNs)
    ensures SideTrue(bid, ns, midX2, w, h, now, due, c)
  {
  }

  lemma WatchKeepsTruth(r: Row, h: seq<Sample>, now: nat, due: nat, local: nat, book: Book, c: Config)
    requires RowTrue(r, h, now, due, c) && book.TwoSided()
    ensures RowTrue(WatchRow(r, local, book, c), h, now, due, c)
  {
    var w := WatchRow(r, local, book, c);
    RacesAreNoLabels(true, r.ns, r.midX2, r.bid, w.bid, h, now, due, c);
    RacesAreNoLabels(false, r.ns, r.midX2, r.ask, w.ask, h, now, due, c);
  }

  /** While a side is watched, its quote cannot be seen beyond without having been seen gone; and a
      race still open keeps the row watched until the fill horizon has passed. */
  lemma WatchSettles(r: Row, local: nat, book: Book, c: Config)
    requires book.TwoSided() && local > 0 && r.watching
    requires r.bid.bestAdverseNs != 0 ==> r.bid.quoteGoneNs != 0
    requires r.ask.bestAdverseNs != 0 ==> r.ask.quoteGoneNs != 0
    ensures var w := WatchRow(r, local, book, c);
            && (w.bid.bestAdverseNs != 0 ==> w.bid.quoteGoneNs != 0)
            && (w.ask.bestAdverseNs != 0 ==> w.ask.quoteGoneNs != 0)
            && (w.watching ==> local < r.ns + c.horizonNs)
            && (!w.watching && local < r.ns + c.horizonNs ==> w.bid.bestAdverseNs != 0 && w.bid.quoteGoneNs != 0
                                                               && w.ask.bestAdverseNs != 0 && w.ask.quoteGoneNs != 0)
  {
  }

  /** The header promises zero for a race not observed inside the window. The code still records the
      first depth event after it: here the window ends at 30 and the quote is seen gone at 99. */
  lemma RaceStampCanPassTheWindow()
    ensures exists r: Row, c: Config, book: Book ::
              c.Ok() && book.TwoSided() && r.watching && r.bid.quoteGoneNs == 0
              && WatchRow(r, 99, book, c).bid.quoteGoneNs > r.ns + c.horizonNs
  {
    var c := Config(10, [], [], [], 30, 5, 2);
    var book := Book(true, Level(90, 1, Empty), Level(101, 1, Empty), 0);
    var r := NewRow(0, 201, 100, 7, 101, 7, c);
    assert WatchRow(r, 99, book, c).bid.quoteGoneNs == 99;
  }
}
