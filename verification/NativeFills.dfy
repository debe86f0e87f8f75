/** Where a sampled row rests and what fills it, told from the records alone
    (cpp/research/native_dataset_exporter.cpp:457-472, 911-978): each of its two orders rests at the touch of the
    book it was sampled on, behind all that was shown there, and goes to the first print that either passes its
    quote or completes it there. */
module NativeFills {
  import opened Wrappers
  import opened OrderBooks
  import opened NativeRows
  import opened NativeEvents
  import opened NativePassives
  import opened NativeLives
  import opened Replays

  /** The orders of a row rest at the best prices of a book, behind what it shows there. */
  ghost predicate Rests(r: Row, book: Book) {
    && book.bids.Level? && book.asks.Level? && r.midX2 == book.bids.price + book.asks.price
    && r.bid.fill.quote == book.bids.price && r.bid.fill.queue == book.bids.qty
    && r.ask.fill.quote == book.asks.price && r.ask.fill.queue == book.asks.qty
  }

  /** Record j is a print that can reach one side of a row: the opposite aggressor, strictly inside its window. */
  predicate Reaches(rs: seq<Record>, j: nat, bid: bool, ns: nat, c: Config)
    requires j < |rs|
  {
    rs[j].event.Trade? && rs[j].event.trade.aggressiveBuy == !bid && ns < rs[j].local < ns + c.horizonNs
  }

  /** The lots printed exactly at a quote by records from..n. */
  ghost function PrintedAt(rs: seq<Record>, from: nat, n: nat, bid: bool, quote: int, ns: nat, c: Config): int
    requires n <= |rs|
  {
    if n <= from then 0
    else PrintedAt(rs, from, n - 1, bid, quote, ns, c)
         + if Reaches(rs, n - 1, bid, ns, c) && rs[n - 1].event.trade.price == quote then rs[n - 1].event.trade.qty else 0
  }

  /** Record j fills an order at that quote behind that queue, if none before has: it prints beyond the quote,
      or there, once the queue and the whole order have printed. */
  ghost predicate Completes(rs: seq<Record>, from: nat, j: nat, bid: bool, quote: int, queue: int, ns: nat, c: Config)
    requires j < |rs|
  {
    && Reaches(rs, j, bid, ns, c)
    && var price := rs[j].event.trade.price;
       || (if bid then price < quote else price > quote)
       || (price == quote && PrintedAt(rs, from, j + 1, bid, quote, ns, c) >= queue + c.lots)
  }

  /** The first of records from..n that does. */
  ghost function FillerOf(rs: seq<Record>, from: nat, n: nat, bid: bool, quote: int, queue: int, ns: nat, c: Config): (f: Option<nat>)
    requires n <= |rs|
    ensures f.Some? ==> from <= f.value < n && Completes(rs, from, f.value, bid, quote, queue, ns, c)
    ensures forall j | from <= j < (if f.Some? then f.value else n) :: !Completes(rs, from, j, bid, quote, queue, ns, c)
  {
    if n <= from then None
    else
      var before := FillerOf(rs, from, n - 1, bid, quote, queue, ns, c);
      if before.Some? then before else if Completes(rs, from, n - 1, bid, quote, queue, ns, c) then Some(n - 1) else None
  }

  /** One side of a row once records from..n are told: filled by that record, at its stamp and on the mid it
      showed; or still waiting behind what has printed. */
  ghost predicate SideFilled(bid: bool, ns: nat, s: SideState, rs: seq<Record>, from: nat, n: nat, c: Config)
    requires n <= |rs|
  {
    var f := FillerOf(rs, from, n, bid, s.fill.quote, s.fill.queue, ns, c);
    && s.fill.fullFilled == f.Some?
    && if f.Some? then
         var x := rs[f.value];
         && s.fill.fullNs == x.local && s.fill.byThrough == (x.event.trade.price != s.fill.quote) && s.fill.consumed >= s.fill.queue + c.lots
         && s.fillMidX2 == if x.book.valid && x.book.bids.Level? && x.book.asks.Level? then x.book.bids.price + x.book.asks.price else 0
       else
         && s.fill.fullNs == 0 && !s.fill.byThrough && s.fillMidX2 == 0
         && s.fill.consumed == PrintedAt(rs, from, n, bid, s.fill.quote, ns, c)
  }

  ghost predicate Filled(r: Row, rs: seq<Record>, from: nat, n: nat, c: Config)
    requires n <= |rs|
  {
    SideFilled(true, r.ns, r.bid, rs, from, n, c) && SideFilled(false, r.ns, r.ask, rs, from, n, c)
  }

  lemma BornRests(ns: nat, book: Book, c: Config)
    requires book.TwoSided()
    ensures Rests(Born(ns, book, c), book) && Born(ns, book, c).ns == ns
  {
  }

  lemma BornWaits(ns: nat, book: Book, rs: seq<Record>, from: nat, c: Config)
    requires book.TwoSided() && from <= |rs|
    ensures Filled(Born(ns, book, c), rs, from, from, c)
  {
  }

  lemma TouchKeepsRest(p: Row, r: Record, before: Book, book: Book, c: Config)
    requires Rests(p, book)
    ensures Rests(Touched(p, r, before, c), book)
  {
  }

  lemma PrintFills(bid: bool, ns: nat, s: SideState, rs: seq<Record>, from: nat, n: nat, c: Config)
    requires from <= n < |rs| && SideFilled(bid, ns, s, rs, from, n, c)
    requires rs[n].event.Trade? && rs[n].event.trade.aggressiveBuy == !bid
    ensures var t := PrintSide(bid, ns, s, rs[n].local, rs[n].event.trade, ShownMid(rs[n].book), c);
            SideFilled(bid, ns, BareSide(t), rs, from, n + 1, c)
  {
  }

  lemma OthersKeep(bid: bool, ns: nat, s: SideState, t: SideState, rs: seq<Record>, from: nat, n: nat, c: Config)
    requires from <= n < |rs| && SideFilled(bid, ns, s, rs, from, n, c) && t.fill == s.fill && t.fillMidX2 == s.fillMidX2
    requires !(rs[n].event.Trade? && rs[n].event.trade.aggressiveBuy == !bid)
    ensures SideFilled(bid, ns, t, rs, from, n + 1, c)
  {
  }

  lemma TouchFills(p: Row, rs: seq<Record>, from: nat, n: nat, c: Config)
    requires from <= n < |rs| && Filled(p, rs, from, n, c)
    ensures Filled(Touched(p, rs[n], BookBefore(rs, n), c), rs, from, n + 1, c)
  {
    var t := Touched(p, rs[n], BookBefore(rs, n), c);
    if rs[n].event.Trade? {
      var buys := rs[n].event.trade.aggressiveBuy;
      PrintFills(!buys, p.ns, if buys then p.ask else p.bid, rs, from, n, c);
      OthersKeep(buys, p.ns, if buys then p.bid else p.ask, if buys then t.bid else t.ask, rs, from, n, c);
    } else {
      OthersKeep(true, p.ns, p.bid, t.bid, rs, from, n, c);
      OthersKeep(false, p.ns, p.ask, t.ask, rs, from, n, c);
    }
  }

  /** So it is for a row, record by record. */
  lemma {:induction false} LivedFills(p: Row, rs: seq<Record>, from: nat, n: nat, book: Book, c: Config)
    requires from <= n <= |rs| && Rests(p, book) && Filled(p, rs, from, from, c)
    ensures var l := Lived(p, rs, from, n, c); l.ns == p.ns && Rests(l, book) && Filled(l, rs, from, n, c)
    decreases n
  {
    if n > from {
      LivedFills(p, rs, from, n - 1, book, c);
      var l := Lived(p, rs, from, n - 1, c);
      TouchKeepsRest(l, rs[n - 1], BookBefore(rs, n - 1), book, c);
      TouchFills(l, rs, from, n - 1, c);
      TouchedKeepsNs(l, rs[n - 1], BookBefore(rs, n - 1), c);
    }
  }

  /** Where a row rests, and what filled it, is there to be read on it. */
  lemma RowTells(r: Row, rs: seq<Record>, from: nat, n: nat, c: Config)
    requires n <= |rs| && LivedFrom(Bare(r), rs, from, n, c)
    ensures Rests(r, rs[from - 1].book) && Filled(r, rs, from, n, c)
  {
    BornRests(r.ns, rs[from - 1].book, c);
    BornWaits(r.ns, rs[from - 1].book, rs, from, c);
    LivedFills(Born(r.ns, rs[from - 1].book, c), rs, from, n, rs[from - 1].book, c);
  }
}
