/** The book races of a sampled row over a whole stream of depth events
    (cpp/research/native_dataset_exporter.cpp:475-526): which event each stamp names, and exactly when every
    stamp lies inside the window, as the header of the class promises. */
module NativeRaces {
  import opened OrderBooks
  import opened NativeRows
  import opened NativeEvents

  /** A depth event as the rows see it: its stamp and the two-sided book it left. */
  datatype Event = Event(local: nat, book: Book)

  ghost predicate Sane(es: seq<Event>) {
    forall k {:trigger es[k]} | 0 <= k < |es| :: es[k].local > 0 && es[k].book.TwoSided()
  }

  /** The row after the first n events. */
  ghost function Watched(r: Row, es: seq<Event>, n: nat, c: Config): Row
    requires n <= |es| && Sane(es)
  {
    if n == 0 then r else WatchRow(Watched(r, es, n - 1, c), es[n - 1].local, es[n - 1].book, c)
  }

  /** The four races of a row: on either side, a price beyond the quote is best, or the quote is gone. */
  datatype Race = Race(bid: bool, beyond: bool)

  function Stamp(r: Row, race: Race): nat {
    var s := if race.bid then r.bid else r.ask;
    if race.beyond then s.bestAdverseNs else s.quoteGoneNs
  }

  predicate Beyond(bid: bool, quote: int, book: Book)
    requires book.TwoSided()
  {
    if bid then book.bids.price < quote else book.asks.price > quote
  }

  /** The book settles the race. */
  predicate Shows(r: Row, race: Race, book: Book)
    requires book.TwoSided()
  {
    var quote := if race.bid then r.bid.fill.quote else r.ask.fill.quote;
    var side := if race.bid then book.bids else book.asks;
    Beyond(race.bid, quote, book) || (!race.beyond && side.price != quote && QuantityAt(side, quote) == 0)
  }

  /** The stamp of the first of n events that settles the race, or zero. */
  ghost function FirstShown(r: Row, race: Race, es: seq<Event>, n: nat): nat
    requires n <= |es| && Sane(es)
  {
    if n == 0 then 0
    else
      var before := FirstShown(r, race, es, n - 1);
      if before != 0 then before else if Shows(r, race, es[n - 1].book) then es[n - 1].local else 0
  }

  /** How many of the first n events count: up to and including the first at or past the window's end. */
  ghost function Heard(es: seq<Event>, end: nat, n: nat): (h: nat)
    requires n <= |es|
    ensures h <= n && (n > 0 ==> h > 0)
    ensures forall k | 0 <= k < h - 1 :: es[k].local < end
    ensures h < n ==> h > 0 && es[h - 1].local >= end
  {
    if n == 0 then 0
    else
      var h := Heard(es, end, n - 1);
      if h == n - 1 && (h == 0 || es[h - 1].local < end) then n else h
  }

  /** Right after its placement a row watches all four races. */
  predicate Unsettled(r: Row) {
    r.watching && r.bid.bestAdverseNs == 0 == r.bid.quoteGoneNs && r.ask.bestAdverseNs == 0 == r.ask.quoteGoneNs
  }

  ghost predicate AllShown(r: Row, es: seq<Event>, n: nat)
    requires n <= |es| && Sane(es)
  {
    && FirstShown(r, Race(true, true), es, n) != 0 && FirstShown(r, Race(true, false), es, n) != 0
    && FirstShown(r, Race(false, true), es, n) != 0 && FirstShown(r, Race(false, false), es, n) != 0
  }

  /** What the row must hold after n events, h of them heard. */
  ghost predicate Told(w: Row, r: Row, es: seq<Event>, h: nat)
    requires h <= |es| && Sane(es)
  {
    && w.ns == r.ns && w.bid.fill == r.bid.fill && w.ask.fill == r.ask.fill
    && w.bid.bestAdverseNs == FirstShown(r, Race(true, true), es, h) && w.bid.quoteGoneNs == FirstShown(r, Race(true, false), es, h)
    && w.ask.bestAdverseNs == FirstShown(r, Race(false, true), es, h) && w.ask.quoteGoneNs == FirstShown(r, Race(false, false), es, h)
  }

  /** One more event while the row is watched. */
  lemma WatchedHears(w: Row, r: Row, es: seq<Event>, h: nat, c: Config)
    requires h < |es| && Sane(es) && Told(w, r, es, h) && w.watching
    ensures var n := WatchRow(w, es[h].local, es[h].book, c);
            && Told(n, r, es, h + 1)
            && (n.watching <==> es[h].local < r.ns + c.horizonNs && !AllShown(r, es, h + 1))
  {
    SideHears(true, w, r, es, h, c);
    SideHears(false, w, r, es, h, c);
  }

  lemma SideHears(bid: bool, w: Row, r: Row, es: seq<Event>, h: nat, c: Config)
    requires h < |es| && Sane(es) && Told(w, r, es, h)
    ensures var (s, wait) := WatchSide(bid, w.ns, if bid then w.bid else w.ask, es[h].local, es[h].book, c);
            && s.fill == (if bid then r.bid.fill else r.ask.fill)
            && s.bestAdverseNs == FirstShown(r, Race(bid, true), es, h + 1)
            && s.quoteGoneNs == FirstShown(r, Race(bid, false), es, h + 1)
            && (wait <==> es[h].local < r.ns + c.horizonNs && (s.bestAdverseNs == 0 || s.quoteGoneNs == 0))
  {
    if FirstShown(r, Race(bid, true), es, h) != 0 {
      BeyondIsGone(bid, r, es, h);
    }
  }

  /** A price beyond the quote can only be best once the quote is gone. */
  lemma {:induction false} BeyondIsGone(bid: bool, r: Row, es: seq<Event>, n: nat)
    requires n <= |es| && Sane(es) && FirstShown(r, Race(bid, true), es, n) != 0
    ensures FirstShown(r, Race(bid, false), es, n) != 0
  {
    if FirstShown(r, Race(bid, true), es, n - 1) != 0 {
      BeyondIsGone(bid, r, es, n - 1);
    }
  }

  lemma {:induction false} ShownOnce(r: Row, race: Race, es: seq<Event>, h: nat, n: nat)
    requires h <= n <= |es| && Sane(es) && FirstShown(r, race, es, h) != 0
    ensures FirstShown(r, race, es, n) == FirstShown(r, race, es, h)
    decreases n
  {
    if h < n {
      ShownOnce(r, race, es, h, n - 1);
    }
  }

  /** Over every stream of events each stamp is that of the first event that settles its race, among those up
      to and including the first at or past the window's end. */
  lemma {:induction false} StampsAreFirst(r: Row, es: seq<Event>, n: nat, c: Config)
    requires n <= |es| && Sane(es) && Unsettled(r)
    ensures var w, h := Watched(r, es, n, c), Heard(es, r.ns + c.horizonNs, n);
            && Told(w, r, es, h)
            && (w.watching <==> (h == 0 || es[h - 1].local < r.ns + c.horizonNs) && !AllShown(r, es, h))
  {
    if n > 0 {
      StampsAreFirst(r, es, n - 1, c);
      StampsStep(r, es, n - 1, c);
    }
  }

  lemma StampsStep(r: Row, es: seq<Event>, n: nat, c: Config)
    requires n < |es| && Sane(es)
    requires var w, h := Watched(r, es, n, c), Heard(es, r.ns + c.horizonNs, n);
             && Told(w, r, es, h)
             && (w.watching <==> (h == 0 || es[h - 1].local < r.ns + c.horizonNs) && !AllShown(r, es, h))
    ensures var w, h := Watched(r, es, n + 1, c), Heard(es, r.ns + c.horizonNs, n + 1);
            && Told(w, r, es, h)
            && (w.watching <==> (h == 0 || es[h - 1].local < r.ns + c.horizonNs) && !AllShown(r, es, h))
  {
    var w, h := Watched(r, es, n, c), Heard(es, r.ns + c.horizonNs, n);
    if w.watching {
      WatchedHears(w, r, es, h, c);
    } else if h == n && (h == 0 || es[h - 1].local < r.ns + c.horizonNs) {
      ShownOnce(r, Race(true, true), es, h, h + 1);
      ShownOnce(r, Race(true, false), es, h, h + 1);
      ShownOnce(r, Race(false, true), es, h, h + 1);
      ShownOnce(r, Race(false, false), es, h, h + 1);
    }
  }

  lemma {:induction false} ShownInside(r: Row, race: Race, es: seq<Event>, end: nat, n: nat)
    requires n <= |es| && Sane(es) && forall k | 0 <= k < n :: es[k].local < end
    ensures FirstShown(r, race, es, n) <= end
  {
    if n > 0 {
      ShownInside(r, race, es, end, n - 1);
    }
  }

  /** The last event heard puts no stamp past the end: it is not itself past it, or nothing still open is
      settled by its book. */
  ghost predicate EndsInside(r: Row, race: Race, es: seq<Event>, end: nat, n: nat)
    requires n <= |es| && Sane(es)
  {
    var h := Heard(es, end, n);
    h == 0 || es[h - 1].local <= end || FirstShown(r, race, es, h - 1) != 0 || !Shows(r, race, es[h - 1].book)
  }

  lemma LastHeardDecides(r: Row, race: Race, es: seq<Event>, end: nat, n: nat)
    requires n <= |es| && Sane(es)
    ensures FirstShown(r, race, es, Heard(es, end, n)) <= end <==> EndsInside(r, race, es, end, n)
  {
    var h := Heard(es, end, n);
    if h > 0 {
      ShownInside(r, race, es, end, h - 1);
    }
  }

  lemma StampIsFirst(r: Row, race: Race, es: seq<Event>, n: nat, c: Config)
    requires n <= |es| && Sane(es) && Unsettled(r)
    ensures Stamp(Watched(r, es, n, c), race) == FirstShown(r, race, es, Heard(es, r.ns + c.horizonNs, n))
  {
    StampsAreFirst(r, es, n, c);
  }

  /** Exactly when the header's promise holds: a race's stamp lies inside the window if and only if the first
      event at or past the window's end does, or it does not settle the race, or an earlier one already had. */
  lemma RaceStampsInside(r: Row, race: Race, es: seq<Event>, n: nat, c: Config)
    requires n <= |es| && Sane(es) && Unsettled(r)
    ensures Stamp(Watched(r, es, n, c), race) <= r.ns + c.horizonNs <==> EndsInside(r, race, es, r.ns + c.horizonNs, n)
  {
    StampIsFirst(r, race, es, n, c);
    LastHeardDecides(r, race, es, r.ns + c.horizonNs, n);
  }
}
