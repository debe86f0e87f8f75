/** The integer order book (cpp/book/order_book.cpp). Each side is an ordered map, modelled as the
    chain its iteration walks: best price first. */
module OrderBooks {

  datatype Side = Empty | Level(price: int, qty: int, rest: Side)

  datatype Quote = Quote(price: int, qty: int)

  /** Bids rank by descending price, asks by ascending price. */
  predicate Ahead(bid: bool, a: int, b: int) {
    if bid then a > b else a < b
  }

  /** Strictly ranked, with non-negative prices and positive quantities. */
  ghost predicate Ranked(bid: bool, s: Side) {
    s.Level? ==> && s.price >= 0 && s.qty > 0
                 && (s.rest.Level? ==> Ahead(bid, s.price, s.rest.price))
                 && Ranked(bid, s.rest)
  }

  /** Displayed quantity at a price, zero when the level is absent. */
  function QuantityAt(s: Side, price: int): int {
    if s.Empty? then 0 else if s.price == price then s.qty else QuantityAt(s.rest, price)
  }

  /** Map assignment, or erasure for a zero quantity. */
  function Upsert(bid: bool, s: Side, price: int, qty: int): Side {
    if s.Empty? then (if qty == 0 then Empty else Level(price, qty, Empty))
    else if s.price == price then (if qty == 0 then s.rest else Level(price, qty, s.rest))
    else if Ahead(bid, price, s.price) then (if qty == 0 then s else Level(price, qty, s))
    else Level(s.price, s.qty, Upsert(bid, s.rest, price, qty))
  }

  lemma {:induction false} AbsentAhead(bid: bool, s: Side, price: int)
    requires Ranked(bid, s) && (s.Level? ==> Ahead(bid, price, s.price))
    ensures QuantityAt(s, price) == 0
  {
    if s.Level? {
      AbsentAhead(bid, s.rest, price);
    }
  }

  /** One update sets the quantity at its price, leaves every other price alone and keeps the side
      ranked. */
  lemma {:induction false} UpsertIsAssignment(bid: bool, s: Side, price: int, qty: int, p: int)
    requires Ranked(bid, s) && price >= 0 && qty >= 0
    ensures var r := Upsert(bid, s, price, qty);
            && Ranked(bid, r)
            && QuantityAt(r, p) == (if p == price then qty else QuantityAt(s, p))
            && (r.Level? ==> r.price == price || (s.Level? && (r.price == s.price || (s.price == price && s.rest.Level? && r.price == s.rest.price))))
  {
    if s.Level? {
      if s.price == price {
        AbsentAhead(bid, s.rest, price);
      } else if Ahead(bid, price, s.price) {
        AbsentAhead(bid, s, price);
      } else {
        UpsertIsAssignment(bid, s.rest, price, qty, p);
      }
    }
  }

  /** The updates of one message in order; a negative price or quantity rejects the message there. */
  function ApplyLevels(bid: bool, s: Side, levels: seq<Quote>, i: nat): (Side, bool)
    requires i <= |levels|
    decreases |levels| - i
  {
    if i == |levels| then (s, true)
    else if levels[i].price < 0 || levels[i].qty < 0 then (s, false)
    else ApplyLevels(bid, Upsert(bid, s, levels[i].price, levels[i].qty), levels, i + 1)
  }

  /** The quantity a message leaves at p: the last one it quotes there, else the one before it. */
  ghost function LastQuoted(levels: seq<Quote>, i: nat, p: int, was: int): int
    requires i <= |levels|
    decreases |levels| - i
  {
    if i == |levels| then was
    else LastQuoted(levels, i + 1, p, if levels[i].price == p then levels[i].qty else was)
  }

  lemma {:induction false} ApplyLevelsIsLastQuoted(bid: bool, s: Side, levels: seq<Quote>, i: nat, p: int)
    requires Ranked(bid, s) && i <= |levels|
    ensures var (r, ok) := ApplyLevels(bid, s, levels, i);
            && Ranked(bid, r)
            && (ok <==> forall k | i <= k < |levels| :: levels[k].price >= 0 && levels[k].qty >= 0)
            && (ok ==> QuantityAt(r, p) == LastQuoted(levels, i, p, QuantityAt(s, p)))
    decreases |levels| - i
  {
    if i < |levels| && levels[i].price >= 0 && levels[i].qty >= 0 {
      UpsertIsAssignment(bid, s, levels[i].price, levels[i].qty, p);
      ApplyLevelsIsLastQuoted(bid, Upsert(bid, s, levels[i].price, levels[i].qty), levels, i + 1, p);
    }
  }

  /** What a message leaves at a price. */
  ghost function After(levels: seq<Quote>, was: Side, p: int): int {
    LastQuoted(levels, 0, p, QuantityAt(was, p))
  }

  ghost predicate NonNegative(levels: seq<Quote>) {
    forall k | 0 <= k < |levels| :: levels[k].price >= 0 && levels[k].qty >= 0
  }

  /** Two messages leave a usable book: something on both sides, and every bid below every ask. */
  ghost predicate Usable(bids: seq<Quote>, wasBids: Side, asks: seq<Quote>, wasAsks: Side) {
    && NonNegative(bids) && NonNegative(asks)
    && (exists p :: After(bids, wasBids, p) > 0) && (exists q :: After(asks, wasAsks, q) > 0)
    && forall p, q :: After(bids, wasBids, p) > 0 && After(asks, wasAsks, q) > 0 ==> p < q
  }

  /** The best level is ahead of every other one displayed. */
  lemma {:induction false} BestIsFirst(bid: bool, s: Side, p: int)
    requires Ranked(bid, s) && QuantityAt(s, p) > 0
    ensures s.Level? && QuantityAt(s, s.price) > 0 && (p == s.price || Ahead(bid, s.price, p))
  {
    if p != s.price {
      BestIsFirst(bid, s.rest, p);
    }
  }

  /** Whether the sides after two messages are two-sided and uncrossed, said of the messages. */
  lemma UsableIff(bids: seq<Quote>, wasBids: Side, asks: seq<Quote>, wasAsks: Side, b: Side, a: Side)
    requires NonNegative(bids) && NonNegative(asks) && Ranked(true, b) && Ranked(false, a)
    requires forall p :: QuantityAt(b, p) == After(bids, wasBids, p)
    requires forall p :: QuantityAt(a, p) == After(asks, wasAsks, p)
    ensures b.Level? && a.Level? && b.price < a.price <==> Usable(bids, wasBids, asks, wasAsks)
  {
    if b.Level? && a.Level? && b.price < a.price {
      assert After(bids, wasBids, b.price) > 0 && After(asks, wasAsks, a.price) > 0;
      forall p, q | After(bids, wasBids, p) > 0 && After(asks, wasAsks, q) > 0 ensures p < q {
        BestIsFirst(true, b, p);
        BestIsFirst(false, a, q);
      }
    }
    if Usable(bids, wasBids, asks, wasAsks) {
      var p :| After(bids, wasBids, p) > 0;
      var q :| After(asks, wasAsks, q) > 0;
      BestIsFirst(true, b, p);
      BestIsFirst(false, a, q);
      assert After(bids, wasBids, b.price) > 0 && After(asks, wasAsks, a.price) > 0;
    }
  }

  /** Both sides after two messages. */
  lemma SidesAfter(bids: seq<Quote>, wasBids: Side, asks: seq<Quote>, wasAsks: Side)
    requires Ranked(true, wasBids) && Ranked(false, wasAsks)
    ensures var (b, bidsOk) := ApplyLevels(true, wasBids, bids, 0);
            var (a, asksOk) := ApplyLevels(false, wasAsks, asks, 0);
            && Ranked(true, b) && Ranked(false, a) && (bidsOk <==> NonNegative(bids)) && (asksOk <==> NonNegative(asks))
            && (bidsOk ==> forall p :: QuantityAt(b, p) == After(bids, wasBids, p))
            && (asksOk ==> forall p :: QuantityAt(a, p) == After(asks, wasAsks, p))
            && (bidsOk && asksOk && b.Level? && a.Level? && b.price < a.price <==> Usable(bids, wasBids, asks, wasAsks))
  {
    var (b, bidsOk) := ApplyLevels(true, wasBids, bids, 0);
    var (a, asksOk) := ApplyLevels(false, wasAsks, asks, 0);
    ApplyLevelsIsLastQuoted(true, wasBids, bids, 0, 0);
    ApplyLevelsIsLastQuoted(false, wasAsks, asks, 0, 0);
    forall p ensures (bidsOk ==> QuantityAt(b, p) == After(bids, wasBids, p)) && (asksOk ==> QuantityAt(a, p) == After(asks, wasAsks, p)) {
      ApplyLevelsIsLastQuoted(true, wasBids, bids, 0, p);
      ApplyLevelsIsLastQuoted(false, wasAsks, asks, 0, p);
    }
    if bidsOk && asksOk {
      UsableIff(bids, wasBids, asks, wasAsks, b, a);
    }
  }

  /** A read-only view of a book, as the observers receive it. */
  datatype Book = Book(valid: bool, bids: Side, asks: Side, lastUpdateId: nat) {
    predicate TwoSided() { bids.Level? && asks.Level? }
    predicate Uncrossed() { TwoSided() && bids.price < asks.price }
    function MidX2(): int requires TwoSided() { bids.price + asks.price }

    /** What a usable book guarantees its readers. */
    ghost predicate Sound() {
      Ranked(true, bids) && Ranked(false, asks) && (valid ==> Uncrossed())
    }
  }

  class OrderBook {
    var bids: Side
    var asks: Side
    var lastUpdateId: nat
    var valid: bool

    function View(): Book
      reads this
    {
      Book(valid, bids, asks, lastUpdateId)
    }

    constructor ()
      ensures View() == Book(false, Empty, Empty, 0)
    {
      bids, asks, lastUpdateId, valid := Empty, Empty, 0, false;
    }

    method Clear()
      modifies this
      ensures View() == Book(false, Empty, Empty, 0)
    {
      bids, asks, lastUpdateId, valid := Empty, Empty, 0, false;
    }

    /** What an unusable book still shows stays, but no one is to read it. */
    method Invalidate()
      modifies `valid
      ensures View() == old(View()).(valid := false)
    {
      valid := false;
    }

    /** Loading a snapshot succeeds exactly when it is usable, and then yields exactly its levels. */
    method LoadSnapshot(snapshotBids: seq<Quote>, snapshotAsks: seq<Quote>, updateId: nat) returns (ok: bool)
      modifies this
      ensures View().Sound() && ok == valid && (ok <==> Usable(snapshotBids, Empty, snapshotAsks, Empty))
      ensures valid ==> lastUpdateId == updateId
                        && (forall p :: QuantityAt(bids, p) == LastQuoted(snapshotBids, 0, p, 0))
                        && (forall p :: QuantityAt(asks, p) == LastQuoted(snapshotAsks, 0, p, 0))
    {
      Clear();
      SidesAfter(snapshotBids, Empty, snapshotAsks, Empty);
      var (b, bidsOk) := ApplyLevels(true, Empty, snapshotBids, 0);
      if !bidsOk {
        return false;
      }
      var (a, asksOk) := ApplyLevels(false, Empty, snapshotAsks, 0);
      if !asksOk {
        return false;
      }
      assert forall p :: After(snapshotBids, Empty, p) == LastQuoted(snapshotBids, 0, p, 0);
      assert forall p :: After(snapshotAsks, Empty, p) == LastQuoted(snapshotAsks, 0, p, 0);
      bids, asks, lastUpdateId := b, a, updateId;
      valid := View().Uncrossed();
      ok := valid;
    }

    /** An event is applied exactly when the book was usable and stays so; it overwrites exactly the prices it
        quotes, and any rejection leaves the book unusable. */
    method ApplyDepthEvent(eventBids: seq<Quote>, eventAsks: seq<Quote>, updateId: nat) returns (ok: bool)
      requires View().Sound()
      modifies this
      ensures View().Sound() && ok == valid && (ok <==> old(valid) && Usable(eventBids, old(bids), eventAsks, old(asks)))
      ensures !old(valid) ==> View() == old(View())
      ensures ok ==> lastUpdateId == updateId
                     && (forall p :: QuantityAt(bids, p) == LastQuoted(eventBids, 0, p, old(QuantityAt(bids, p))))
                     && (forall p :: QuantityAt(asks, p) == LastQuoted(eventAsks, 0, p, old(QuantityAt(asks, p))))
    {
      if !valid {
        return false;
      }
      SidesAfter(eventBids, bids, eventAsks, asks);
      var (b, bidsOk) := ApplyLevels(true, bids, eventBids, 0);
      bids := b;
      if !bidsOk {
        valid := false;
        return false;
      }
      var (a, asksOk) := ApplyLevels(false, asks, eventAsks, 0);
      asks := a;
      if !asksOk {
        valid := false;
        return false;
      }
      assert forall p :: After(eventBids, old(bids), p) == LastQuoted(eventBids, 0, p, old(QuantityAt(bids, p)));
      assert forall p :: After(eventAsks, old(asks), p) == LastQuoted(eventAsks, 0, p, old(QuantityAt(asks, p)));
      lastUpdateId := updateId;
      if !View().Uncrossed() {
        valid := false;
        return false;
      }
      ok := true;
    }
  }
}
