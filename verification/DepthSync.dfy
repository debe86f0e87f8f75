/** DepthSynchronizer (cpp/exchange/binance/depth_sync.cpp): the state machine that builds a book from
    snapshots and depth events that arrive on their own, and says when it is live. */
module DepthSync {
  import opened OrderBooks

  datatype DepthEvent = DepthEvent(first: nat, final: nat, previous: nat, bids: seq<Quote>, asks: seq<Quote>)

  datatype DepthSnapshot = DepthSnapshot(updateId: nat, bids: seq<Quote>, asks: seq<Quote>)

  datatype SyncState = Disconnected | Buffering | SnapshotPending | Syncing | Live | GapDetected | Invalid | Resyncing

  datatype SyncResult = Buffered | Applied | Stale | Gap | NeedSnapshot | InvalidBook | IgnoredDisconnected

  /** Events that continue a snapshot: the first brackets its id, each other one names the one before it and
      goes beyond it. */
  ghost predicate Continues(base: nat, chain: seq<DepthEvent>) {
    (chain != [] ==> chain[0].first <= base <= chain[0].final)
    && forall k | 0 < k < |chain| :: chain[k].previous == chain[k - 1].final < chain[k].final
  }

  /** The quantity a snapshot and the events since leave at a price: the last one quoted there. */
  ghost function BidAt(base: DepthSnapshot, chain: seq<DepthEvent>, n: nat, p: int): int
    requires n <= |chain|
  {
    if n == 0 then LastQuoted(base.bids, 0, p, 0) else LastQuoted(chain[n - 1].bids, 0, p, BidAt(base, chain, n - 1, p))
  }

  ghost function AskAt(base: DepthSnapshot, chain: seq<DepthEvent>, n: nat, p: int): int
    requires n <= |chain|
  {
    if n == 0 then LastQuoted(base.asks, 0, p, 0) else LastQuoted(chain[n - 1].asks, 0, p, AskAt(base, chain, n - 1, p))
  }

  /** A book that shows, at every price, the last quantity quoted there. */
  ghost predicate Shows(book: Book, base: DepthSnapshot, chain: seq<DepthEvent>) {
    && book.valid && book.Sound() && Continues(base.updateId, chain)
    && book.lastUpdateId == (if chain == [] then base.updateId else chain[|chain| - 1].final)
    && (forall p :: QuantityAt(book.bids, p) == BidAt(base, chain, |chain|, p))
    && forall p :: QuantityAt(book.asks, p) == AskAt(base, chain, |chain|, p)
  }

  lemma {:induction false} PrefixQuotes(base: DepthSnapshot, chain: seq<DepthEvent>, e: DepthEvent, n: nat, p: int)
    requires n <= |chain|
    ensures BidAt(base, chain + [e], n, p) == BidAt(base, chain, n, p) && AskAt(base, chain + [e], n, p) == AskAt(base, chain, n, p)
  {
    if n > 0 {
      PrefixQuotes(base, chain, e, n - 1, p);
    }
  }

  /** One more event that continues the chain. */
  lemma ShowsOn(was: Book, now: Book, base: DepthSnapshot, chain: seq<DepthEvent>, e: DepthEvent)
    requires Shows(was, base, chain) && now.valid && now.Sound() && now.lastUpdateId == e.final
    requires if chain == [] then e.first <= base.updateId <= e.final else e.previous == was.lastUpdateId < e.final
    requires forall p :: QuantityAt(now.bids, p) == LastQuoted(e.bids, 0, p, QuantityAt(was.bids, p))
    requires forall p :: QuantityAt(now.asks, p) == LastQuoted(e.asks, 0, p, QuantityAt(was.asks, p))
    ensures Shows(now, base, chain + [e])
  {
    forall p
      ensures QuantityAt(now.bids, p) == BidAt(base, chain + [e], |chain| + 1, p)
      ensures QuantityAt(now.asks, p) == AskAt(base, chain + [e], |chain| + 1, p)
    {
      PrefixQuotes(base, chain, e, |chain|, p);
      assert QuantityAt(was.bids, p) == BidAt(base, chain, |chain|, p) && QuantityAt(was.asks, p) == AskAt(base, chain, |chain|, p);
    }
  }

  /** The events a snapshot does not contain yet: those from the first that reaches its id. */
  ghost function Waiting(events: seq<DepthEvent>, id: nat): (w: seq<DepthEvent>)
    ensures w != [] ==> w[0].final >= id
  {
    if events == [] || events[0].final >= id then events else Waiting(events[1..], id)
  }

  /** And of those that follow, the ones that go beyond what has been applied. */
  ghost function Kept(events: seq<DepthEvent>, last: nat): seq<DepthEvent> {
    if events == [] then []
    else if events[0].final <= last then Kept(events[1..], last)
    else [events[0]] + Kept(events[1..], events[0].final)
  }

  /** Where a synchroniser stands, but for the quotes of its book: the events that wait, the id of a snapshot
      that waits for its first event, and the last event a live book contains. */
  datatype Standing = Standing(state: SyncState, waiting: seq<DepthEvent>, base: nat, last: nat)

  /** What the events that waited make of a book that contains everything up to `last`. */
  ghost function Drained(events: seq<DepthEvent>, last: nat): Standing {
    if events == [] then Standing(Live, [], 0, last)
    else if events[0].final <= last then Drained(events[1..], last)
    else if events[0].previous != last then Standing(Resyncing, [events[0]], 0, 0)
    else Drained(events[1..], events[0].final)
  }

  /** A snapshot, */
  ghost function OnBase(t: Standing, id: nat): Standing {
    var w := Waiting(t.waiting, id);
    if t.state == Disconnected then t
    else if w == [] then Standing(Syncing, [], id, 0)
    else if w[0].first > id then Standing(Resyncing, [w[0]], 0, 0)
    else Drained(w[1..], w[0].final)
  }

  /** and an event, as long as every book comes out usable and the buffer has room. */
  ghost function OnEvent(t: Standing, e: DepthEvent): Standing {
    match t.state
    case Syncing =>
      if e.final < t.base then t else if e.first > t.base then Standing(Resyncing, [e], 0, 0) else Standing(Live, t.waiting, 0, e.final)
    case Live =>
      if e.final <= t.last then t else if e.previous != t.last then Standing(GapDetected, [e], 0, 0) else t.(last := e.final)
    case Disconnected => t
    case Invalid => t
    case _ => t.(waiting := t.waiting + [e])
  }

  class DepthSynchronizer {
    const book: OrderBook
    const limit: nat
    var buffer: seq<DepthEvent>
    var state: SyncState
    var firstApplied: bool
    var snapshotId: nat
    var gaps: nat
    var stales: nat
    var applied: nat
    /** The snapshot last loaded, and the events applied to it since. */
    ghost var base: DepthSnapshot
    ghost var chain: seq<DepthEvent>

    /** Holds between any two messages. A snapshot still waiting for its first event shows itself; a live
        book shows its snapshot and at least one event since. */
    ghost predicate Valid()
      reads this, book
    {
      && book.View().Sound()
      && (state == Syncing ==> !firstApplied && Shows(book.View(), base, []) && snapshotId == base.updateId)
      && (state == Live ==> firstApplied && chain != [] && Shows(book.View(), base, chain))
    }

    ghost function View(): Standing
      reads this, book
    {
      Standing(state, buffer, if state == Syncing then snapshotId else 0, if state == Live then book.lastUpdateId else 0)
    }

    predicate IsLive()
      reads this, book
    {
      state == Live && book.valid
    }

    constructor (limit: nat)
      ensures Valid() && fresh(book) && View() == Standing(Disconnected, [], 0, 0) && book.View() == Book(false, Empty, Empty, 0)
    {
      book := new OrderBook();
      this.limit := limit;
      buffer, state, firstApplied, snapshotId := [], Disconnected, false, 0;
      gaps, stales, applied := 0, 0, 0;
      base, chain := DepthSnapshot(0, [], []), [];
    }

    method OnConnected()
      requires Valid()
      modifies this, book
      ensures Valid() && state == Buffering && !IsLive() && buffer == [] && View() == Standing(Buffering, [], 0, 0)
    {
      book.Clear();
      buffer, firstApplied, snapshotId, state := [], false, 0, Buffering;
    }

    method OnDisconnected()
      requires Valid()
      modifies this, book
      ensures Valid() && state == Disconnected && !IsLive() && buffer == []
    {
      book.Invalidate();
      buffer, firstApplied, snapshotId, state := [], false, 0, Disconnected;
    }

    /** A snapshot has been asked for. */
    method RequestSnapshot()
      requires Valid()
      modifies `state
      ensures Valid() && state == if old(state) == Disconnected then Disconnected else SnapshotPending
    {
      if state != Disconnected {
        state := SnapshotPending;
      }
    }

    method BeginResync()
      requires book.View().Sound()
      modifies `firstApplied, `snapshotId, `state, book
      ensures Valid() && state == Resyncing && !IsLive() && buffer == old(buffer) && View() == Standing(Resyncing, old(buffer), 0, 0)
    {
      book.Invalidate();
      firstApplied, snapshotId, state := false, 0, Resyncing;
    }

    /** An event that comes before its snapshot waits, while there is room. */
    method BufferEvent(e: DepthEvent) returns (r: SyncResult)
      requires Valid() && state in {Buffering, SnapshotPending, Resyncing, GapDetected}
      modifies this, book
      ensures Valid() && !IsLive()
      ensures if |old(buffer)| < limit then r == Buffered && buffer == old(buffer) + [e] && state == old(state)
              else r == InvalidBook && state == Invalid
    {
      if |buffer| >= limit {
        book.Invalidate();
        buffer, gaps, state := [], gaps + 1, Invalid;
        return InvalidBook;
      }
      buffer := buffer + [e];
      r := Buffered;
    }

    /** A missing event costs the book; the event that revealed it waits for the next snapshot. */
    method DetectGap(e: DepthEvent) returns (r: SyncResult)
      requires book.View().Sound()
      modifies `buffer, `firstApplied, `snapshotId, `gaps, `state, book
      ensures Valid() && r == Gap && state == GapDetected && !IsLive() && buffer == [e]
    {
      book.Invalidate();
      buffer, firstApplied, snapshotId, gaps, state := [e], false, 0, gaps + 1, GapDetected;
      r := Gap;
    }

    /** The event applied to the book, which goes live with it or is lost. */
    method Apply(e: DepthEvent) returns (r: SyncResult)
      requires book.View().Sound() && (state == Syncing ==> !firstApplied) && (state == Live ==> firstApplied)
      requires if state == Syncing then Shows(book.View(), base, []) && e.first <= base.updateId <= e.final
               else state == Live && chain != [] && Shows(book.View(), base, chain) && e.previous == book.lastUpdateId < e.final
      modifies `state, `firstApplied, `applied, `chain, book
      ensures Valid() && (r == Applied || r == InvalidBook) && state == (if r == Applied then Live else Invalid)
      ensures r == Applied <==> Usable(e.bids, old(book.bids), e.asks, old(book.asks))
      ensures r == Applied ==> chain == (if old(state) == Live then old(chain) else []) + [e]
    {
      ghost var was, so := book.View(), if state == Live then chain else [];
      var ok := book.ApplyDepthEvent(e.bids, e.asks, e.final);
      if !ok {
        state := Invalid;
        return InvalidBook;
      }
      ShowsOn(was, book.View(), base, so, e);
      firstApplied, applied, state := true, applied + 1, Live;
      chain := so + [e];
      r := Applied;
    }

    /** The first event after a snapshot: it must bracket the snapshot's id. */
    method ApplyFirst(e: DepthEvent) returns (r: SyncResult)
      requires Valid() && state == Syncing
      modifies this, book
      ensures Valid() && base == old(base)
      ensures r == if e.final < old(snapshotId) then Stale else if e.first > old(snapshotId) then Gap
                   else if Usable(e.bids, old(book.bids), e.asks, old(book.asks)) then Applied else InvalidBook
      ensures r == Stale ==> state == Syncing && book.View() == old(book.View()) && buffer == old(buffer)
      ensures r == Gap ==> state == GapDetected && buffer == [e]
      ensures r == Applied ==> state == Live && chain == [e] && buffer == old(buffer) && book.lastUpdateId == e.final
      ensures r == InvalidBook ==> state == Invalid
    {
      if e.final < snapshotId {
        stales := stales + 1;
        return Stale;
      }
      if e.first > snapshotId {
        r := DetectGap(e);
        return;
      }
      r := Apply(e);
    }

    /** Every later one: it must name the last one applied. */
    method ApplyContiguous(e: DepthEvent) returns (r: SyncResult)
      requires Valid() && state == Live
      modifies this, book
      ensures Valid() && base == old(base)
      ensures r == if e.final <= old(book.lastUpdateId) then Stale else if e.previous != old(book.lastUpdateId) then Gap
                   else if Usable(e.bids, old(book.bids), e.asks, old(book.asks)) then Applied else InvalidBook
      ensures r == Stale ==> state == Live && book.View() == old(book.View()) && chain == old(chain) && buffer == old(buffer)
      ensures r == Gap ==> state == GapDetected && buffer == [e]
      ensures r == Applied ==> state == Live && chain == old(chain) + [e] && buffer == old(buffer) && book.lastUpdateId == e.final
      ensures r == InvalidBook ==> state == Invalid
    {
      if e.final <= book.lastUpdateId {
        stales := stales + 1;
        return Stale;
      }
      if e.previous != book.lastUpdateId {
        r := DetectGap(e);
        return;
      }
      r := Apply(e);
    }

    /** A snapshot is loaded, what waited and is older dropped, and the rest applied in order. The book is live
        afterwards exactly when that succeeds, and then it shows the snapshot and every event that waited
        and goes beyond it, none of them missing. */
    method OnSnapshot(s: DepthSnapshot) returns (r: SyncResult)
      requires Valid()
      modifies this, book
      ensures Valid() && (r == IgnoredDisconnected <==> old(state) == Disconnected)
      ensures r == IgnoredDisconnected ==> state == Disconnected && book.View() == old(book.View())
      ensures r == Applied <==> state == Live
      ensures r == Applied ==>
                var w := Waiting(old(buffer), s.updateId);
                base == s && buffer == [] && w != [] && chain == [w[0]] + Kept(w[1..], w[0].final)
      ensures state != Invalid ==> View() == OnBase(old(View()), s.updateId)
    {
      if state == Disconnected {
        return IgnoredDisconnected;
      }
      state, firstApplied, snapshotId := Syncing, false, s.updateId;
      var ok := book.LoadSnapshot(s.bids, s.asks, s.updateId);
      if !ok {
        state := Invalid;
        return InvalidBook;
      }
      base, chain := s, [];
      DropOld();
      if buffer == [] {
        return Buffered;
      }
      r := TakeWaiting();
    }

    /** The first event that waited, and if it is applied all the others. */
    method TakeWaiting() returns (r: SyncResult)
      requires Valid() && state == Syncing && buffer != [] && buffer[0].final >= snapshotId
      modifies this, book
      ensures Valid() && base == old(base) && (r == Applied <==> state == Live) && r != IgnoredDisconnected
      ensures r == Applied ==> buffer == [] && chain == [old(buffer)[0]] + Kept(old(buffer)[1..], old(buffer)[0].final)
      ensures state != Invalid ==> View() == (if old(buffer)[0].first > old(snapshotId) then Standing(Resyncing, [old(buffer)[0]], 0, 0)
                                              else Drained(old(buffer)[1..], old(buffer)[0].final))
    {
      var e := buffer[0];
      buffer := buffer[1..];
      r := ApplyFirst(e);
      if r != Applied {
        if r == Gap {
          BeginResync();
          r := NeedSnapshot;
        }
        return;
      }
      r := DrainBuffer();
    }

    /** What the snapshot already contains goes. */
    method DropOld()
      requires Valid() && state == Syncing
      modifies `buffer, `stales
      ensures Valid() && state == Syncing && buffer == Waiting(old(buffer), snapshotId) && (buffer != [] ==> buffer[0].final >= snapshotId)
    {
      while buffer != [] && buffer[0].final < snapshotId
        invariant Valid() && Waiting(buffer, snapshotId) == Waiting(old(buffer), snapshotId)
        decreases |buffer|
      {
        buffer := buffer[1..];
        stales := stales + 1;
      }
    }

    /** One buffered event. */
    method DrainOne() returns (r: SyncResult)
      requires Valid() && state == Live && buffer != []
      modifies this, book
      ensures Valid() && base == old(base) && (r == Applied || r == Stale <==> state == Live)
      ensures r == Applied || r == Stale || r == NeedSnapshot || r == InvalidBook
      ensures r == InvalidBook <==> state == Invalid
      ensures r == NeedSnapshot ==> View() == Drained(old(buffer), old(book.lastUpdateId))
      ensures state == Live ==> Drained(buffer, book.lastUpdateId) == Drained(old(buffer), old(book.lastUpdateId))
      ensures state == Live ==> buffer == old(buffer)[1..]
      ensures state == Live ==> chain + Kept(buffer, book.lastUpdateId) == old(chain) + Kept(old(buffer), old(book.lastUpdateId))
    {
      var e := buffer[0];
      buffer := buffer[1..];
      r := ApplyContiguous(e);
      if r == Gap {
        BeginResync();
        return NeedSnapshot;
      }
      if r == Applied {
        assert old(chain) + ([e] + Kept(buffer, e.final)) == chain + Kept(buffer, e.final);
      }
    }

    /** Every buffered event in order, while the book stays live. */
    method DrainBuffer() returns (r: SyncResult)
      requires Valid() && state == Live
      modifies this, book
      ensures Valid() && base == old(base) && (r == Applied || r == NeedSnapshot || r == InvalidBook)
      ensures (r == Applied <==> state == Live) && (r == Applied ==> buffer == [])
      ensures r == Applied ==> chain == old(chain) + Kept(old(buffer), old(book.lastUpdateId))
      ensures state != Invalid ==> View() == Drained(old(buffer), old(book.lastUpdateId))
    {
      while buffer != []
        invariant Valid() && state == Live && base == old(base)
        invariant chain + Kept(buffer, book.lastUpdateId) == old(chain) + Kept(old(buffer), old(book.lastUpdateId))
        invariant Drained(buffer, book.lastUpdateId) == Drained(old(buffer), old(book.lastUpdateId))
        decreases |buffer|
      {
        r := DrainOne();
        if r == NeedSnapshot || r == InvalidBook {
          return;
        }
      }
      r := Applied;
    }

    /** A depth event. It is reported as applied exactly when it leaves the book live with it, and an event
        that was not applied leaves a live book as it was. While a snapshot waits none has been applied to it
        yet, so the event is always taken as the first. */
    method OnDepth(e: DepthEvent) returns (r: SyncResult)
      requires Valid()
      modifies this, book
      ensures Valid()
      ensures r == Applied ==> IsLive() && chain == (if old(state) == Live then old(chain) else []) + [e]
      ensures r != Applied && IsLive() ==> r == Stale && old(IsLive()) && book.View() == old(book.View()) && chain == old(chain)
      ensures old(state) == Live ==> (r == Stale <==> e.final <= old(book.lastUpdateId))
      ensures old(state) == Live && r != Stale ==>
                (r == Applied <==> e.previous == old(book.lastUpdateId) && Usable(e.bids, old(book.bids), e.asks, old(book.asks)))
      ensures old(state) == Syncing ==>
                (r == Applied <==> && e.first <= old(snapshotId) <= e.final
                                   && Usable(e.bids, old(book.bids), e.asks, old(book.asks)))
      ensures state != Invalid ==> View() == OnEvent(old(View()), e)
    {
      match state {
        case Disconnected => r := IgnoredDisconnected;
        case Buffering => r := BufferEvent(e);
        case SnapshotPending => r := BufferEvent(e);
        case Resyncing => r := BufferEvent(e);
        case GapDetected => r := BufferEvent(e);
        case Invalid => r := InvalidBook;
        case Syncing =>
          r := ApplyFirst(e);
          if r == Gap {
            BeginResync();
            r := NeedSnapshot;
          }
        case Live => r := ApplyContiguous(e);
      }
    }
  }
}
