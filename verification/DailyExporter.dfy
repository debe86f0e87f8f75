/** TardisDailyResearchExporter (cpp/research/tardis_daily_exporter.cpp:91-169, 255-290): a row per grid instant,
    written as the book events pass it. */
module DailyExporter {
  import opened Wrappers
  import opened OrderBooks
  import opened DailyGrid

  /** A completed book event and the book it left. */
  datatype Event = Event(stamp: nat, snapshot: bool, book: Book)

  /** A row: its instant, the book messages since the row before, the book, and the segment it was
      observed in, none when the row is not valid. */
  datatype Row = Row(time: nat, messages: nat, book: Book, segment: Option<nat>)

  function Depth(s: OrderBooks.Side): nat {
    if s.Empty? then 0 else 1 + Depth(s.rest)
  }

  /** A side is as deep as the distinct prices it shows. */
  lemma {:induction false} DepthCountsPrices(bid: bool, s: OrderBooks.Side, shown: set<int>)
    requires Ranked(bid, s) && forall p :: p in shown <==> QuantityAt(s, p) != 0
    ensures Depth(s) == |shown|
  {
    if s.Empty? {
      assert forall p :: QuantityAt(s, p) == 0;
      assert forall p :: p !in shown;
    } else {
      AbsentAhead(bid, s.rest, s.price);
      assert QuantityAt(s, s.price) == s.qty;
      forall p ensures p in shown - {s.price} <==> QuantityAt(s.rest, p) != 0 {
        assert p != s.price ==> QuantityAt(s, p) == QuantityAt(s.rest, p);
      }
      DepthCountsPrices(bid, s.rest, shown - {s.price});
    }
  }

  /** Enough levels for the features of a row. */
  predicate Deep(book: Book) {
    book.valid && Depth(book.bids) >= 10 && Depth(book.asks) >= 10
  }

  /** best_level_state has a value. */
  predicate HasBest(book: Book) {
    book.valid && book.TwoSided()
  }

  /** The book is observed after the first n events: the last snapshot and every event since left a best
      level on both sides. */
  ghost predicate Observed(events: seq<Event>, n: nat)
    requires n <= |events|
  {
    n > 0 && HasBest(events[n - 1].book) && (events[n - 1].snapshot || Observed(events, n - 1))
  }

  ghost function Snapshots(events: seq<Event>, n: nat): nat
    requires n <= |events|
  {
    if n == 0 then 0 else Snapshots(events, n - 1) + if events[n - 1].snapshot then 1 else 0
  }

  /** An instant between the last event and the snapshot that replaces the book. A last event stamped zero
      counts as none. */
  predicate InGap(events: seq<Event>, n: nat, replaced: bool, t: nat)
    requires n <= |events|
  {
    replaced && (n == 0 || events[n - 1].stamp == 0 || t > events[n - 1].stamp)
  }

  /** The segment of a row that has taken in the first n events, the next one being a snapshot or not. */
  ghost function SegmentSpec(book: Book, events: seq<Event>, n: nat, replaced: bool, t: nat): Option<nat>
    requires n <= |events|
  {
    if Observed(events, n) && !InGap(events, n, replaced, t) && Deep(book) then Some(Snapshots(events, n)) else None
  }

  ghost predicate RowSeen(r: Row, events: seq<Event>, n: nat, coming: bool) {
    n <= |events| && r.segment == SegmentSpec(r.book, events, n, if n < |events| then events[n].snapshot else coming, r.time)
  }

  /** Observed: since some snapshot every event left a usable book with both sides. */
  lemma {:induction false} ObservedIff(events: seq<Event>, n: nat)
    requires n <= |events|
    ensures Observed(events, n) <==> exists j :: SeenSince(events, j, n)
  {
    if n > 0 && HasBest(events[n - 1].book) {
      var m: nat := n - 1;
      if events[m].snapshot {
        assert SeenSince(events, m, n);
      } else {
        ObservedIff(events, m);
        if j :| SeenSince(events, j, m) {
          assert SeenSince(events, j, n);
        }
        if j :| SeenSince(events, j, n) {
          assert SeenSince(events, j, m);
        }
      }
    }
  }

  ghost predicate SeenSince(events: seq<Event>, j: int, n: nat)
    requires n <= |events|
  {
    && 0 <= j < n && events[j].snapshot
    && forall i | j <= i < n :: events[i].book.valid && events[i].book.bids.Level? && events[i].book.asks.Level?
  }

  lemma {:induction false} SegmentsCount(events: seq<Event>, n: nat)
    requires n <= |events|
    ensures Snapshots(events, n) == |set i | 0 <= i < n && events[i].snapshot|
  {
    if n > 0 {
      SegmentsCount(events, n - 1);
      var now, was := set i | 0 <= i < n && events[i].snapshot, set i | 0 <= i < n - 1 && events[i].snapshot;
      assert now == was + if events[n - 1].snapshot then {n - 1} else {};
    }
  }

  /** What a row says of its segment: it is in one exactly when the book has been usable since some snapshot,
      no replacement is on its way across a gap, and both sides show ten prices; and then it is in the one
      its snapshots count to. */
  lemma RowTells(r: Row, events: seq<Event>, n: nat, coming: bool, bids: set<int>, asks: set<int>)
    requires RowSeen(r, events, n, coming) && Ranked(true, r.book.bids) && Ranked(false, r.book.asks)
    requires forall p :: p in bids <==> QuantityAt(r.book.bids, p) != 0
    requires forall p :: p in asks <==> QuantityAt(r.book.asks, p) != 0
    ensures r.segment.Some? <==>
              && (exists j :: SeenSince(events, j, n)) && n > 0
              && !((if n < |events| then events[n].snapshot else coming) && (events[n - 1].stamp == 0 || r.time > events[n - 1].stamp))
              && r.book.valid && |bids| >= 10 && |asks| >= 10
    ensures r.segment.Some? ==> r.segment.value == |set i | 0 <= i < n && events[i].snapshot|
  {
    ObservedIff(events, n);
    SegmentsCount(events, n);
    DepthCountsPrices(true, r.book.bids, bids);
    DepthCountsPrices(false, r.book.asks, asks);
  }

  /** Every row is valid exactly when its book was observed and deep and it lies in no gap. */
  ghost predicate RowsSeen(rows: seq<Row>, events: seq<Event>, coming: bool) {
    forall k {:trigger Messages(rows, k + 1)} | 0 <= k < |rows| :: RowSeen(rows[k], events, Messages(rows, k + 1), coming)
  }

  lemma {:induction false} ObservedPrefix(events: seq<Event>, e: Event, n: nat)
    requires n <= |events|
    ensures Observed(events + [e], n) == Observed(events, n) && Snapshots(events + [e], n) == Snapshots(events, n)
  {
    if n > 0 {
      ObservedPrefix(events, e, n - 1);
    }
  }

  lemma AllTaken(rows: seq<Row>, n: nat)
    requires Messages(rows, |rows|) <= n
    ensures forall k {:trigger Messages(rows, k + 1)} | 0 <= k < |rows| :: Messages(rows, k + 1) <= n
  {
    forall k {:trigger Messages(rows, k + 1)} | 0 <= k < |rows| ensures Messages(rows, k + 1) <= n {
      MessagesMonotone(rows, k + 1, |rows|);
    }
  }

  /** The announced event joins, as the kind it was announced as. */
  lemma SeenJoins(rows: seq<Row>, events: seq<Event>, e: Event, coming: bool)
    requires RowsSeen(rows, events, e.snapshot)
    requires forall k {:trigger Messages(rows, k + 1)} | 0 <= k < |rows| :: Messages(rows, k + 1) <= |events|
    ensures RowsSeen(rows, events + [e], coming)
  {
    forall k | 0 <= k < |rows| ensures RowSeen(rows[k], events + [e], Messages(rows, k + 1), coming) {
      var n := Messages(rows, k + 1);
      assert RowSeen(rows[k], events, n, e.snapshot);
      ObservedPrefix(events, e, n);
    }
  }

  lemma RowSeenJoins(rows: seq<Row>, r: Row, events: seq<Event>, coming: bool)
    requires RowsSeen(rows, events, coming) && RowSeen(r, events, Messages(rows, |rows|) + r.messages, coming)
    ensures RowsSeen(rows + [r], events, coming)
  {
    MessagesPrefix(rows, r, |rows|);
    forall k | 0 <= k < |rows| + 1 ensures RowSeen((rows + [r])[k], events, Messages(rows + [r], k + 1), coming) {
      if k < |rows| {
        MessagesPrefix(rows, r, k + 1);
        assert RowSeen(rows[k], events, Messages(rows, k + 1), coming);
      }
    }
  }

  /** A row that takes in every event so far. */
  lemma WrittenJoins(rows: seq<Row>, r: Row, events: seq<Event>, initial: Book, coming: bool)
    requires RowsCausal(rows, events, initial) && RowsSeen(rows, events, coming) && Messages(rows, |rows|) + r.messages == |events|
    requires r.book == (if events == [] then initial else events[|events| - 1].book)
    requires AllBy(events, |events|, r.time) && r.segment == SegmentSpec(r.book, events, |events|, coming, r.time)
    ensures RowsCausal(rows + [r], events, initial) && RowsSeen(rows + [r], events, coming) && Messages(rows + [r], |rows| + 1) == |events|
  {
    RowJoins(rows, r, events, initial);
    RowSeenJoins(rows, r, events, coming);
  }

  /** While an event is waiting for its row, what comes after it changes no row yet. */
  lemma ComingIsFree(rows: seq<Row>, events: seq<Event>, coming: bool, other: bool)
    requires RowsSeen(rows, events, coming) && (rows == [] || Messages(rows, |rows|) < |events|)
    ensures RowsSeen(rows, events, other)
  {
    forall k | 0 <= k < |rows| ensures RowSeen(rows[k], events, Messages(rows, k + 1), other) {
      MessagesMonotone(rows, k + 1, |rows|);
      assert RowSeen(rows[k], events, Messages(rows, k + 1), coming);
    }
  }

  function Messages(rows: seq<Row>, n: nat): nat
    requires n <= |rows|
  {
    if n == 0 then 0 else Messages(rows, n - 1) + rows[n - 1].messages
  }

  ghost predicate InOrder(events: seq<Event>) {
    forall i, j {:trigger events[i].stamp, events[j].stamp} | 0 <= i < j < |events| :: events[i].stamp <= events[j].stamp
  }

  ghost predicate AllBy(events: seq<Event>, n: nat, t: nat) {
    forall i {:trigger events[i].stamp} | 0 <= i < n && i < |events| :: events[i].stamp <= t
  }

  ghost predicate AllFrom(events: seq<Event>, n: nat, t: nat) {
    forall i {:trigger events[i].stamp} | n <= i < |events| :: events[i].stamp >= t
  }

  /** A row that has taken in the first n events: nothing after its instant, everything before it, and
      the book they left. */
  ghost predicate Causal(r: Row, events: seq<Event>, n: nat, initial: Book) {
    && n <= |events| && AllBy(events, n, r.time) && AllFrom(events, n, r.time)
    && r.book == if n == 0 then initial else events[n - 1].book
  }

  ghost predicate RowsCausal(rows: seq<Row>, events: seq<Event>, initial: Book) {
    forall k {:trigger Messages(rows, k + 1)} | 0 <= k < |rows| :: Causal(rows[k], events, Messages(rows, k + 1), initial)
  }

  ghost predicate OnGrid(rows: seq<Row>, start: nat, step: nat) {
    forall k {:trigger rows[k].time} | 0 <= k < |rows| :: rows[k].time == Tick(start, step, k)
  }

  lemma {:induction false} MessagesPrefix(rows: seq<Row>, r: Row, n: nat)
    requires n <= |rows|
    ensures Messages(rows + [r], n) == Messages(rows, n)
  {
    if n > 0 {
      MessagesPrefix(rows, r, n - 1);
    }
  }

  lemma {:induction false} MessagesMonotone(rows: seq<Row>, i: nat, j: nat)
    requires i <= j <= |rows|
    ensures Messages(rows, i) <= Messages(rows, j)
    decreases j
  {
    if i < j {
      MessagesMonotone(rows, i, j - 1);
    }
  }

  lemma RowJoins(rows: seq<Row>, r: Row, events: seq<Event>, initial: Book)
    requires RowsCausal(rows, events, initial) && Causal(r, events, Messages(rows, |rows|) + r.messages, initial)
    ensures RowsCausal(rows + [r], events, initial) && Messages(rows + [r], |rows| + 1) == Messages(rows, |rows|) + r.messages
  {
    MessagesPrefix(rows, r, |rows|);
    forall k | 0 <= k < |rows| + 1 ensures Causal((rows + [r])[k], events, Messages(rows + [r], k + 1), initial) {
      if k < |rows| {
        MessagesPrefix(rows, r, k + 1);
        assert Causal(rows[k], events, Messages(rows, k + 1), initial);
      }
    }
  }

  /** A later event leaves every written row as it was. */
  lemma EventJoins(rows: seq<Row>, events: seq<Event>, e: Event, initial: Book)
    requires RowsCausal(rows, events, initial) && forall k {:trigger rows[k].time} | 0 <= k < |rows| :: rows[k].time <= e.stamp
    ensures RowsCausal(rows, events + [e], initial)
  {
    forall k | 0 <= k < |rows| ensures Causal(rows[k], events + [e], Messages(rows, k + 1), initial) {
      assert Causal(rows[k], events, Messages(rows, k + 1), initial);
    }
  }

  ghost predicate RowsBy(rows: seq<Row>, t: nat) {
    forall k {:trigger rows[k].time} | 0 <= k < |rows| :: rows[k].time <= t
  }

  /** So between an event and the snapshot that replaces the book no row is valid. */
  lemma GapIsHidden(r: Row, events: seq<Event>, n: nat, coming: bool, initial: Book, i: nat)
    requires Causal(r, events, n, initial) && RowSeen(r, events, n, coming) && InOrder(events)
    requires i + 1 < |events| && events[i + 1].snapshot && events[i].stamp < r.time < events[i + 1].stamp
    ensures r.segment == None
  {
    assert events[i].stamp == events[i].stamp && events[i + 1].stamp == events[i + 1].stamp;
    assert n == i + 1;
  }

  class DailyResearchExporter {
    const start: nat
    const step: nat
    const size: nat
    var rows: seq<Row>
    var previous: nat
    var observable: bool
    var hasBest: bool
    var bucketMessages: nat
    var segmentId: nat
    ghost var events: seq<Event>
    ghost var initial: Book
    /** The event announced last is a replacement snapshot that has not joined yet. */
    ghost var coming: bool

    function NextTime(): nat
      reads `rows
    {
      Tick(start, step, |rows|)
    }

    ghost predicate Valid()
      reads this
    {
      && step > 0 && |rows| <= size && OnGrid(rows, start, step)
      && InOrder(events) && previous == (if events == [] then 0 else events[|events| - 1].stamp)
      && Messages(rows, |rows|) + bucketMessages == |events| && segmentId == Snapshots(events, |events|)
      && RowsCausal(rows, events, initial) && RowsSeen(rows, events, coming)
    }

    /** The book everyone sees between two events. */
    ghost function Current(): Book
      reads this
    {
      if events == [] then initial else events[|events| - 1].book
    }

    /** A row for this instant written now would show an observed book. */
    ghost predicate SeenAt(t: nat)
      reads `events, `coming
    {
      Observed(events, |events|) && !InGap(events, |events|, coming, t)
    }

    constructor (start: nat, step: nat, size: nat, initial: Book)
      requires step > 0
      ensures Valid() && Idle() && rows == [] && events == []
      ensures this.initial == initial && this.start == start && this.step == step && this.size == size
    {
      this.start, this.step, this.size, this.initial := start, step, size, initial;
      rows, previous, observable, hasBest, bucketMessages, segmentId, events, coming := [], 0, false, false, 0, 0, [], false;
    }

    /** The next row, showing the current book. */
    method WriteSample(book: Book, seen: bool)
      requires Valid() && |rows| < size && book == Current() && NextTime() >= previous && seen == SeenAt(NextTime())
      modifies `rows, `bucketMessages
      ensures Valid()
      ensures rows == old(rows) + [Row(old(NextTime()), old(bucketMessages), book, if seen && Deep(book) then Some(segmentId) else None)]
    {
      var row := Row(Tick(start, step, |rows|), bucketMessages, book, if seen && Deep(book) then Some(segmentId) else None);
      WrittenJoins(rows, row, events, initial, coming);
      rows := rows + [row];
      bucketMessages := 0;
    }

    /** Every instant before the stamp (or up to it) is written now. */
    method EmitUntil(stamp: nat, inclusive: bool, book: Book, seen: bool)
      requires Valid() && book == Current() && (|rows| < size ==> NextTime() >= previous)
      requires forall t: nat {:trigger SeenAt(t)} | |rows| < size && NextTime() <= t && (if inclusive then t <= stamp else t < stamp) ::
                 SeenAt(t) == seen
      modifies `rows, `bucketMessages
      ensures Valid() && old(rows) <= rows && (|rows| < size ==> NextTime() >= previous)
      ensures |rows| == size || (if inclusive then NextTime() > stamp else NextTime() >= stamp)
      ensures forall k | |old(rows)| <= k < |rows| ::
                && rows[k].segment == (if seen && Deep(book) then Some(segmentId) else None) && rows[k].book == book
                && (if inclusive then rows[k].time <= stamp else rows[k].time < stamp)
    {
      while |rows| < size && (if inclusive then Tick(start, step, |rows|) <= stamp else Tick(start, step, |rows|) < stamp)
        invariant Valid() && old(rows) <= rows && book == Current() && (|rows| < size ==> NextTime() >= previous)
        invariant NextTime() >= old(NextTime())
        invariant forall k | |old(rows)| <= k < |rows| ::
                    && rows[k].segment == (if seen && Deep(book) then Some(segmentId) else None) && rows[k].book == book
                    && (if inclusive then rows[k].time <= stamp else rows[k].time < stamp)
        decreases size - |rows|
      {
        TickNext(start, step, |rows|);
        WriteSample(book, seen);
      }
    }

    /** What before_book_event leaves for the event it announces. */
    ghost predicate Passing(stamp: nat, replacement: bool)
      reads this
    {
      && stamp >= previous && RowsBy(rows, stamp) && (|rows| < size ==> NextTime() >= stamp)
      && coming == replacement && observable == hasBest == (Observed(events, |events|) && !replacement)
    }

    /** Between two events: everything written is by the last one, everything by it is written, and the
        flag says whether the book is observed. */
    ghost predicate Idle()
      reads this
    {
      && RowsBy(rows, previous) && (|rows| < size ==> NextTime() >= previous) && (rows == [] || bucketMessages > 0)
      && !coming && observable == hasBest == Observed(events, |events|)
    }

    /** Before an event every earlier instant is written; after a gap, as unobserved. */
    method BeforeBookEvent(stamp: nat, replacement: bool, book: Book) returns (ok: bool)
      requires Valid() && Idle() && book == Current()
      modifies `rows, `bucketMessages, `observable, `hasBest, `coming
      ensures ok <==> previous == 0 || stamp >= previous
      ensures ok ==> Valid() && Passing(stamp, replacement) && old(rows) <= rows
      ensures ok ==> observable == (old(observable) && !replacement) && hasBest == (old(hasBest) && !replacement)
    {
      if previous != 0 && stamp < previous {
        return false;
      }
      ok := true;
      Expect(replacement);
      if replacement {
        BeforeReplacement(stamp, book);
      } else {
        EmitUntil(stamp, false, book, observable);
      }
    }

    ghost method Expect(replacement: bool)
      requires Valid() && Idle()
      modifies `coming
      ensures Valid() && coming == replacement
    {
      ComingIsFree(rows, events, coming, replacement);
      coming := replacement;
    }

    /** A replacement snapshot: instants up to the last event show the book as it was, the gap after it
        shows nothing. */
    method BeforeReplacement(stamp: nat, book: Book)
      requires Valid() && coming && book == Current() && (previous == 0 || stamp >= previous)
      requires RowsBy(rows, previous) && (|rows| < size ==> NextTime() >= previous) && observable == hasBest == Observed(events, |events|)
      modifies `rows, `bucketMessages, `observable, `hasBest
      ensures Valid() && Passing(stamp, true) && old(rows) <= rows && !observable && !hasBest
    {
      if previous != 0 {
        EmitUntil(previous, true, book, observable);
      }
      EmitUntil(stamp, false, book, false);
      Forget();
    }

    method Forget()
      modifies `observable, `hasBest
      ensures !observable && !hasBest
    {
      observable, hasBest := false, false;
    }

    /** After it: the event is part of the bucket being filled, a snapshot opens a segment, and a book
        without a best level stays unobserved until the next one. */
    method AfterBookEvent(stamp: nat, snapshot: bool, book: Book)
      requires Valid() && Passing(stamp, snapshot)
      modifies `previous, `bucketMessages, `observable, `hasBest, `events, `coming, `segmentId
      ensures Valid() && Idle() && events == old(events) + [Event(stamp, snapshot, book)]
      ensures observable == (HasBest(book) && (snapshot || old(observable))) && hasBest == observable
      ensures segmentId == old(segmentId) + if snapshot then 1 else 0
    {
      Join(Event(stamp, snapshot, book));
      previous := stamp;
      bucketMessages := bucketMessages + 1;
      Follow(snapshot, HasBest(book));
    }

    method Follow(snapshot: bool, best: bool)
      modifies `observable, `hasBest, `segmentId
      ensures observable == (best && (snapshot || (old(observable) && old(hasBest)))) && (old(observable) == old(hasBest) ==> hasBest == observable)
      ensures segmentId == old(segmentId) + if snapshot then 1 else 0
    {
      if snapshot {
        segmentId := segmentId + 1;
        observable := best;
        hasBest := best;
      } else if !(observable && hasBest && best) {
        observable := false;
        hasBest := false;
      }
    }

    ghost method Join(e: Event)
      requires Valid() && RowsBy(rows, e.stamp) && coming == e.snapshot
      modifies `events, `coming
      ensures events == old(events) + [e] && !coming && RowsCausal(rows, events, initial) && RowsSeen(rows, events, coming)
      ensures Observed(events, |events|) <==> HasBest(e.book) && (e.snapshot || old(Observed(events, |events|)))
      ensures Snapshots(events, |events|) == old(Snapshots(events, |events|)) + if e.snapshot then 1 else 0
    {
      EventJoins(rows, events, e, initial);
      AllTaken(rows, |events|);
      SeenJoins(rows, events, e, false);
      ObservedPrefix(events, e, |events|);
      events, coming := events + [e], false;
    }

    /** At the end every instant of the day has exactly one row, in order, valid exactly when its book was
        observed and deep and it lies in no gap. */
    method Finish(book: Book)
      requires Valid() && Idle() && book == Current()
      modifies `rows, `bucketMessages
      ensures Valid() && |rows| == size && old(rows) <= rows && RowsSeen(rows, events, false)
    {
      if previous != 0 {
        EmitUntil(previous, true, book, observable);
      }
      while |rows| < size
        invariant Valid() && old(rows) <= rows && book == Current() && (|rows| < size ==> NextTime() >= previous)
        decreases size - |rows|
      {
        TickNext(start, step, |rows|);
        WriteSample(book, observable);
      }
    }
  }

  /** A whole day: it stops exactly on a stamp that goes back; otherwise it has one row per instant, each
      showing the events of its time and valid exactly when they left an observed and deep book. */
  method ExportDay(start: nat, step: nat, size: nat, initial: Book, events: seq<Event>) returns (ok: bool, rows: seq<Row>)
    requires step > 0
    ensures ok <==> InOrder(events)
    ensures ok ==> |rows| == size && OnGrid(rows, start, step) && RowsCausal(rows, events, initial) && RowsSeen(rows, events, false)
  {
    var e := new DailyResearchExporter(start, step, size, initial);
    var i := 0;
    while i < |events|
      invariant 0 <= i <= |events| && fresh(e) && e.Valid() && e.Idle() && e.events == events[..i]
      invariant e.initial == initial && e.start == start && e.step == step && e.size == size
    {
      ok := Tell(e, events[i], if i == 0 then initial else events[i - 1].book);
      if !ok {
        Regressed(events, i);
        return false, [];
      }
      assert events[..i + 1] == events[..i] + [events[i]];
      i := i + 1;
    }
    assert events[..i] == events;
    e.Finish(if events == [] then initial else events[|events| - 1].book);
    ok, rows := true, e.rows;
  }

  lemma Regressed(events: seq<Event>, i: nat)
    requires 0 < i < |events| && events[i].stamp < events[i - 1].stamp
    ensures !InOrder(events)
  {
    assert events[i - 1].stamp > events[i].stamp;
  }

  /** One event, announced on the book before it and then joined. */
  method Tell(e: DailyResearchExporter, event: Event, before: Book) returns (ok: bool)
    requires e.Valid() && e.Idle() && before == e.Current()
    modifies e
    ensures e.initial == old(e.initial)
    ensures ok <==> event.stamp >= old(e.previous)
    ensures ok ==> e.Valid() && e.Idle() && e.events == old(e.events) + [event]
  {
    ok := e.BeforeBookEvent(event.stamp, event.snapshot, before);
    if ok {
      e.AfterBookEvent(event.stamp, event.snapshot, event.book);
    }
  }
}
