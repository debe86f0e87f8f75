/** NativeDatasetExporter (cpp/research/native_dataset_exporter.cpp:228-283, 475-526, 590-676, 747-1017):
    the replay observer that samples rows on a grid, resolves their labels lazily and writes them. The
    trailing feature windows it also keeps are in NativeWindows. */
module NativeDataset {
  import opened Wrappers
  import opened OrderBooks
  import opened NativeRows
  import opened NativeResolver
  import opened NativeTruth
  import opened NativeEvents
  import opened NativeCalls
  import opened NativeCounts
  import opened NativePassives
  import opened NativeTracking
  import QueueGrid
  import opened Grids

  lemma RowAtIsLow(ns: nat, book: Book, c: Config)
    requires book.TwoSided() && c.Ok()
    ensures var r := RowAt(ns, book, c); Low(r, c) && r.watching && r.ns == ns
  {
    NewRowCache(ns, book.MidX2(), book.bids.price, book.bids.qty, book.asks.price, book.asks.qty, 0, c);
  }

  class NativeDatasetExporter {
    const config: Config
    var pending: seq<Row>
    var written: seq<Row>
    var minDeadline: Deadline
    var lastMid: Option<int>
    var watchingRows: int
    var bookLive: bool
    var tradeStreamUp: bool
    var inSegment: bool
    var segmentStart: nat
    var nextSample: nat
    var lastRecord: nat
    var flowValid: bool
    /** Every sample ever placed, and the evidence each written row is held to. */
    ghost var placed: seq<nat>
    ghost var audits: seq<Option<Audit>>
    /** The replay as seen so far: the stamp of the current record, whether it is still being replayed,
        the mids of the open segment, the book last shown, and whether the segment's stamps rose
        strictly and its book never changed between records. */
    ghost var clock: nat
    ghost var inside: bool
    ghost var history: seq<Sample>
    ghost var shown: Book
    ghost var faithful: bool

    function View(): Resolver
      reads `pending, `written, `minDeadline, `lastMid
    {
      Resolver(pending, written, minDeadline, lastMid)
    }

    predicate Usable()
      reads this
    {
      bookLive && tradeStreamUp
    }

    ghost predicate Booked()
      reads this
    {
      config.Ok() && Counted(View(), watchingRows, placed, config) && Audited(written, audits, config)
    }

    ghost predicate Labelled()
      reads this
    {
      inSegment && faithful ==>
        if inside then Within(View(), history, clock, nextSample, config)
        else Between(View(), history, clock, nextSample, shown, config)
    }

    /** Holds between any two callbacks of any replay. */
    ghost predicate Valid()
      reads this
    {
      Booked() && Labelled() && (!inSegment ==> pending == [])
    }

    constructor (config: Config)
      requires config.Ok()
      ensures Valid() && this.config == config && placed == [] && written == [] && audits == []
      ensures !inSegment && !inside && !tradeStreamUp
    {
      this.config := config;
      pending, written, minDeadline, lastMid, watchingRows := [], [], Never, None, 0;
      bookLive, tradeStreamUp, inSegment, flowValid := false, false, false, false;
      segmentStart, nextSample, lastRecord := 0, 0, 0;
      placed, audits, clock, inside, history, faithful := [], [], 0, false, [], false;
      shown := Book(false, Empty, Empty, 0);
    }

    /** Decided rows leave from the front. */
    method FlushFrontResolved()
      modifies `pending, `written
      ensures var n := LeadingNever(old(pending), 0);
              pending == old(pending)[n..] && written == old(written) + old(pending)[..n]
    {
      ghost var n := 0;
      while pending != [] && pending[0].nextDeadline.Never?
        invariant n <= |old(pending)| && pending == old(pending)[n..] && written == old(written) + old(pending)[..n]
        invariant LeadingNever(old(pending), 0) == LeadingNever(old(pending), n)
        decreases |pending|
      {
        written := written + [pending[0]];
        pending := pending[1..];
        n := n + 1;
      }
    }

    method SetRow(k: nat, row: Row)
      requires k < |pending|
      modifies `pending
      ensures pending == old(pending)[k := row]
    {
      pending := pending[k := row];
    }

    /** The pass over the pending rows. */
    method ResolveRows(midChanged: bool, now: nat, due: nat, midX2: int)
      requires AllShaped(pending, config)
      modifies `pending, `minDeadline
      ensures pending == LazyRows(old(pending), midChanged, now, due, midX2, config)
      ensures minDeadline == SoonestCached(pending, |pending|)
    {
      ghost var goal := LazyRows(pending, midChanged, now, due, midX2, config);
      assert AllRecheck(pending, goal, midChanged, now, due, midX2, config);
      ResolveEach(midChanged, now, due, midX2, goal);
    }

    method ResolveEach(midChanged: bool, now: nat, due: nat, midX2: int, ghost goal: seq<Row>)
      requires AllRecheck(pending, goal, midChanged, now, due, midX2, config)
      modifies `pending, `minDeadline
      ensures pending == goal && minDeadline == SoonestCached(goal, |goal|)
    {
      var nextMin := Never;
      var k := 0;
      ghost var was := pending;
      while k < |pending|
        invariant 0 <= k <= |pending| == |was| == |goal|
        invariant forall j | 0 <= j < |was| :: pending[j] == if j < k then goal[j] else was[j]
        invariant nextMin == SoonestCached(goal, k)
      {
        assert Rechecks(was[k], goal[k], midChanged, now, due, midX2, config);
        var row := ResolveRow(pending[k], midChanged, now, due, midX2, goal[k]);
        nextMin := Sooner(nextMin, row.nextDeadline);
        SetRow(k, row);
        k := k + 1;
      }
      minDeadline := nextMin;
    }

    method ResolveRow(r: Row, midChanged: bool, now: nat, due: nat, midX2: int, ghost goal: Row) returns (row: Row)
      requires Rechecks(r, goal, midChanged, now, due, midX2, config)
      ensures row == goal
    {
      row := LazyRow(r, midChanged, now, due, midX2, config);
    }

    /** resolve_pending with its two early returns. */
    method ResolvePending(now: nat, due: nat, book: Book)
      requires AllShaped(pending, config)
      modifies `pending, `written, `minDeadline, `lastMid
      ensures View() == if Showing(book) then LazyCall(old(View()), now, due, book.MidX2(), config) else old(View())
    {
      if pending == [] || !book.valid || !book.TwoSided() {
        return;
      }
      var midX2 := book.MidX2();
      var midChanged := lastMid.None? || midX2 != lastMid.value;
      if !Leq(minDeadline, At(due)) && !midChanged {
        return;
      }
      lastMid := Some(midX2);
      ResolveRows(midChanged, now, due, midX2);
      FlushFrontResolved();
    }

    /** A resolver call that keeps the books; a good one also vouches for the rows it writes. */
    method Resolve(now: nat, due: nat, book: Book, ghost good: bool, ghost evidence: seq<Sample>)
      requires Booked() && due <= now <= due + 1
      requires good ==> Showing(book) && GoodCall(View(), evidence, now, due, book.MidX2(), config)
      modifies `pending, `written, `minDeadline, `lastMid, `audits
      ensures Booked() && AllShaped(old(pending), config)
      ensures View() == if Showing(book) then LazyCall(old(View()), now, due, book.MidX2(), config) else old(View())
      ensures old(written) <= written && old(audits) <= audits && (good ==> Vouched(audits, |old(audits)|, Audit(evidence, now, due, false)))
    {
      LowShaped(pending, config);
      if Showing(book) {
        ghost var l := LazyCall(View(), now, due, book.MidX2(), config);
        CallKeepsBooks(View(), l, watchingRows, placed, audits, good, evidence, now, due, book.MidX2(), config);
        ResolveShown(now, due, book, l, Evidence(good, evidence, now, due, false));
      } else {
        ResolvePending(now, due, book);
      }
    }

    /** The call itself: nothing else about the exporter changes. */
    method ResolveShown(now: nat, due: nat, book: Book, ghost l: Resolver, ghost a: Option<Audit>)
      requires Showing(book) && AllShaped(pending, config) && l == LazyCall(View(), now, due, book.MidX2(), config)
      requires |audits| <= |l.written|
      modifies `pending, `written, `minDeadline, `lastMid, `audits
      ensures View() == l && audits == Extended(old(audits), |l.written|, a)
    {
      ResolvePending(now, due, book);
      audits := Extended(audits, |l.written|, a);
    }

    /** One sample on a usable two-sided book, nothing otherwise. */
    method EmitSample(ns: nat, book: Book)
      requires Booked()
      modifies `pending, `minDeadline, `watchingRows, `placed
      ensures Booked()
      ensures View() == if Showing(book) then Emitted(old(View()), RowAt(ns, book, config)) else old(View())
      ensures placed == if Showing(book) then old(placed) + [ns] else old(placed)
    {
      if !book.valid || !book.TwoSided() {
        return;
      }
      var row := RowAt(ns, book, config);
      RowAtIsLow(ns, book, config);
      EmitKeepsCounted(View(), watchingRows, placed, row, config);
      minDeadline := Sooner(minDeadline, row.nextDeadline);
      watchingRows := watchingRows + 1;
      pending := pending + [row];
      placed := placed + [ns];
    }

    /** On a good advance the labels are those of the history, up to rows placed since. */
    ghost predicate Sound(good: bool, book: Book, now: nat, due: nat)
      reads `pending, `written, `minDeadline, `lastMid, `history, `nextSample
    {
      good ==> && Showing(book) && Emitting(View(), history, now, due, due, config) && book.MidX2() == LastMid(history)
               && LastNs(history) <= nextSample
    }

    /** A sample placed on the unchanged book starts out with true labels. */
    method PlaceSample(book: Book, ghost good: bool, ghost now: nat, ghost due: nat)
      requires Booked() && Sound(good, book, now, due) && (good ==> nextSample <= due)
      modifies `pending, `minDeadline, `watchingRows, `placed, `nextSample
      ensures Booked()
      ensures Sound(good, book, now, due) == old(Sound(good, book, now, due))
      ensures placed == if Showing(book) then old(placed) + [old(nextSample)] else old(placed)
      ensures nextSample == old(nextSample) + config.gridNs
      ensures Traces(View()) == old(Traces(View())) + if Showing(book) then [Born(old(nextSample), book, config)] else []
    {
      if Showing(book) {
        EmitAddsTrace(View(), nextSample, book, config);
      }
      if good {
        RowAtIsLow(nextSample, book, config);
        EmitKeepsEmitting(View(), RowAt(nextSample, book, config), history, now, due, due, book, config);
      }
      EmitSample(nextSample, book);
      nextSample := nextSample + config.gridNs;
    }

    /** Every grid instant before the stamp (or up to it) gets its sample, once and in order. */
    method AdvanceGrid(local: nat, inclusive: bool, book: Book, ghost good: bool, ghost now: nat, ghost due: nat)
      requires Booked() && inSegment
      requires good ==> && Showing(book) && Emitting(View(), history, now, due, due, config) && book.MidX2() == LastMid(history)
                        && LastNs(history) <= nextSample && local <= due + (if inclusive then 0 else 1)
      modifies `pending, `minDeadline, `watchingRows, `placed, `nextSample
      ensures Booked()
      ensures nextSample == NextFrom(old(nextSample), local, inclusive, config.gridNs)
      ensures good ==> Emitting(View(), history, now, due, due, config)
      ensures placed == old(placed) + SamplesOn(book, old(nextSample), local, inclusive, config.gridNs)
      ensures Traces(View()) == old(Traces(View())) + Borns(SamplesOn(book, old(nextSample), local, inclusive, config.gridNs), book, config)
    {
      ghost var goal := Ahead(local, inclusive, book);
      while nextSample < local || (inclusive && nextSample == local)
        invariant Booked() && inSegment && nextSample >= old(nextSample)
        invariant NextFrom(nextSample, local, inclusive, config.gridNs)
               == NextFrom(old(nextSample), local, inclusive, config.gridNs)
        invariant Sound(good, book, now, due) == old(Sound(good, book, now, due))
        invariant Ahead(local, inclusive, book) == goal
        decreases local + 1 - nextSample
      {
        SampleNext(local, inclusive, book, good, now, due);
      }
    }

    /** What an advance still has to place, on top of what is there. */
    ghost function Ahead(local: nat, inclusive: bool, book: Book): (seq<nat>, seq<Row>)
      requires config.gridNs > 0
      reads `pending, `written, `minDeadline, `lastMid, `placed, `nextSample
    {
      AheadOf(placed, Traces(View()), book, nextSample, local, inclusive, config)
    }

    method SampleNext(local: nat, inclusive: bool, book: Book, ghost good: bool, ghost now: nat, ghost due: nat)
      requires Booked() && (nextSample < local || (inclusive && nextSample == local))
      requires Sound(good, book, now, due) && (good ==> nextSample <= due)
      modifies `pending, `minDeadline, `watchingRows, `placed, `nextSample
      ensures Booked() && nextSample == old(nextSample) + config.gridNs
      ensures Sound(good, book, now, due) == old(Sound(good, book, now, due))
      ensures Ahead(local, inclusive, book) == old(Ahead(local, inclusive, book))
    {
      PlaceSample(book, good, now, due);
      AheadStays(old(placed), old(Traces(View())), old(nextSample), placed, Traces(View()), nextSample, book, local, inclusive, config);
    }

    /** A call on the book the labels already reflect. */
    method QuietResolve(now: nat, due: nat, book: Book, ghost good: bool, ghost now0: nat, ghost due0: nat)
      requires Booked()
      requires good ==> && Showing(book) && Emitting(View(), history, now0, due0, due, config) && book.MidX2() == LastMid(history)
                        && now0 <= now && due0 <= due <= now
      requires due <= now <= due + 1
      modifies `pending, `written, `minDeadline, `lastMid, `audits
      ensures Booked() && old(written) <= written && old(audits) <= audits && Traces(View()) == old(Traces(View()))
      ensures good ==> Vouched(audits, |old(audits)|, Audit(history, now, due, false))
      ensures good ==> Tracked(View(), history, now, due, config) && Emitting(View(), history, now, due, due, config)
    {
      LowShaped(pending, config);
      ShownKeepsTraces(View(), now, due, book, config);
      if good {
        QuietIsGood(View(), history, now0, due0, now, due, config);
        CallKeepsBefore(View(), now, due, book.MidX2(), due + 1, config);
      }
      Resolve(now, due, book, good, history);
    }

    /** The call after a record, whose mid joins the history. */
    method RecordResolve(local: nat, book: Book, ghost good: bool)
      requires Booked()
      requires good ==> Showing(book) && Within(View(), history, local, nextSample, config)
      modifies `pending, `written, `minDeadline, `lastMid, `audits, `history
      ensures Booked() && old(written) <= written && old(audits) <= audits && Traces(View()) == old(Traces(View()))
      ensures good ==> Vouched(audits, |old(audits)|, Audit(history, local, local, false))
      ensures good ==> && history == old(history) + [Sample(local, book.MidX2())]
                       && Tracked(View(), history, local, local, config) && Emitting(View(), history, local, local, local, config)
    {
      LowShaped(pending, config);
      ShownKeepsTraces(View(), local, local, book, config);
      if good {
        var x := Sample(local, book.MidX2());
        RecordIsGood(View(), history, x, nextSample, config);
        CallKeepsBefore(View(), local, local, book.MidX2(), local + 1, config);
        history := history + [x];
      }
      Resolve(local, local, book, good, history);
    }

    /** advance_grid, then the rows it placed catch up with what is already past. */
    method SampleAndResolve(local: nat, due: nat, inclusive: bool, book: Book, ghost good: bool)
      requires Booked() && inSegment && due <= local <= due + 1
      requires good ==> && Showing(book) && Emitting(View(), history, local, due, due, config) && book.MidX2() == LastMid(history)
                        && LastNs(history) <= nextSample && local <= due + (if inclusive then 0 else 1)
      modifies `pending, `written, `minDeadline, `lastMid, `audits, `watchingRows, `placed, `nextSample
      ensures Booked() && nextSample == NextFrom(old(nextSample), local, inclusive, config.gridNs)
      ensures placed == old(placed) + SamplesOn(book, old(nextSample), local, inclusive, config.gridNs)
      ensures Traces(View()) == old(Traces(View())) + Borns(SamplesOn(book, old(nextSample), local, inclusive, config.gridNs), book, config)
      ensures good ==> Tracked(View(), history, local, due, config) && RowsBefore(pending, due + 1)
      ensures old(written) <= written && old(audits) <= audits && (good ==> Vouched(audits, |old(audits)|, Audit(history, local, due, false)))
    {
      AdvanceGrid(local, inclusive, book, good, local, due);
      QuietResolve(local, due, book, good, local, due);
    }

    /** What falls due before a record is decided on the book left by the record before it. */
    method CatchUp(local: nat, book: Book, ghost good: bool, ghost last: nat)
      requires Booked() && inSegment
      requires good ==> last < local && Between(View(), history, last, nextSample, book, config)
      modifies `pending, `written, `minDeadline, `lastMid, `audits, `watchingRows, `placed, `nextSample
      ensures Booked() && nextSample == NextFrom(old(nextSample), local, false, config.gridNs)
      ensures placed == old(placed) + SamplesOn(book, old(nextSample), local, false, config.gridNs)
      ensures Traces(View()) == old(Traces(View())) + Borns(SamplesOn(book, old(nextSample), local, false, config.gridNs), book, config)
      ensures good ==> Within(View(), history, local, nextSample, config)
      ensures old(written) <= written && old(audits) <= audits
      ensures good ==> Vouched(audits, |old(audits)|, Audit(history, local, Before(local), false))
    {
      var due := Before(local);
      if good {
        TrackedEmits(View(), history, last, last, due, config);
      }
      QuietResolve(local, due, book, good, last, last);
      SampleAndResolve(local, due, false, book, good);
    }

    method EnterRecord(local: nat, book: Book, live: bool)
      modifies `bookLive, `faithful, `inside, `clock
      ensures inside && clock == local && bookLive == live
      ensures faithful == (old(faithful) && old(clock) < local && book == shown && Usable())
    {
      faithful := faithful && clock < local && book == shown && live && tradeStreamUp;
      bookLive := live;
      inside := true;
      clock := local;
    }

    /** Replaying a record starts with everything that fell due since the last one. */
    method BeforeRecord(local: nat, book: Book, live: bool)
      requires Valid() && !inside
      modifies `bookLive, `faithful, `inside, `clock,
               `pending, `written, `minDeadline, `lastMid, `audits, `watchingRows, `placed, `nextSample
      ensures Valid() && inside && clock == local && bookLive == live
      ensures faithful == (old(faithful) && old(clock) < local && book == old(shown) && Usable())
      ensures inSegment && Usable() ==> nextSample == NextFrom(old(nextSample), local, false, config.gridNs)
      ensures placed == old(placed) + if inSegment && Usable() then SamplesOn(book, old(nextSample), local, false, config.gridNs) else []
      ensures old(written) <= written && old(audits) <= audits
      ensures Traces(View()) == old(Traces(View()))
              + if inSegment && Usable() then Borns(SamplesOn(book, old(nextSample), local, false, config.gridNs), book, config) else []
      ensures inSegment && faithful ==> Vouched(audits, |old(audits)|, Audit(history, local, Before(local), false))
      ensures !(inSegment && Usable()) ==> written == old(written) && pending == old(pending)
    {
      ghost var last := clock;
      EnterRecord(local, book, live);
      if !inSegment || !Usable() {
        return;
      }
      CatchUp(local, book, faithful, last);
    }

    method OnConnection(tradeStream: bool, open: bool)
      requires Valid()
      modifies `tradeStreamUp
      ensures Valid() && tradeStreamUp == if tradeStream then open else old(tradeStreamUp)
    {
      if tradeStream {
        tradeStreamUp := open;
      }
    }

    method BeforeDepthEvent(book: Book)
      requires Valid()
      modifies `flowValid
      ensures Valid() && flowValid == book.valid
    {
      flowValid := book.valid;
    }

    /** One row of watch_book_races: the counter follows the flag. */
    method WatchOne(k: nat, local: nat, book: Book, ghost good: bool)
      requires Booked() && book.TwoSided() && k < |pending|
      requires good ==> Within(View(), history, clock, nextSample, config)
      modifies `pending, `watchingRows
      ensures Booked() && pending == WatchedAt(old(pending), k, local, book, config)
      ensures good ==> Within(View(), history, clock, nextSample, config)
    {
      WatchOneKeepsCounted(View(), watchingRows, placed, k, local, book, config);
      if good {
        WatchKeepsWithin(View(), history, clock, nextSample, k, local, book, config);
      }
      var row := WatchRow(pending[k], local, book, config);
      watchingRows := watchingRows - (if pending[k].watching && !row.watching then 1 else 0);
      pending := pending[k := row];
    }

    /** Book races of every watched row, skipped when the counter says nothing is watched. */
    method WatchBookRaces(local: nat, book: Book, ghost good: bool)
      requires Booked() && (good ==> Within(View(), history, clock, nextSample, config))
      modifies `pending, `watchingRows
      ensures Booked() && (good ==> Within(View(), history, clock, nextSample, config))
      ensures |pending| == |old(pending)|
      ensures book.TwoSided() ==> forall k | 0 <= k < |pending| :: pending[k] == WatchRow(old(pending)[k], local, book, config)
      ensures !book.TwoSided() ==> pending == old(pending)
    {
      if watchingRows == 0 || !book.TwoSided() {
        NothingWatched(View(), watchingRows, placed, config);
        return;
      }
      var k := 0;
      ghost var was := pending;
      while k < |pending|
        invariant 0 <= k <= |pending| == |was| && Booked() && (good ==> Within(View(), history, clock, nextSample, config))
        invariant forall j | 0 <= j < |was| :: pending[j] == if j < k then WatchRow(was[j], local, book, config) else was[j]
      {
        WatchOne(k, local, book, good);
        k := k + 1;
      }
    }

    /** The depth stream: an event that was not applied ends the segment. */
    method AfterDepthEvent(local: nat, book: Book, applied: bool, live: bool)
      requires Valid() && inside && local == clock
      modifies `bookLive, `flowValid, `pending, `written, `watchingRows, `inSegment, `audits
      ensures Valid() && bookLive == live && inSegment == (old(inSegment) && applied)
      ensures if applied then written == old(written) && audits == old(audits) && |pending| == |old(pending)|
              else written == old(written) + old(pending) && old(audits) <= audits
      ensures old(inSegment) && faithful ==> Vouched(audits, |old(audits)|, Audit(history, clock, Before(clock), true))
      ensures inSegment && old(flowValid) && book.TwoSided() ==>
                forall k | 0 <= k < |pending| :: pending[k] == WatchRow(old(pending)[k], local, book, config)
      ensures inSegment && !(old(flowValid) && book.TwoSided()) ==> pending == old(pending)
    {
      if !applied {
        flowValid := false;
        CloseSegment(local);
      } else if inSegment && flowValid {
        flowValid := false;
        WatchBookRaces(local, book, faithful);
      }
      bookLive := live;
    }

    /** A replacement snapshot abandons the book, and with it the segment. */
    method AfterSnapshot(local: nat, live: bool)
      requires Valid() && inside
      modifies `bookLive, `pending, `written, `watchingRows, `inSegment, `audits
      ensures Valid() && !inSegment && bookLive == live && pending == [] && written == old(written) + old(pending)
      ensures old(audits) <= audits && (old(inSegment) && faithful ==> Vouched(audits, |old(audits)|, Audit(history, clock, Before(clock), true)))
    {
      bookLive := live;
      CloseSegment(local);
    }

    /** Everything still pending is written as it stands, in sample order. */
    method CloseSegment(local: nat)
      requires Valid()
      modifies `pending, `written, `watchingRows, `inSegment, `audits
      ensures Valid() && !inSegment && pending == [] && written == old(written) + old(pending)
      ensures old(audits) <= audits
      ensures old(inSegment) && faithful ==>
                Vouched(audits, |old(audits)|, Audit(history, clock, if inside then Before(clock) else clock, true))
    {
      if !inSegment {
        return;
      }
      ghost var due := if inside then Before(clock) else clock;
      ghost var evidence := Evidence(faithful, history, clock, due, true);
      CloseKeepsCounted(View(), watchingRows, placed, config);
      AuditsExtend(written, written + pending, audits, evidence, config);
      audits := Extended(audits, |written + pending|, evidence);
      WriteAll();
      watchingRows := 0;
      inSegment := false;
    }

    method WriteAll()
      modifies `pending, `written
      ensures pending == [] && written == old(written) + old(pending)
    {
      while pending != []
        invariant written + pending == old(written) + old(pending)
        decreases |pending|
      {
        assert pending == [pending[0]] + pending[1..];
        written := written + [pending[0]];
        pending := pending[1..];
      }
    }

    /** A print reaches every pending row, in order. */
    method OnTrade(local: nat, t: QueueGrid.Print, book: Book, live: bool)
      requires Valid() && inside && local == clock
      modifies `bookLive, `pending, `minDeadline
      ensures Valid() && bookLive == live
      ensures inSegment ==> PrintedOver(old(View()), View(), local, t, if Showing(book) then book.MidX2() else 0, config)
    {
      bookLive := live;
      if inSegment {
        PrintAll(local, t, if book.valid && book.TwoSided() then book.MidX2() else 0, faithful);
      }
    }

    /** The pass over the pending rows keeps the books and the labels. */
    method PrintAll(local: nat, t: QueueGrid.Print, midX2: int, ghost good: bool)
      requires Booked() && (good ==> local == clock && Within(View(), history, clock, nextSample, config))
      modifies `pending, `minDeadline
      ensures Booked() && (good ==> Within(View(), history, clock, nextSample, config))
      ensures PrintedOver(old(View()), View(), local, t, midX2, config)
    {
      PrintsKeepCounted(View(), watchingRows, placed, local, t, midX2, config);
      if good {
        PrintsKeepWithin(View(), history, clock, nextSample, t, midX2, config);
      }
      StreamPrint(local, t, midX2);
    }

    method StreamPrint(local: nat, t: QueueGrid.Print, midX2: int)
      requires AllShaped(pending, config)
      modifies `pending, `minDeadline
      ensures View() == Printed(old(View()), local, t, midX2, config)
    {
      ghost var goal := PrintRows(pending, local, t, midX2, config);
      assert AllTurnInto(pending, goal, local, t, midX2, config);
      PrintEach(local, t, midX2, goal);
    }

    method PrintEach(local: nat, t: QueueGrid.Print, midX2: int, ghost goal: seq<Row>)
      requires AllTurnInto(pending, goal, local, t, midX2, config)
      modifies `pending, `minDeadline
      ensures pending == goal && |old(pending)| == |goal|
      ensures minDeadline == MinOver(old(pending), goal, old(minDeadline), |goal|)
    {
      var k := 0;
      ghost var was := pending;
      while k < |pending|
        invariant 0 <= k <= |pending| == |was| == |goal|
        invariant forall j | 0 <= j < |was| :: pending[j] == if j < k then goal[j] else was[j]
        invariant minDeadline == MinOver(was, goal, old(minDeadline), k)
      {
        assert TurnsInto(was[k], goal[k], local, t, midX2, config);
        PrintOne(k, local, t, midX2, goal[k]);
        k := k + 1;
      }
    }

    /** One row: the soonest deadline follows a fill. */
    method PrintOne(k: nat, local: nat, t: QueueGrid.Print, midX2: int, ghost goal: Row)
      requires k < |pending| && TurnsInto(pending[k], goal, local, t, midX2, config)
      modifies `pending, `minDeadline
      ensures pending == old(pending)[k := goal]
      ensures minDeadline == if SameFills(old(pending)[k], goal) then old(minDeadline) else Sooner(old(minDeadline), goal.nextDeadline)
    {
      var row := PrintRow(pending[k], local, t, midX2, config);
      if row.bid.fill.fullFilled != pending[k].bid.fill.fullFilled || row.ask.fill.fullFilled != pending[k].ask.fill.fullFilled {
        minDeadline := Sooner(minDeadline, row.nextDeadline);
      }
      pending := pending[k := row];
    }

    /** Everything due by the stamp of a record is decided with the mid it left, then its own sample is
        placed. */
    method Settle(local: nat, book: Book, ghost good: bool)
      requires Booked() && inSegment && (good ==> Showing(book) && Within(View(), history, local, nextSample, config))
      modifies `pending, `written, `minDeadline, `lastMid, `audits, `watchingRows, `placed, `nextSample, `history
      ensures Booked() && nextSample == NextFrom(old(nextSample), local, true, config.gridNs)
      ensures good ==> history == old(history) + [Sample(local, book.MidX2())] && Between(View(), history, local, nextSample, book, config)
      ensures placed == old(placed) + SamplesOn(book, old(nextSample), local, true, config.gridNs)
      ensures Traces(View()) == old(Traces(View())) + Borns(SamplesOn(book, old(nextSample), local, true, config.gridNs), book, config)
      ensures old(written) <= written && old(audits) <= audits && (good ==> Vouched(audits, |old(audits)|, Audit(history, local, local, false)))
    {
      RecordResolve(local, book, good);
      SampleAndResolve(local, local, true, book, good);
    }

    method LeaveRecord(local: nat, book: Book, live: bool, ghost good: bool)
      modifies `bookLive, `lastRecord, `shown, `inside, `faithful
      ensures bookLive == live && lastRecord == local && shown == book && !inside && faithful == good
    {
      bookLive := live;
      lastRecord := local;
      shown := book;
      inside := false;
      faithful := good;
    }

    /** After a record: a usable segment settles it, an unusable one closes, and a new one may open. */
    method AfterRecord(local: nat, book: Book, live: bool)
      requires Valid() && inside && local == clock && (book.valid ==> book.TwoSided())
      modifies `pending, `written, `minDeadline, `lastMid, `audits, `watchingRows, `placed, `nextSample, `history, `inSegment,
               `segmentStart, `bookLive, `lastRecord, `shown, `inside, `faithful
      ensures Valid() && !inside && bookLive == live && lastRecord == local && shown == book
      ensures inSegment == (Usable() && (old(inSegment) || book.valid))
      ensures inSegment ==> faithful == (!old(inSegment) || (old(faithful) && Showing(book)))
      ensures inSegment && faithful ==>
                history == (if old(inSegment) then old(history) else []) + [Sample(local, book.MidX2())]
      ensures old(written) <= written && old(audits) <= audits
      ensures old(inSegment) && old(faithful) && (inSegment ==> faithful) ==>
                Vouched(audits, |old(audits)|, Audit(history, local, if inSegment then local else Before(local), !inSegment))
      ensures placed == old(placed)
              + if old(inSegment) && inSegment then SamplesOn(book, old(nextSample), local, true, config.gridNs) else []
      ensures old(inSegment) && inSegment ==> nextSample == NextFrom(old(nextSample), local, true, config.gridNs)
      ensures !old(inSegment) ==> written == old(written) && audits == old(audits) && pending == []
      ensures old(inSegment) && inSegment ==>
                Traces(View()) == old(Traces(View())) + Borns(SamplesOn(book, old(nextSample), local, true, config.gridNs), book, config)
      ensures !old(inSegment) && inSegment ==> nextSample == NextInstant(local, config.gridNs) && OnGrid(nextSample, config.gridNs)
      ensures !inSegment ==> written == old(written) + old(pending) && history == old(history)
    {
      if inSegment && live && tradeStreamUp {
        RecordInside(local, book);
      } else if inSegment {
        RecordEndsSegment(local, book, live);
      } else {
        RecordOutside(local, book, live);
      }
    }

    method RecordInside(local: nat, book: Book)
      requires Valid() && inside && local == clock && inSegment && tradeStreamUp
      modifies `pending, `written, `minDeadline, `lastMid, `audits, `watchingRows, `placed, `nextSample, `history,
               `bookLive, `lastRecord, `shown, `inside, `faithful
      ensures Valid() && !inside && bookLive && lastRecord == local && shown == book
      ensures faithful == (old(faithful) && Showing(book))
      ensures faithful ==> history == old(history) + [Sample(local, book.MidX2())]
      ensures old(written) <= written && old(audits) <= audits
      ensures faithful ==> Vouched(audits, |old(audits)|, Audit(history, local, local, false))
      ensures placed == old(placed) + SamplesOn(book, old(nextSample), local, true, config.gridNs)
      ensures Traces(View()) == old(Traces(View())) + Borns(SamplesOn(book, old(nextSample), local, true, config.gridNs), book, config)
      ensures nextSample == NextFrom(old(nextSample), local, true, config.gridNs)
    {
      ghost var good := faithful && Showing(book);
      assert good ==> Within(View(), history, local, nextSample, config);
      Settle(local, book, good);
      LeaveInside(local, book, good);
    }

    /** The segment goes on. */
    method LeaveInside(local: nat, book: Book, ghost good: bool)
      requires Booked() && inSegment && local == clock && (good ==> Between(View(), history, local, nextSample, book, config))
      modifies `bookLive, `lastRecord, `shown, `inside, `faithful
      ensures Valid() && !inside && bookLive && lastRecord == local && shown == book && faithful == good
    {
      LeaveRecord(local, book, true, good);
    }

    method RecordEndsSegment(local: nat, book: Book, live: bool)
      requires Valid() && inside && local == clock && inSegment && !(live && tradeStreamUp)
      modifies `pending, `written, `audits, `watchingRows, `inSegment, `bookLive, `lastRecord, `shown, `inside, `faithful
      ensures Valid() && !inside && bookLive == live && lastRecord == local && shown == book && !inSegment
      ensures written == old(written) + old(pending) && old(audits) <= audits
      ensures old(faithful) ==> Vouched(audits, |old(audits)|, Audit(history, local, Before(local), true))
    {
      CloseSegment(local);
      LeaveRecord(local, book, live, false);
    }

    method RecordOutside(local: nat, book: Book, live: bool)
      requires Valid() && inside && local == clock && !inSegment && (book.valid ==> book.TwoSided())
      modifies `inSegment, `segmentStart, `pending, `watchingRows, `minDeadline, `lastMid, `nextSample, `history,
               `bookLive, `lastRecord, `shown, `inside, `faithful
      ensures Valid() && !inside && bookLive == live && lastRecord == local && shown == book && inSegment == (Usable() && book.valid)
      ensures inSegment ==> faithful && history == [Sample(local, book.MidX2())]
      ensures inSegment ==> nextSample == NextInstant(local, config.gridNs) && OnGrid(nextSample, config.gridNs)
      ensures !inSegment ==> history == old(history) && pending == old(pending)
      ensures inSegment ==> pending == []
    {
      if live && tradeStreamUp && book.valid {
        OpenSegment(local, book);
      }
      LeaveRecord(local, book, live, inSegment);
    }

    /** A segment opens on the first record that leaves both streams usable; its grid starts at the next
        grid instant. */
    method OpenSegment(local: nat, book: Book)
      requires Booked() && !inSegment && pending == [] && Showing(book)
      modifies `inSegment, `segmentStart, `pending, `watchingRows, `minDeadline, `lastMid, `nextSample, `history
      ensures Booked() && inSegment && pending == [] && history == [Sample(local, book.MidX2())]
      ensures nextSample == NextInstant(local, config.gridNs) && OnGrid(nextSample, config.gridNs)
      ensures Between(View(), history, local, nextSample, book, config)
    {
      inSegment := true;
      segmentStart := local;
      pending := [];
      watchingRows := 0;
      minDeadline := Never;
      lastMid := None;
      var remainder := local % config.gridNs;
      nextSample := if remainder == 0 then local else local + (config.gridNs - remainder);
      GridInstant(local, config.gridNs);
      history := [Sample(local, book.MidX2())];
      FreshSegment(View(), local, nextSample, book, config);
    }

    /** At the end of the input every sample ever placed has been written exactly once, in sample order. */
    method Finish()
      requires Valid() && !inside
      modifies `pending, `written, `watchingRows, `inSegment, `audits
      ensures Valid() && pending == [] && Stamps(written) == placed && written == old(written) + old(pending)
      ensures old(audits) <= audits && (old(inSegment) && faithful ==> Vouched(audits, |old(audits)|, Audit(history, clock, clock, true)))
    {
      CloseSegment(if lastRecord < segmentStart then segmentStart else lastRecord);
      assert Stamps(pending) == [];
    }
  }

  lemma NothingWatched(s: Resolver, watchingRows: int, placed: seq<nat>, c: Config)
    requires Counted(s, watchingRows, placed, c)
    ensures watchingRows == 0 ==> forall k | 0 <= k < |s.pending| :: !s.pending[k].watching
  {
    if watchingRows == 0 {
      NoneWatching(s.pending, |s.pending|);
    }
  }

  lemma ShownKeepsTraces(s: Resolver, now: nat, due: nat, book: Book, c: Config)
    requires AllShaped(s.pending, c)
    ensures Showing(book) ==> Traces(LazyCall(s, now, due, book.MidX2(), c)) == Traces(s)
  {
    if Showing(book) {
      CallKeepsTraces(s, now, due, book.MidX2(), c);
    }
  }
}
