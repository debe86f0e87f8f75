/** LevelLifecycleObserver (cpp/research/level_lifecycle.cpp:130-275, 300-536): the replay observer that
    follows the best level of each side and samples it on a grid. */
module LevelLifecycle {
  import opened Wrappers
  import opened OrderBooks
  import opened LevelEpisodes
  import opened LevelRows
  import opened Grids

  class LevelLifecycleObserver {
    const gridNs: nat
    const horizons: seq<nat>
    const widest: nat
    var levels: seq<Episode>
    var ended: seq<Ended>
    var pending: seq<Pending>
    var rows: seq<Row>
    var nextId: nat
    var inSegment: bool
    var segmentId: nat
    var segmentStart: nat
    var nextSample: nat
    var lastRecord: nat
    var bookLive: bool
    var tradeStreamUp: bool
    /** The prints of the open segment, what each emitted row is exact for, the stamp of the current
        record and whether stamps never went back; the book last shown, and whether the levels are
        known to mirror it. */
    ghost var prints: seq<Print>
    ghost var evidence: seq<Option<seq<Print>>>
    ghost var clock: nat
    ghost var ordered: bool
    ghost var shown: Book
    ghost var mirrored: bool
    ghost var noted: bool

    ghost predicate Levels()
      reads `levels, `ended, `nextId, `inSegment, `mirrored, `shown, `noted
    {
      gridNs > 0 && LevelsKept(levels, ended, nextId, inSegment, mirrored, shown, noted)
    }

    ghost predicate Labels()
      reads `pending, `rows, `evidence, `prints, `clock, `ordered, `nextSample, `inSegment
    {
      LabelsKept(View(), prints, clock, ordered, inSegment, horizons)
    }

    ghost predicate Valid()
      reads this
    {
      Levels() && Labels()
    }

    predicate Usable()
      reads `bookLive, `tradeStreamUp
    {
      bookLive && tradeStreamUp
    }

    ghost function View(): Samples
      reads `pending, `rows, `evidence, `nextSample
    {
      Samples(pending, rows, evidence, nextSample)
    }

    ghost function State(): Observer
      reads this
    {
      Observer(levels, ended, nextId, segmentId, inSegment, View(), prints, ordered, shown, mirrored)
    }

    constructor (gridNs: nat, horizons: seq<nat>, widest: nat)
      requires gridNs > 0
      ensures Valid() && !inSegment && ended == [] && rows == [] && pending == [] && !tradeStreamUp && nextId == 0 && segmentId == 0
      ensures this.gridNs == gridNs && this.horizons == horizons && this.widest == widest
    {
      this.gridNs, this.horizons, this.widest := gridNs, horizons, widest;
      var idle := Started(0, 0, 0, 0, 0).(active := false);
      levels := [idle, idle];
      ended, pending, rows, nextId := [], [], [], 0;
      inSegment, segmentId, segmentStart, nextSample, lastRecord := false, 0, 0, 0, 0;
      bookLive, tradeStreamUp := false, false;
      prints, evidence, clock, ordered, mirrored, noted := [], [], 0, false, false, false;
      shown := Book(false, Empty, Empty, 0);
    }

    /** A price that becomes the best on its side starts a new episode. */
    method StartEpisode(side: nat, price: int, qty: int, local: nat)
      requires side < 2 && |levels| == 2 && LevelsBalanced(levels) && nextId == |ended| + Running(levels) && !levels[side].active
      modifies `levels, `nextId
      ensures LevelsBalanced(levels) && nextId == |ended| + Running(levels)
      ensures levels == old(levels)[side := Started(nextId, segmentId, price, qty, local)] && nextId == old(nextId) + 1
    {
      nextId := nextId + 1;
      levels := levels[side := Started(nextId, segmentId, price, qty, local)];
    }

    method EndEpisode(side: nat, local: nat, reason: Reason)
      requires side < 2 && LevelsBalanced(levels) && EndedBalanced(ended) && nextId == |ended| + Running(levels)
      modifies `levels, `ended
      ensures LevelsBalanced(levels) && EndedBalanced(ended) && nextId == |ended| + Running(levels)
      ensures levels == old(levels)[side := old(levels)[side].(active := false)]
      ensures ended == if old(levels)[side].active then old(ended) + [Ended(old(levels)[side], local, reason)] else old(ended)
    {
      if !levels[side].active {
        assert levels[side] == levels[side].(active := false);
        return;
      }
      ended := ended + [Ended(levels[side], local, reason)];
      levels := levels[side := levels[side].(active := false)];
    }

    /** One side after an applied event: charge the old level, then decide whether it is still best. */
    method ChargeSide(side: nat, book: Book)
      requires side < 2 && LevelsBalanced(levels)
      modifies `levels
      ensures LevelsBalanced(levels) && levels == old(levels)[side := Charged(old(levels)[side], SideOf(side, book))]
    {
      ChargeKeepsBalance(levels[side], SideOf(side, book));
      levels := levels[side := Charged(levels[side], SideOf(side, book))];
    }

    method SettleSide(side: nat, local: nat, book: Book)
      requires side < 2 && LevelsBalanced(levels) && EndedBalanced(ended) && nextId == |ended| + Running(levels)
      modifies `levels, `ended, `nextId
      ensures LevelsBalanced(levels) && EndedBalanced(ended) && nextId == |ended| + Running(levels)
      ensures var was, s := old(levels)[side], SideOf(side, book);
              && levels == old(levels)[side := Settled(was, s, old(nextId) + 1, segmentId, local)]
              && ended == old(ended) + EndOf(was, side == BID, s, local)
              && nextId == old(nextId) + Born(was, s)
    {
      var s := SideOf(side, book);
      if s.Empty? {
        EndEpisode(side, local, SideEmpty);
        return;
      }
      if levels[side].active && levels[side].price == s.price {
        return;
      }
      if levels[side].active {
        EndEpisode(side, local, if Ahead(side == BID, levels[side].price, s.price) then SteppedAway else Improved);
      }
      StartEpisode(side, s.price, s.qty, local);
    }

    /** Both sides of an applied event on a valid book: charged first, settled after, bid before ask; and
        whatever the event did to the best levels, the active episodes mirror them again. */
    method ApplyEvent(local: nat, book: Book, ghost known: bool)
      requires LevelsBalanced(levels) && EndedBalanced(ended) && nextId == |ended| + Running(levels) && book.Sound() && book.TwoSided()
      requires known ==> shown.Sound() && MirrorBook(levels, shown) && Noted(levels, shown)
      modifies `levels, `ended, `nextId
      ensures LevelsBalanced(levels) && EndedBalanced(ended) && nextId == |ended| + Running(levels)
      ensures var bid, ask := Charged(old(levels)[BID], book.bids), Charged(old(levels)[ASK], book.asks);
              var born := Born(bid, book.bids);
              && levels == [Settled(bid, book.bids, old(nextId) + 1, segmentId, local),
                            Settled(ask, book.asks, old(nextId) + born + 1, segmentId, local)]
              && ended == old(ended) + EndOf(bid, true, book.bids, local) + EndOf(ask, false, book.asks, local)
              && nextId == old(nextId) + born + Born(ask, book.asks)
      ensures known ==> MirrorBook(levels, book)
    {
      ghost var was := levels;
      ChargeSide(BID, book);
      ChargeSide(ASK, book);
      SettleBoth(local, book);
      if known {
        EventMirrors(was[BID], shown.bids, true, book.bids, old(nextId) + 1, segmentId, local);
        EventMirrors(was[ASK], shown.asks, false, book.asks, old(nextId) + Born(Charged(was[BID], book.bids), book.bids) + 1, segmentId, local);
      }
    }

    method SettleBoth(local: nat, book: Book)
      requires LevelsBalanced(levels) && EndedBalanced(ended) && nextId == |ended| + Running(levels)
      modifies `levels, `ended, `nextId
      ensures LevelsBalanced(levels) && EndedBalanced(ended) && nextId == |ended| + Running(levels)
      ensures var bid, ask := old(levels)[BID], old(levels)[ASK];
              && levels == [Settled(bid, book.bids, old(nextId) + 1, segmentId, local),
                            Settled(ask, book.asks, old(nextId) + Born(bid, book.bids) + 1, segmentId, local)]
              && ended == old(ended) + EndOf(bid, true, book.bids, local) + EndOf(ask, false, book.asks, local)
              && nextId == old(nextId) + Born(bid, book.bids) + Born(ask, book.asks)
    {
      SettleSide(BID, local, book);
      SettleSide(ASK, local, book);
    }

    method BeforeDepthEvent(book: Book)
      requires Valid()
      modifies `levels, `mirrored, `noted
      ensures Valid() && mirrored == (old(mirrored) && book == shown) && noted == (inSegment && book.valid)
      ensures if inSegment && book.valid then |old(levels)| == 2 && Noted(levels, book) && levels == NotedLevels(old(levels), book)
              else levels == old(levels)
    {
      mirrored := mirrored && book == shown;
      if !inSegment || !book.valid {
        noted := false;
        return;
      }
      NoteLevels(book);
      noted := true;
    }

    method NoteLevels(book: Book)
      requires LevelsBalanced(levels)
      modifies `levels
      ensures LevelsBalanced(levels) && Noted(levels, book) && Running(levels) == old(Running(levels)) && levels == old(NotedLevels(levels, book))
      ensures forall b: Book :: old(MirrorBook(levels, b)) ==> MirrorBook(levels, b)
    {
      levels := [NotedLevel(levels[BID], book.bids), NotedLevel(levels[ASK], book.asks)];
    }

    method ForgetLevels()
      requires LevelsBalanced(levels)
      modifies `levels
      ensures LevelsBalanced(levels) && Running(levels) == old(Running(levels)) && levels == old(Forgotten(levels))
      ensures forall b: Book :: old(MirrorBook(levels, b)) ==> MirrorBook(levels, b)
    {
      levels := Forgotten(levels);
    }

    method AfterDepthEvent(local: nat, book: Book, applied: bool, live: bool)
      requires Valid() && book.Sound()
      modifies `bookLive, `levels, `ended, `nextId, `shown, `mirrored, `noted
      ensures Valid() && bookLive == live && inSegment == old(inSegment)
      ensures inSegment && applied && book.valid && old(mirrored) && old(noted) ==> mirrored && shown == book && MirrorBook(levels, book)
      ensures inSegment && applied && book.valid ==>
                var bid, ask := Charged(old(levels)[BID], book.bids), Charged(old(levels)[ASK], book.asks);
                && levels == [Settled(bid, book.bids, old(nextId) + 1, segmentId, local),
                              Settled(ask, book.asks, old(nextId) + Born(bid, book.bids) + 1, segmentId, local)]
                && ended == old(ended) + EndOf(bid, true, book.bids, local) + EndOf(ask, false, book.asks, local)
                && nextId == old(nextId) + Born(bid, book.bids) + Born(ask, book.asks)
      ensures inSegment && applied && !book.valid ==> levels == old(levels)
      ensures !(inSegment && applied && book.valid) ==> ended == old(ended) && nextId == old(nextId)
      ensures !(inSegment && applied) ==> mirrored == old(mirrored) && shown == old(shown) && levels == old(Forgotten(levels))
    {
      if !applied || !inSegment {
        ForgetLevels();
        noted := false;
      } else if book.valid {
        FollowEvent(local, book);
      } else {
        mirrored, noted := false, false;
      }
      bookLive := live;
    }

    method FollowEvent(local: nat, book: Book)
      requires Levels() && inSegment && book.Sound() && book.valid
      modifies `levels, `ended, `nextId, `shown, `mirrored, `noted
      ensures Levels() && (old(mirrored) && old(noted) ==> mirrored && shown == book && MirrorBook(levels, book))
      ensures var bid, ask := Charged(old(levels)[BID], book.bids), Charged(old(levels)[ASK], book.asks);
              && levels == [Settled(bid, book.bids, old(nextId) + 1, segmentId, local),
                            Settled(ask, book.asks, old(nextId) + Born(bid, book.bids) + 1, segmentId, local)]
              && ended == old(ended) + EndOf(bid, true, book.bids, local) + EndOf(ask, false, book.asks, local)
              && nextId == old(nextId) + Born(bid, book.bids) + Born(ask, book.asks)
    {
      ghost var known := mirrored && noted;
      ApplyEvent(local, book, known);
      mirrored, noted, shown := known, false, book;
    }

    /** A print reaches the episode its aggressor can hit, then every pending sample on that side. */
    method OnTrade(t: Print, live: bool)
      requires Valid() && t.qty >= 0 && t.ns == clock
      modifies `bookLive, `levels, `pending, `prints
      ensures Valid() && bookLive == live && prints == if inSegment then old(prints) + [t] else old(prints)
      ensures inSegment ==> levels == old(levels)[(if t.aggressiveBuy then ASK else BID) :=
                ApplyPrint(old(levels)[if t.aggressiveBuy then ASK else BID], !t.aggressiveBuy, t)]
      ensures inSegment ==> |pending| == |old(pending)| && forall k | 0 <= k < |pending| :: pending[k] == Observe(old(pending)[k], t, horizons)
      ensures !inSegment ==> levels == old(levels) && pending == old(pending)
    {
      if inSegment {
        PrintLevel(t);
        ObserveAll(t);
      }
      bookLive := live;
    }

    method PrintLevel(t: Print)
      requires Levels() && inSegment && t.qty >= 0
      modifies `levels
      ensures Levels()
      ensures levels == old(levels)[(if t.aggressiveBuy then ASK else BID) :=
                ApplyPrint(old(levels)[if t.aggressiveBuy then ASK else BID], !t.aggressiveBuy, t)]
    {
      var side := if t.aggressiveBuy then ASK else BID;
      if levels[side].active {
        PrintKeepsBalance(levels[side], !t.aggressiveBuy, t);
      }
      levels := levels[side := ApplyPrint(levels[side], !t.aggressiveBuy, t)];
    }

    method ObserveAll(t: Print)
      requires Shaped(pending, horizons) && (ordered ==> AllLabelled(pending, prints, horizons))
      modifies `pending, `prints
      ensures Shaped(pending, horizons) && (ordered ==> AllLabelled(pending, prints, horizons))
      ensures prints == old(prints) + [t] && |pending| == |old(pending)|
      ensures forall k | 0 <= k < |pending| :: pending[k] == Observe(old(pending)[k], t, horizons)
    {
      var k := 0;
      ghost var was := pending;
      while k < |pending|
        invariant 0 <= k <= |pending| == |was| && prints == old(prints)
        invariant Shaped(was, horizons) && Shaped(pending, horizons)
        invariant forall j | 0 <= j < |was| :: pending[j] == if j < k then Observe(was[j], t, horizons) else was[j]
        invariant ordered ==> forall j {:trigger Observe(was[j], t, horizons)} | 0 <= j < k ::
                    Labelled(Observe(was[j], t, horizons), prints + [t], horizons)
      {
        if ordered {
          assert Labelled(was[k], prints, horizons);
          ObserveKeepsLabels(was[k], prints, t, horizons);
        }
        pending := pending[k := Observe(pending[k], t, horizons)];
        k := k + 1;
      }
      prints := prints + [t];
    }

    /** Samples leave from the front once the widest horizon has passed, or all at once at a segment edge. */
    method Retire(local: nat, force: bool)
      requires Labels() && inSegment
      modifies `pending, `rows, `evidence
      ensures Labels()
      ensures View() == if force then Cut(old(View()), ordered, prints, local)
                        else Left(old(View()), Passed(old(pending), widest, local, 0), 0, ordered, prints)
    {
      ghost var k, was := 0, View();
      while pending != [] && (force || local >= pending[0].ns + widest)
        invariant Labels() && k <= |was.pending| && View() == Left(was, k, if force then local else 0, ordered, prints)
        invariant force || Passed(was.pending, widest, local, 0) == Passed(was.pending, widest, local, k)
        decreases |pending|
      {
        LeftOneMore(was, k, if force then local else 0, ordered, prints);
        EmitFront(if force then local else 0);
        k := k + 1;
      }
    }

    method EmitFront(edge: nat)
      requires Labels() && inSegment && pending != []
      modifies `pending, `rows, `evidence
      ensures Labels() && pending == old(pending)[1..] && rows == old(rows) + [Row(old(pending)[0], edge)]
      ensures evidence == old(evidence) + [if ordered then Some(prints) else None]
    {
      if ordered {
        assert Labelled(pending[0], prints, horizons);
      }
      rows := rows + [Row(pending[0], edge)];
      evidence := evidence + [if ordered then Some(prints) else None];
      pending := pending[1..];
    }

    /** One grid row per active level, when the book is usable. */
    method EmitGridRow(sample: nat, book: Book)
      requires Labels() && inSegment && |levels| == 2 && (ordered ==> PrintsBy(prints, sample))
      modifies `pending
      ensures Labels() && pending == old(pending) + if book.valid then SamplesAt(levels, sample, horizons) else []
    {
      if !book.valid {
        return;
      }
      SampleLevel(BID, sample);
      SampleLevel(ASK, sample);
    }

    method SampleLevel(side: nat, sample: nat)
      requires Labels() && inSegment && side < 2 == |levels| && (ordered ==> PrintsBy(prints, sample))
      modifies `pending
      ensures Labels()
      ensures pending == if levels[side].active
                then old(pending) + [Sampled(sample, side == BID, levels[side], horizons)] else old(pending)
    {
      if levels[side].active {
        if ordered {
          SampledIsLabelled(sample, side == BID, levels[side], horizons, prints);
        }
        pending := pending + [Sampled(sample, side == BID, levels[side], horizons)];
      }
    }

    method AdvanceGrid(local: nat, inclusive: bool, book: Book)
      requires Labels() && inSegment && |levels| == 2 && gridNs > 0
      modifies `pending, `nextSample
      ensures Labels() && View() == Advanced(old(View()), levels, local, inclusive, book, gridNs, horizons)
    {
      while nextSample < local || (inclusive && nextSample == local)
        invariant Labels()
        invariant Advanced(View(), levels, local, inclusive, book, gridNs, horizons)
               == Advanced(old(View()), levels, local, inclusive, book, gridNs, horizons)
        decreases local + 1 - nextSample
      {
        AdvancedStep(View(), levels, local, inclusive, book, gridNs, horizons);
        SampleInstant(book);
      }
      AdvancedStep(View(), levels, local, inclusive, book, gridNs, horizons);
    }

    method SampleInstant(book: Book)
      requires Labels() && inSegment && |levels| == 2
      modifies `pending, `nextSample
      ensures Labels() && nextSample == old(nextSample) + gridNs
      ensures pending == old(pending) + if book.valid then SamplesAt(levels, old(nextSample), horizons) else []
    {
      EmitGridRow(nextSample, book);
      nextSample := nextSample + gridNs;
    }

    method RetireAndSample(local: nat, inclusive: bool, book: Book)
      requires Labels() && inSegment && |levels| == 2 && gridNs > 0
      modifies `pending, `rows, `evidence, `nextSample
      ensures Labels() && nextSample >= local
      ensures View() == Stepped(old(View()), levels, ordered, prints, local, inclusive, book, gridNs, horizons, widest)
    {
      Retire(local, false);
      AdvanceGrid(local, inclusive, book);
    }

    /** Before a record: samples that have seen their widest horizon leave, and the grid instants before
        its stamp are sampled on the levels as the record found them. */
    method BeforeRecord(local: nat, book: Book, live: bool)
      requires Valid()
      modifies `bookLive, `pending, `rows, `evidence, `nextSample, `clock, `ordered
      ensures Valid() && bookLive == live && clock == local && ordered == (old(ordered) && old(clock) <= local && Usable())
      ensures gridNs > 0 && |levels| == 2
      ensures View() == if inSegment && Usable()
                then Stepped(old(View()), levels, old(ordered), prints, local, false, book, gridNs, horizons, widest) else old(View())
    {
      if inSegment && live && tradeStreamUp {
        ArriveInside(local, book);
      } else {
        ArriveOutside(local, live);
      }
    }

    method ArriveInside(local: nat, book: Book)
      requires Valid() && inSegment
      modifies `bookLive, `pending, `rows, `evidence, `nextSample, `clock, `ordered
      ensures Valid() && bookLive && gridNs > 0 && |levels| == 2
      ensures clock == local && ordered == (old(ordered) && old(clock) <= local)
      ensures View() == Stepped(old(View()), levels, old(ordered), prints, local, false, book, gridNs, horizons, widest)
    {
      RetireAndSample(local, false, book);
      Arrive(local, ordered && clock <= local);
      bookLive := true;
    }

    method ArriveOutside(local: nat, live: bool)
      requires Valid() && !(inSegment && live && tradeStreamUp)
      modifies `bookLive, `clock, `ordered
      ensures Valid() && bookLive == live && clock == local && ordered == (old(ordered) && old(clock) <= local && Usable())
    {
      Arrive(local, ordered && clock <= local && live && tradeStreamUp);
      bookLive := live;
    }

    ghost method Arrive(local: nat, still: bool)
      requires Labels() && (inSegment && still ==> ordered && clock <= local <= nextSample)
      modifies `clock, `ordered
      ensures Labels() && clock == local && ordered == still
    {
      clock, ordered := local, still;
    }

    method OnConnection(tradeStream: bool, open: bool)
      requires Valid()
      modifies `tradeStreamUp
      ensures Valid() && tradeStreamUp == if tradeStream then open else old(tradeStreamUp)
    {
      if tradeStream {
        tradeStreamUp := open;
      }
    }

    method AfterSnapshot(local: nat, live: bool)
      requires Valid()
      modifies `bookLive, `levels, `ended, `pending, `rows, `evidence, `inSegment
      ensures Valid() && !inSegment && bookLive == live && View() == Cut(old(View()), ordered, prints, local)
      ensures |old(levels)| == 2 && ended == old(ended) + EndsOf(old(levels), local, Resynchronized) && |levels| == 2
      ensures !old(inSegment) ==> ended == old(ended)
    {
      CloseSegment(local, Resynchronized);
      bookLive := live;
    }

    /** At a segment edge every sample leaves, marked with the edge, and both episodes end. */
    method CloseSegment(local: nat, reason: Reason)
      requires Valid()
      modifies `levels, `ended, `pending, `rows, `evidence, `inSegment
      ensures Valid() && !inSegment && (!old(inSegment) ==> ended == old(ended))
      ensures View() == Cut(old(View()), ordered, prints, local)
      ensures |old(levels)| == 2 && ended == old(ended) + EndsOf(old(levels), local, reason) && levels == Idle(old(levels))
    {
      if !inSegment {
        return;
      }
      Retire(local, true);
      EndBoth(local, reason);
      inSegment := false;
    }

    method EndBoth(local: nat, reason: Reason)
      requires LevelsBalanced(levels) && EndedBalanced(ended) && nextId == |ended| + Running(levels)
      modifies `levels, `ended
      ensures LevelsBalanced(levels) && EndedBalanced(ended) && nextId == |ended| && Running(levels) == 0
      ensures |old(levels)| == 2 && ended == old(ended) + EndsOf(old(levels), local, reason) && levels == Idle(old(levels))
    {
      EndEpisode(BID, local, reason);
      EndEpisode(ASK, local, reason);
    }

    /** A segment starts with one episode per side of a usable book, on the next grid instant. */
    method OpenSegment(local: nat, book: Book)
      requires Valid() && !inSegment && book.Sound() && book.valid && local == clock
      modifies `inSegment, `segmentId, `segmentStart, `pending, `nextSample, `levels, `nextId, `prints, `ordered, `shown, `mirrored, `noted
      ensures Valid() && inSegment && mirrored && shown == book && ordered && segmentId == old(segmentId) + 1 && pending == []
      ensures prints == [] && nextId == old(nextId) + 2 && segmentStart == local
      ensures nextSample == NextInstant(local, gridNs)
      ensures book.TwoSided() && levels == FirstLevels(old(nextId), segmentId, book, local)
    {
      segmentId, segmentStart := segmentId + 1, local;
      OpenGrid(local);
      StartBoth(local, book);
    }

    /** The grid starts at the next grid instant, with nothing pending. */
    method OpenGrid(local: nat)
      requires Labels() && gridNs > 0 && local == clock
      modifies `inSegment, `pending, `nextSample, `prints, `ordered
      ensures Labels() && inSegment && ordered && pending == [] && prints == [] && nextSample == NextInstant(local, gridNs)
    {
      pending := [];
      var remainder := local % gridNs;
      nextSample := if remainder == 0 then local else local + (gridNs - remainder);
      prints, ordered, inSegment := [], true, true;
    }

    method StartBoth(local: nat, book: Book)
      requires gridNs > 0 && LevelsBalanced(levels) && EndedBalanced(ended) && inSegment
      requires nextId == |ended| + Running(levels) && Running(levels) == 0 && book.Sound() && book.valid
      modifies `levels, `nextId, `shown, `mirrored, `noted
      ensures Levels() && mirrored && shown == book && nextId == old(nextId) + 2
      ensures book.TwoSided() && levels == FirstLevels(old(nextId), segmentId, book, local)
    {
      StartEpisode(BID, book.bids.price, book.bids.qty, local);
      StartEpisode(ASK, book.asks.price, book.asks.qty, local);
      shown, mirrored, noted := book, true, false;
    }

    /** After a record an open segment goes on or ends, and a usable book opens a new one. */
    method AfterRecord(local: nat, book: Book, live: bool)
      requires Valid() && local == clock && book.Sound()
      modifies `bookLive, `lastRecord, `inSegment, `segmentId, `segmentStart, `levels, `ended, `nextId, `pending, `rows,
               `nextSample, `prints, `evidence, `ordered, `shown, `mirrored, `noted
      ensures Valid() && bookLive == live && lastRecord == local && gridNs > 0 && |old(levels)| == 2
      ensures State() == Concluded(old(State()), local, book, Usable(), gridNs, horizons, widest)
      ensures segmentStart == if !old(inSegment) && inSegment then local else old(segmentStart)
    {
      bookLive, lastRecord := live, local;
      if inSegment {
        RecordInside(local, book);
      } else {
        RecordOutside(local, book);
      }
    }

    method RecordInside(local: nat, book: Book)
      requires Valid() && inSegment && book.Sound()
      modifies `inSegment, `levels, `ended, `pending, `rows, `nextSample, `evidence
      ensures Valid() && gridNs > 0 && |old(levels)| == 2
      ensures State() == Concluded(old(State()), local, book, Usable(), gridNs, horizons, widest)
    {
      if Usable() {
        RetireAndSample(local, true, book);
      } else {
        CloseSegment(local, SegmentEnd);
      }
    }

    method RecordOutside(local: nat, book: Book)
      requires Valid() && !inSegment && local == clock && book.Sound()
      modifies `inSegment, `segmentId, `segmentStart, `levels, `nextId, `pending,
               `nextSample, `prints, `ordered, `shown, `mirrored, `noted
      ensures Valid() && gridNs > 0 && |old(levels)| == 2
      ensures State() == Concluded(old(State()), local, book, Usable(), gridNs, horizons, widest)
      ensures segmentStart == if inSegment then local else old(segmentStart)
    {
      if Usable() && book.valid {
        OpenAndSample(local, book);
      }
    }

    /** A segment that has just been opened on a book. */
    ghost predicate Opened(book: Book)
      reads `mirrored, `shown, `ordered, `prints
    {
      book.TwoSided() && mirrored && shown == book && ordered && prints == []
    }

    /** The record that opens a segment is sampled when it falls on the grid. */
    method OpenAndSample(local: nat, book: Book)
      requires Valid() && !inSegment && book.Sound() && book.valid && local == clock
      modifies `inSegment, `segmentId, `segmentStart, `pending, `nextSample, `levels, `nextId, `prints, `ordered, `shown, `mirrored, `noted
      ensures segmentId == old(segmentId) + 1 && nextId == old(nextId) + 2 && segmentStart == local
      ensures Valid() && inSegment && Opened(book) && levels == FirstLevels(old(nextId), segmentId, book, local)
      ensures View() == Fresh(old(View()), levels, local, gridNs, horizons)
    {
      OpenSegment(local, book);
      AdvanceGrid(local, true, book);
    }

    /** At the end every episode ever started has ended exactly once, with balanced books. */
    method Finish()
      requires Valid()
      modifies `levels, `ended, `pending, `rows, `evidence, `inSegment
      ensures Valid() && pending == [] && |ended| == nextId && EndedBalanced(ended)
      ensures var edge := if lastRecord < segmentStart then segmentStart else lastRecord;
              && View() == Cut(old(View()), ordered, prints, edge)
              && |old(levels)| == 2 && ended == old(ended) + EndsOf(old(levels), edge, EndOfInput) && (!old(inSegment) ==> ended == old(ended))
    {
      CloseSegment(if lastRecord < segmentStart then segmentStart else lastRecord, EndOfInput);
    }
  }
}
