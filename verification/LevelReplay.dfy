/** A whole replay seen by the level observer (cpp/replay/event_replayer.cpp:142-315,
    cpp/research/level_lifecycle.cpp:214-275, 300-540): every callback in the order the replay loop makes
    it, over any sequence of records. */
module LevelReplay {
  import opened OrderBooks
  import opened LevelEpisodes
  import opened LevelRows
  import opened LevelStretches
  import opened LevelSampling
  import opened LevelLifecycle
  import opened Grids
  import opened GridRuns
  import opened Replays

  /** The episodes between two records: those over by then, those numbered, and in an open segment the
      current ones. */
  ghost predicate Ledger(o: Observer, rs: seq<Record>, n: nat)
    requires n <= |rs|
  {
    && o.inSegment == Open(rs, n) && o.ended == EndedBy(rs, n) && o.nextId == Numbered(rs, n) && o.segmentId == SegmentsBy(rs, n, HABITS)
    && |o.levels| == 2 && (o.inSegment ==> n > 0 && o.levels == LevelsAt(rs, n))
  }

  /** A level once record i has been told, and before it is concluded. */
  ghost function After(rs: seq<Record>, i: nat, bid: bool): Episode
    requires 0 < i < |rs|
  {
    if Survives(rs, i, HABITS) then EpisodeAt(rs, i + 1, bid) else Touched(EpisodeAt(rs, i, bid), rs[i], bid, BookBefore(rs, i))
  }

  ghost predicate LedgerTold(o: Observer, rs: seq<Record>, i: nat)
    requires i < |rs|
  {
    && o.inSegment == (Open(rs, i) && !Cuts(rs[i].event, HABITS)) && o.segmentId == SegmentsBy(rs, i, HABITS)
    && o.ended == EndedBy(rs, i) + (if Survives(rs, i, HABITS) || Cuts(rs[i].event, HABITS) then EndingAt(rs, i) else [])
    && o.nextId == Numbered(rs, i) + (if Survives(rs, i, HABITS) then Count(rs, i, true) + Count(rs, i, false) else 0)
    && |o.levels| == 2 && (o.inSegment ==> i > 0 && o.levels == [After(rs, i, true), After(rs, i, false)])
  }

  /** What an event that neither displaces a level nor ends the segment leaves behind: levels touched, */
  ghost predicate QuietLevels(o: Observer, p: Observer, rs: seq<Record>, i: nat)
    requires i < |rs|
  {
    && !Cuts(rs[i].event, HABITS) && !(Applies(rs[i]) && o.inSegment) && p.inSegment == o.inSegment && p.ordered == o.ordered
    && p.ended == o.ended && p.nextId == o.nextId && p.segmentId == o.segmentId && |p.levels| == |o.levels| == 2
    && (o.inSegment ==> p.levels == [Touched(o.levels[BID], rs[i], true, BookBefore(rs, i)), Touched(o.levels[ASK], rs[i], false, BookBefore(rs, i))])
  }

  /** and samples that are still the same ones. */
  ghost predicate QuietSamples(o: Observer, p: Observer, rs: seq<Record>, i: nat)
    requires i < |rs|
  {
    && p.prints == o.prints + (if o.inSegment && rs[i].event.Trade? then [PrintOf(rs[i])] else [])
    && p.samples == o.samples.(pending := p.samples.pending) && |p.samples.pending| == |o.samples.pending|
    && forall k | 0 <= k < |o.samples.pending| :: SameSample(o.samples.pending[k], p.samples.pending[k])
  }

  ghost predicate QuietDepth(o: Observer, p: Observer, rs: seq<Record>, i: nat)
    requires i < |rs|
  {
    QuietLevels(o, p, rs, i) && p.samples == o.samples && p.prints == o.prints
  }

  /** What an applied event does. */
  ghost predicate AppliedEvent(o: Observer, p: Observer, rs: seq<Record>, i: nat)
    requires i < |rs|
  {
    && |o.levels| == 2 && p.inSegment == o.inSegment && p.segmentId == o.segmentId && p.ordered == o.ordered
    && p.samples == o.samples && p.prints == o.prints
    && var bid, ask := Touched(o.levels[BID], rs[i], true, BookBefore(rs, i)), Touched(o.levels[ASK], rs[i], false, BookBefore(rs, i));
       && p.levels == [Settled(bid, rs[i].book.bids, o.nextId + 1, o.segmentId, rs[i].local),
                       Settled(ask, rs[i].book.asks, o.nextId + Born(bid, rs[i].book.bids) + 1, o.segmentId, rs[i].local)]
       && p.ended == o.ended + EndOf(bid, true, rs[i].book.bids, rs[i].local) + EndOf(ask, false, rs[i].book.asks, rs[i].local)
       && p.nextId == o.nextId + Born(bid, rs[i].book.bids) + Born(ask, rs[i].book.asks)
  }

  /** An event that neither displaces a level nor ends the segment. */
  lemma ToldQuiet(o: Observer, p: Observer, rs: seq<Record>, i: nat)
    requires i < |rs| && Sound(rs) && Ledger(o, rs, i) && QuietLevels(o, p, rs, i)
    ensures LedgerTold(p, rs, i)
  {
    if Survives(rs, i, HABITS) {
      OpenShows(rs, i);
      OpenShows(rs, i + 1);
      assert rs[i].book == rs[i - 1].book;
      EpisodeGoesOn(rs, i + 1, true);
      EpisodeGoesOn(rs, i + 1, false);
    }
  }

  lemma AppliedSurvives(rs: seq<Record>, i: nat)
    requires 0 < i < |rs| && Sound(rs) && Open(rs, i) && Applies(rs[i])
    ensures Survives(rs, i, HABITS) && rs[i].book.TwoSided() && rs[i - 1].book.TwoSided()
  {
    OpenShows(rs, i);
    OpenShows(rs, i + 1);
  }

  /** An applied event, side by side: the level charged, and if its price is no longer best, over and
      followed by the next. */
  ghost predicate SideTold(c: Episode, rs: seq<Record>, i: nat, bid: bool)
    requires 0 < i < |rs|
  {
    var s := Best(bid, rs[i].book);
    && Born(c, s) == Count(rs, i, bid)
    && Settled(c, s, Numbered(rs, i) + 1 + (if bid then 0 else Count(rs, i, true)), SegmentsBy(rs, i, HABITS), rs[i].local)
       == EpisodeAt(rs, i + 1, bid)
    && EndOf(c, bid, s, rs[i].local) == if EndsOn(rs, i, bid).Some? then [EndsOn(rs, i, bid).value] else []
  }

  lemma SideApplied(rs: seq<Record>, i: nat, bid: bool)
    requires 0 < i < |rs| && Sound(rs) && Open(rs, i) && Applies(rs[i])
    ensures SideTold(Touched(EpisodeAt(rs, i, bid), rs[i], bid, BookBefore(rs, i)), rs, i, bid)
  {
    AppliedSurvives(rs, i);
    EpisodeShows(rs, i, bid);
    var e := EpisodeAt(rs, i, bid);
    ChargedShows(e, rs[i], bid, rs[i - 1].book);
    if Displaces(rs, i, bid) {
      EpisodeStarts(rs, i + 1, bid);
    } else {
      EpisodeGoesOn(rs, i + 1, bid);
    }
  }

  lemma ChargedShows(e: Episode, r: Record, bid: bool, before: Book)
    requires Applies(r) && e.active
    ensures var c := Touched(e, r, bid, before); c.active && c.price == e.price
  {
  }

  lemma ToldApplied(o: Observer, p: Observer, rs: seq<Record>, i: nat)
    requires i < |rs| && Sound(rs) && Ledger(o, rs, i) && Applies(rs[i]) && o.inSegment && AppliedEvent(o, p, rs, i)
    ensures LedgerTold(p, rs, i)
  {
    AppliedSurvives(rs, i);
    SideApplied(rs, i, true);
    SideApplied(rs, i, false);
    BothTold(o, p, o.levels[BID], o.levels[ASK], rs, i);
  }

  lemma {:induction false} BothTold(o: Observer, p: Observer, b: Episode, a: Episode, rs: seq<Record>, i: nat)
    requires 0 < i < |rs| && AppliedEvent(o, p, rs, i) && b == o.levels[BID] && a == o.levels[ASK] && o.nextId == Numbered(rs, i)
    requires SideTold(Touched(b, rs[i], true, BookBefore(rs, i)), rs, i, true) && SideTold(Touched(a, rs[i], false, BookBefore(rs, i)), rs, i, false)
    requires o.segmentId == SegmentsBy(rs, i, HABITS)
    ensures p.levels == LevelsAt(rs, i + 1) && p.ended == o.ended + EndingAt(rs, i)
    ensures p.nextId == o.nextId + (Count(rs, i, true) + Count(rs, i, false))
  {
    var bid, ask := Touched(b, rs[i], true, BookBefore(rs, i)), Touched(a, rs[i], false, BookBefore(rs, i));
    BothEnd(o.ended, EndOf(bid, true, rs[i].book.bids, rs[i].local), EndOf(ask, false, rs[i].book.asks, rs[i].local), rs, i);
  }

  lemma BothEnd(ended: seq<Ended>, bid: seq<Ended>, ask: seq<Ended>, rs: seq<Record>, i: nat)
    requires i < |rs| && bid == (if EndsOn(rs, i, true).Some? then [EndsOn(rs, i, true).value] else [])
    requires ask == if EndsOn(rs, i, false).Some? then [EndsOn(rs, i, false).value] else []
    ensures ended + bid + ask == ended + EndingAt(rs, i)
  {
    Regroup(ended, bid, ask);
  }

  /** A snapshot ends both episodes and takes every sample. */
  ghost predicate SnapshotEvent(o: Observer, p: Observer, rs: seq<Record>, i: nat)
    requires i < |rs|
  {
    && rs[i].event.Snapshot? && !p.inSegment && p.nextId == o.nextId && p.segmentId == o.segmentId && |p.levels| == |o.levels| == 2
    && p.ended == o.ended + (if o.inSegment then EndsOf(o.levels, rs[i].local, Resynchronized) else [])
    && p.samples == Cut(o.samples, o.ordered, o.prints, rs[i].local)
  }

  lemma ToldSnapshot(o: Observer, p: Observer, rs: seq<Record>, i: nat)
    requires i < |rs| && Sound(rs) && Ledger(o, rs, i) && SnapshotEvent(o, p, rs, i)
    ensures LedgerTold(p, rs, i)
  {
    if o.inSegment {
      EpisodeShows(rs, i, true);
      EpisodeShows(rs, i, false);
      assert EndsOf(o.levels, rs[i].local, Resynchronized) == EndingAt(rs, i);
    }
  }

  /** The episodes a segment starts with. */
  lemma FirstAreLevels(o: Observer, rs: seq<Record>, i: nat)
    requires i < |rs| && LedgerTold(o, rs, i) && !o.inSegment && Open(rs, i + 1) && rs[i].book.TwoSided()
    ensures FirstLevels(o.nextId, o.segmentId + 1, rs[i].book, rs[i].local) == LevelsAt(rs, i + 1)
  {
    EpisodeStarts(rs, i + 1, true);
    EpisodeStarts(rs, i + 1, false);
  }

  /** Concluding a record: its segment goes on, */
  lemma GoesOn(o: Observer, rs: seq<Record>, i: nat, samples: Samples)
    requires i < |rs| && Sound(rs) && LedgerTold(o, rs, i) && o.inSegment && Open(rs, i + 1)
    ensures Ledger(o.(samples := samples), rs, i + 1)
  {
  }

  /** ends, */
  lemma Ends(o: Observer, rs: seq<Record>, i: nat, samples: Samples)
    requires i < |rs| && Sound(rs) && LedgerTold(o, rs, i) && o.inSegment && !Open(rs, i + 1)
    ensures Ledger(o.(inSegment := false, samples := samples, levels := Idle(o.levels),
                      ended := o.ended + EndsOf(o.levels, rs[i].local, SegmentEnd)), rs, i + 1)
  {
    EpisodeShows(rs, i, true);
    EpisodeShows(rs, i, false);
    assert EndsOf(o.levels, rs[i].local, SegmentEnd) == EndingAt(rs, i);
  }

  /** or starts. */
  lemma Begins(o: Observer, rs: seq<Record>, i: nat, step: nat, horizons: seq<nat>, widest: nat)
    requires step > 0 && i < |rs| && Sound(rs) && LedgerTold(o, rs, i) && !o.inSegment && Open(rs, i + 1) && rs[i].book.valid && rs[i].book.TwoSided()
    ensures Ledger(Concluded(o, rs[i].local, rs[i].book, true, step, horizons, widest), rs, i + 1)
  {
    FirstAreLevels(o, rs, i);
  }

  lemma ConcludedLedger(o: Observer, rs: seq<Record>, i: nat, step: nat, horizons: seq<nat>, widest: nat)
    requires step > 0 && i < |rs| && Sound(rs) && LedgerTold(o, rs, i) && Readable(rs[i])
    ensures Ledger(Concluded(o, rs[i].local, rs[i].book, Open(rs, i + 1), step, horizons, widest), rs, i + 1)
  {
    var local := rs[i].local;
    if o.inSegment && Open(rs, i + 1) {
      GoesOn(o, rs, i, Stepped(o.samples, o.levels, o.ordered, o.prints, local, true, rs[i].book, step, horizons, widest));
    } else if o.inSegment {
      Ends(o, rs, i, Cut(o.samples, o.ordered, o.prints, local));
    } else if Open(rs, i + 1) {
      OpenShows(rs, i + 1);
      Begins(o, rs, i, step, horizons, widest);
    }
  }

  /** And at the end of the input. */
  lemma LastLedger(o: Observer, rs: seq<Record>, edge: nat)
    requires Sound(rs) && Ledger(o, rs, |rs|) && (o.inSegment ==> edge == rs[|rs| - 1].local)
    ensures o.ended + (if o.inSegment then EndsOf(o.levels, edge, EndOfInput) else []) == AllEpisodes(rs)
  {
    if o.inSegment {
      EpisodeShows(rs, |rs|, true);
      EpisodeShows(rs, |rs|, false);
    }
  }

  /** Which instants and sides have been sampled, written or not. */
  ghost function Keys(ps: seq<Pending>): (ks: seq<(nat, bool)>)
    ensures |ks| == |ps| && forall k | 0 <= k < |ps| :: ks[k] == (ps[k].ns, ps[k].bid)
  {
    seq(|ps|, k requires 0 <= k < |ps| => (ps[k].ns, ps[k].bid))
  }

  ghost function RowKeys(rows: seq<Row>): (ks: seq<(nat, bool)>)
    ensures |ks| == |rows| && forall k | 0 <= k < |rows| :: ks[k] == (rows[k].pending.ns, rows[k].pending.bid)
  {
    seq(|rows|, k requires 0 <= k < |rows| => (rows[k].pending.ns, rows[k].pending.bid))
  }

  lemma KeysJoin(a: seq<Pending>, b: seq<Pending>)
    ensures Keys(a + b) == Keys(a) + Keys(b)
  {
  }

  lemma SampleKeys(levels: seq<Episode>, next: nat, horizons: seq<nat>)
    requires |levels| == 2 && levels[BID].active && levels[ASK].active
    ensures Keys(SamplesAt(levels, next, horizons)) == [(next, true), (next, false)]
  {
  }

  lemma {:induction false} DueArePairs(levels: seq<Episode>, next: nat, local: nat, inclusive: bool, step: nat, horizons: seq<nat>)
    requires step > 0 && |levels| == 2 && levels[BID].active && levels[ASK].active
    ensures Keys(DueSamples(levels, next, local, inclusive, step, horizons)) == PairsAt(Instants(next, local, inclusive, step))
    decreases local + 1 - next
  {
    if next < local || (inclusive && next == local) {
      DueArePairs(levels, next + step, local, inclusive, step, horizons);
      var due := DueSamples(levels, next + step, local, inclusive, step, horizons);
      KeysJoin(SamplesAt(levels, next, horizons), due);
      SampleKeys(levels, next, horizons);
      PairsHead(next, Instants(next + step, local, inclusive, step));
    }
  }

  lemma StepKeys(s: Samples, levels: seq<Episode>, exact: bool, prints: seq<Print>, local: nat, inclusive: bool, book: Book, step: nat,
                 horizons: seq<nat>, widest: nat, was: seq<nat>)
    requires step > 0 && |levels| == 2 && levels[BID].active && levels[ASK].active && book.valid
    requires RowKeys(s.rows) + Keys(s.pending) == PairsAt(was)
    ensures var t := Stepped(s, levels, exact, prints, local, inclusive, book, step, horizons, widest);
            RowKeys(t.rows) + Keys(t.pending) == PairsAt(was + Instants(s.next, local, inclusive, step))
  {
    var l := Left(s, Passed(s.pending, widest, local, 0), 0, exact, prints);
    LeftKeys(s, Passed(s.pending, widest, local, 0), 0, exact, prints);
    AdvanceKeys(l, levels, local, inclusive, book, step, horizons, was);
  }

  lemma LeftKeys(s: Samples, k: nat, edge: nat, exact: bool, prints: seq<Print>)
    requires k <= |s.pending|
    ensures var l := Left(s, k, edge, exact, prints); RowKeys(l.rows) + Keys(l.pending) == RowKeys(s.rows) + Keys(s.pending)
  {
  }

  lemma AdvanceKeys(s: Samples, levels: seq<Episode>, local: nat, inclusive: bool, book: Book, step: nat, horizons: seq<nat>, was: seq<nat>)
    requires step > 0 && |levels| == 2 && levels[BID].active && levels[ASK].active && book.valid
    requires RowKeys(s.rows) + Keys(s.pending) == PairsAt(was)
    ensures var t := Advanced(s, levels, local, inclusive, book, step, horizons);
            RowKeys(t.rows) + Keys(t.pending) == PairsAt(was + Instants(s.next, local, inclusive, step))
  {
    var due := DueSamples(levels, s.next, local, inclusive, step, horizons);
    DueArePairs(levels, s.next, local, inclusive, step, horizons);
    PairsJoin(was, Instants(s.next, local, inclusive, step));
    KeysJoin(s.pending, due);
    Regroup(RowKeys(s.rows), Keys(s.pending), Keys(due));
  }

  lemma FreshKeys(s: Samples, levels: seq<Episode>, local: nat, book: Book, step: nat, horizons: seq<nat>, was: seq<nat>)
    requires step > 0 && |levels| == 2 && levels[BID].active && levels[ASK].active && book.valid && s.pending == []
    requires RowKeys(s.rows) + Keys(s.pending) == PairsAt(was)
    ensures var t, first := Fresh(s, levels, local, step, horizons), NextInstant(local, step);
            RowKeys(t.rows) + Keys(t.pending) == PairsAt(was + Instants(first, local, true, step))
  {
    var first := NextInstant(local, step);
    AdvanceKeys(s.(next := first), levels, local, true, book, step, horizons, was);
    assert Fresh(s, levels, local, step, horizons) == Advanced(s.(next := first), levels, local, true, book, step, horizons);
  }

  /** The samples between two records of a clean replay: a pair for each instant the records have brought,
      those that left held to their prints, the others waiting. */
  ghost predicate Standing(o: Observer, rs: seq<Record>, i: nat, start: nat, step: nat, widest: nat)
    requires i <= |rs| && step > 0
  {
    && AllHeld(o.samples.rows, o.samples.evidence, rs, widest)
    && RowKeys(o.samples.rows) + Keys(o.samples.pending) == PairsAt(AllDue(rs, i, step, HABITS))
    && (if o.inSegment then
          && OneSegment(rs, start, i, HABITS) && o.ordered && o.prints == Prints(rs, start, i) && o.samples.next == Next(rs, i, step, HABITS)
          && AllCarried(o.samples.pending, rs, start, i, widest) && InOrder(o.samples.pending, rs[i - 1].local)
        else o.samples.pending == [])
  }

  /** And while a record is replayed. */
  ghost predicate Replaying(o: Observer, rs: seq<Record>, i: nat, start: nat, told: bool, step: nat, widest: nat)
    requires i < |rs| && step > 0
  {
    && AllHeld(o.samples.rows, o.samples.evidence, rs, widest)
    && RowKeys(o.samples.rows) + Keys(o.samples.pending) == PairsAt(AllDue(rs, i, step, HABITS) + Heralded(rs, i, step, HABITS))
    && (if o.inSegment then
          && OneSegment(rs, start, i, HABITS) && o.ordered && o.prints == Prints(rs, start, if told then i + 1 else i)
          && o.samples.next == NextFrom(Next(rs, i, step, HABITS), rs[i].local, false, step)
          && AllWait(o.samples.pending, rs, start, i, widest) && InOrder(o.samples.pending, rs[i].local)
        else o.samples.pending == [])
  }

  /** What announcing a record to an open segment does to its samples. */
  lemma AnnouncedInside(o: Observer, rs: seq<Record>, i: nat, start: nat, step: nat, horizons: seq<nat>, widest: nat)
    requires step > 0 && i < |rs| && Clean(rs) && Ledger(o, rs, i) && Standing(o, rs, i, start, step, widest) && o.inSegment
    ensures i > 0
    ensures var p := o.(samples := Stepped(o.samples, o.levels, true, o.prints, rs[i].local, false, rs[i - 1].book, step, horizons, widest));
            Replaying(p, rs, i, start, false, step, widest)
  {
    var s, local := o.samples, rs[i].local;
    var due := DueSamples(o.levels, s.next, local, false, step, horizons);
    OpenShows(rs, i);
    BothActive(rs, i);
    AnnounceLeaves(s, Passed(s.pending, widest, local, 0), rs, start, i, widest);
    if local > 0 {
      DueAreNew(o.levels, s.next, local, false, step, horizons);
    }
    NextIsLater(rs, i, step);
    AnnounceSamples(s.pending[Passed(s.pending, widest, local, 0)..], due, rs, start, i, widest, s.next);
    StepKeys(s, o.levels, true, o.prints, local, false, rs[i - 1].book, step, horizons, widest, AllDue(rs, i, step, HABITS));
  }

  lemma BothActive(rs: seq<Record>, i: nat)
    requires i <= |rs| && Sound(rs) && Open(rs, i)
    ensures i > 0 && LevelsAt(rs, i)[BID].active && LevelsAt(rs, i)[ASK].active
  {
    EpisodeShows(rs, i, true);
    EpisodeShows(rs, i, false);
  }

  /** This observer samples the record that opens a segment, so the grid stands beyond the last record. */
  lemma NextIsLater(rs: seq<Record>, i: nat, step: nat)
    requires step > 0 && 0 < i <= |rs|
    ensures Next(rs, i, step, HABITS) > rs[i - 1].local
  {
  }

  /** A record the segment outlives. */
  lemma ConcludedInside(o: Observer, rs: seq<Record>, i: nat, start: nat, step: nat, horizons: seq<nat>, widest: nat)
    requires step > 0 && i < |rs| && Clean(rs) && LedgerTold(o, rs, i) && Replaying(o, rs, i, start, true, step, widest)
    requires o.inSegment && Open(rs, i + 1)
    ensures var p := o.(samples := Stepped(o.samples, o.levels, true, o.prints, rs[i].local, true, rs[i].book, step, horizons, widest));
            Standing(p, rs, i + 1, start, step, widest)
  {
    var s, local := o.samples, rs[i].local;
    var k, due := Passed(s.pending, widest, local, 0), DueSamples(o.levels, s.next, local, true, step, horizons);
    OpenShows(rs, i + 1);
    BothActive(rs, i + 1);
    assert o.levels == LevelsAt(rs, i + 1);
    ConcludeLeaves(s, k, rs, start, i, widest);
    DueAreNew(o.levels, s.next, local, true, step, horizons);
    ConcludeSamples(s.pending[k..], due, rs, start, i, widest, s.next);
    StepKeys(s, o.levels, true, o.prints, local, true, rs[i].book, step, horizons, widest,
             AllDue(rs, i, step, HABITS) + Heralded(rs, i, step, HABITS));
    NextMoves(rs, i, step, HABITS);
  }

  /** One that ends it. */
  lemma ConcludedEnds(o: Observer, rs: seq<Record>, i: nat, start: nat, step: nat, widest: nat)
    requires step > 0 && i < |rs| && Clean(rs) && Replaying(o, rs, i, start, true, step, widest) && o.inSegment && !Open(rs, i + 1)
    ensures Standing(o.(inSegment := false, samples := Cut(o.samples, true, o.prints, rs[i].local)), rs, i + 1, start, step, widest)
  {
    CutHeld(o.samples, rs, start, i, widest);
    LeftKeys(o.samples, |o.samples.pending|, rs[i].local, true, o.prints);
    NothingClosing(rs, i, step);
  }

  lemma NothingClosing(rs: seq<Record>, i: nat, step: nat)
    requires step > 0 && i < |rs| && !Open(rs, i + 1)
    ensures AllDue(rs, i + 1, step, HABITS) == AllDue(rs, i, step, HABITS) + Heralded(rs, i, step, HABITS)
  {
  }

  /** One that opens one. */
  lemma FreshSamples(s: Samples, levels: seq<Episode>, rs: seq<Record>, i: nat, step: nat, horizons: seq<nat>, widest: nat)
    requires step > 0 && i < |rs| && Clean(rs) && Opens(rs, i, HABITS) && levels == LevelsAt(rs, i + 1) && s.pending == []
    requires RowKeys(s.rows) + Keys(s.pending) == PairsAt(AllDue(rs, i, step, HABITS) + Heralded(rs, i, step, HABITS))
    ensures var f := Fresh(s, levels, rs[i].local, step, horizons);
            && AllCarried(f.pending, rs, i, i + 1, widest) && InOrder(f.pending, rs[i].local) && f.next == Next(rs, i + 1, step, HABITS)
            && RowKeys(f.rows) + Keys(f.pending) == PairsAt(AllDue(rs, i + 1, step, HABITS)) && f.rows == s.rows && f.evidence == s.evidence
  {
    var local, first := rs[i].local, NextInstant(rs[i].local, step);
    var due := DueSamples(levels, first, local, true, step, horizons);
    OpenShows(rs, i + 1);
    BothActive(rs, i + 1);
    DueAreNew(levels, first, local, true, step, horizons);
    ConcludeSamples([], due, rs, i, i, widest, first);
    assert [] + due == due;
    FreshKeys(s, levels, local, rs[i].book, step, horizons, AllDue(rs, i, step, HABITS) + Heralded(rs, i, step, HABITS));
  }

  /** What concluding it makes of the observer. */
  ghost predicate OpenedAs(o: Observer, p: Observer, rs: seq<Record>, i: nat, step: nat, horizons: seq<nat>)
    requires step > 0 && i < |rs|
  {
    p.inSegment && p.ordered && p.prints == [] && p.samples == Fresh(o.samples, LevelsAt(rs, i + 1), rs[i].local, step, horizons)
  }

  lemma ConcludedIsOpened(o: Observer, rs: seq<Record>, i: nat, step: nat, horizons: seq<nat>, widest: nat)
    requires step > 0 && i < |rs| && LedgerTold(o, rs, i) && !o.inSegment && Open(rs, i + 1) && rs[i].book.valid && rs[i].book.TwoSided()
    ensures OpenedAs(o, Concluded(o, rs[i].local, rs[i].book, true, step, horizons, widest), rs, i, step, horizons)
  {
    FirstAreLevels(o, rs, i);
  }

  lemma OpenedStands(o: Observer, p: Observer, rs: seq<Record>, i: nat, start: nat, step: nat, horizons: seq<nat>, widest: nat)
    requires step > 0 && i < |rs| && Clean(rs) && Replaying(o, rs, i, start, true, step, widest) && !o.inSegment && Opens(rs, i, HABITS)
    requires OpenedAs(o, p, rs, i, step, horizons)
    ensures Standing(p, rs, i + 1, i, step, widest)
  {
    FreshSamples(o.samples, LevelsAt(rs, i + 1), rs, i, step, horizons, widest);
    FreshStands(p, rs, i, step, widest);
  }

  lemma FreshStands(p: Observer, rs: seq<Record>, i: nat, step: nat, widest: nat)
    requires step > 0 && i < |rs| && Opens(rs, i, HABITS) && p.inSegment && p.ordered && p.prints == []
    requires AllHeld(p.samples.rows, p.samples.evidence, rs, widest) && p.samples.next == Next(rs, i + 1, step, HABITS)
    requires AllCarried(p.samples.pending, rs, i, i + 1, widest) && InOrder(p.samples.pending, rs[i].local)
    requires RowKeys(p.samples.rows) + Keys(p.samples.pending) == PairsAt(AllDue(rs, i + 1, step, HABITS))
    ensures Standing(p, rs, i + 1, i, step, widest)
  {
  }

  lemma ConcludedIdle(o: Observer, rs: seq<Record>, i: nat, start: nat, step: nat, widest: nat)
    requires step > 0 && i < |rs| && Replaying(o, rs, i, start, true, step, widest) && !o.inSegment && !Open(rs, i + 1)
    ensures Standing(o, rs, i + 1, start, step, widest)
  {
    NothingClosing(rs, i, step);
  }

  /** Concluding a record, all in all. */
  lemma ConcludedStanding(o: Observer, rs: seq<Record>, i: nat, start: nat, step: nat, horizons: seq<nat>, widest: nat) returns (from: nat)
    requires step > 0 && i < |rs| && Clean(rs) && Readable(rs[i]) && LedgerTold(o, rs, i) && Replaying(o, rs, i, start, true, step, widest)
    ensures Standing(Concluded(o, rs[i].local, rs[i].book, Open(rs, i + 1), step, horizons, widest), rs, i + 1, from, step, widest)
    ensures from == if !o.inSegment && Open(rs, i + 1) then i else start
  {
    from := start;
    if o.inSegment && Open(rs, i + 1) {
      ConcludedInside(o, rs, i, start, step, horizons, widest);
    } else if o.inSegment {
      ConcludedEnds(o, rs, i, start, step, widest);
    } else if Open(rs, i + 1) {
      OpenShows(rs, i + 1);
      ConcludedIsOpened(o, rs, i, step, horizons, widest);
      OpenedStands(o, Concluded(o, rs[i].local, rs[i].book, true, step, horizons, widest), rs, i, start, step, horizons, widest);
      from := i;
    } else {
      ConcludedIdle(o, rs, i, start, step, widest);
    }
  }

  /** An event the samples live through: at most their labels change, and a print joins the segment's. */
  lemma ToldSamples(o: Observer, p: Observer, rs: seq<Record>, i: nat, start: nat, step: nat, widest: nat)
    requires step > 0 && i < |rs| && Replaying(o, rs, i, start, false, step, widest) && p.inSegment == o.inSegment && p.ordered == o.ordered
    requires p.prints == o.prints + if o.inSegment && rs[i].event.Trade? then [PrintOf(rs[i])] else []
    requires p.samples == o.samples.(pending := p.samples.pending) && |p.samples.pending| == |o.samples.pending|
    requires forall k | 0 <= k < |o.samples.pending| :: SameSample(o.samples.pending[k], p.samples.pending[k])
    ensures Replaying(p, rs, i, start, true, step, widest)
  {
    forall k | 0 <= k < |o.samples.pending| ensures Keys(p.samples.pending)[k] == Keys(o.samples.pending)[k] {
      assert SameSample(o.samples.pending[k], p.samples.pending[k]);
    }
    assert Keys(p.samples.pending) == Keys(o.samples.pending);
    if o.inSegment {
      TellWaits(o.samples.pending, p.samples.pending, rs, start, i, widest);
    }
  }

  /** A snapshot takes them all. */
  lemma ToldCut(o: Observer, p: Observer, rs: seq<Record>, i: nat, start: nat, step: nat, widest: nat)
    requires step > 0 && i < |rs| && Replaying(o, rs, i, start, false, step, widest) && SnapshotEvent(o, p, rs, i)
    ensures Replaying(p, rs, i, start, true, step, widest)
  {
    CutSamples(o.samples, o.inSegment, o.ordered, o.prints, rs, i, start, widest);
  }

  lemma CutSamples(s: Samples, open: bool, ordered: bool, prints: seq<Print>, rs: seq<Record>, i: nat, start: nat, widest: nat)
    requires i < |rs| && rs[i].event.Snapshot? && AllHeld(s.rows, s.evidence, rs, widest)
    requires if open then ordered && OneSegment(rs, start, i, HABITS) && prints == Prints(rs, start, i) && AllWait(s.pending, rs, start, i, widest)
             else s.pending == []
    ensures var l := Cut(s, ordered, prints, rs[i].local);
            AllHeld(l.rows, l.evidence, rs, widest) && l.pending == [] && RowKeys(l.rows) + Keys(l.pending) == RowKeys(s.rows) + Keys(s.pending)
  {
    if open {
      assert Prints(rs, start, i + 1) == Prints(rs, start, i);
      CutHeld(s, rs, start, i, widest);
    } else {
      assert Cut(s, ordered, prints, rs[i].local) == s;
    }
    LeftKeys(s, |s.pending|, rs[i].local, ordered, prints);
  }

  /** Between two records. */
  ghost predicate Between(e: LevelLifecycleObserver, rs: seq<Record>, i: nat, start: nat)
    requires i <= |rs|
    reads e
  {
    && e.Valid() && e.gridNs > 0 && e.tradeStreamUp == Up(rs, i)
    && (i > 0 ==> e.clock == e.lastRecord == rs[i - 1].local)
    && (Clean(rs) ==> && Ledger(e.State(), rs, i) && Standing(e.State(), rs, i, start, e.gridNs, e.widest)
                      && (e.inSegment ==> e.segmentStart == rs[start].local))
  }

  /** While a record is replayed. */
  ghost predicate During(e: LevelLifecycleObserver, rs: seq<Record>, i: nat, start: nat, told: bool)
    requires i < |rs|
    reads e
  {
    && e.Valid() && e.gridNs > 0 && e.tradeStreamUp == Up(rs, if told then i + 1 else i) && e.clock == rs[i].local
    && (Clean(rs) ==> && (if told then LedgerTold(e.State(), rs, i) else Ledger(e.State(), rs, i))
                      && Replaying(e.State(), rs, i, start, told, e.gridNs, e.widest)
                      && (e.inSegment ==> e.segmentStart == rs[start].local))
  }

  /** What announcing record i does: to the samples of an open segment only. */
  ghost predicate AnnouncedAs(o: Observer, p: Observer, was: nat, rs: seq<Record>, i: nat, step: nat, horizons: seq<nat>, widest: nat)
    requires step > 0 && i < |rs|
  {
    && |o.levels| == 2 && p == o.(samples := p.samples, ordered := o.ordered && was <= rs[i].local && Open(rs, i))
    && p.samples == if o.inSegment && Open(rs, i)
                    then Stepped(o.samples, o.levels, o.ordered, o.prints, rs[i].local, false, BookBefore(rs, i), step, horizons, widest)
                    else o.samples
  }

  method TellRecord(e: LevelLifecycleObserver, rs: seq<Record>, i: nat)
    requires i < |rs| && e.Valid() && e.tradeStreamUp == Up(rs, i)
    modifies e`bookLive, e`pending, e`rows, e`evidence, e`nextSample, e`clock, e`ordered
    ensures e.Valid() && e.clock == rs[i].local && e.gridNs > 0
    ensures AnnouncedAs(old(e.State()), e.State(), old(e.clock), rs, i, e.gridNs, e.horizons, e.widest)
  {
    e.BeforeRecord(rs[i].local, BookBefore(rs, i), LiveBefore(rs, i));
  }

  /** Announcing a record. */
  method Announce(e: LevelLifecycleObserver, rs: seq<Record>, i: nat, ghost start: nat)
    requires i < |rs| && Between(e, rs, i, start)
    modifies e
    ensures During(e, rs, i, start, false)
  {
    ghost var o, was := e.State(), e.clock;
    TellRecord(e, rs, i);
    if Clean(rs) {
      Announced(o, e.State(), was, rs, i, start, e.gridNs, e.horizons, e.widest);
    }
  }

  lemma Announced(o: Observer, p: Observer, was: nat, rs: seq<Record>, i: nat, start: nat, step: nat, horizons: seq<nat>, widest: nat)
    requires step > 0 && i < |rs| && Clean(rs) && Ledger(o, rs, i) && Standing(o, rs, i, start, step, widest)
    requires AnnouncedAs(o, p, was, rs, i, step, horizons, widest) && (i > 0 ==> was == rs[i - 1].local)
    ensures Ledger(p, rs, i) && Replaying(p, rs, i, start, false, step, widest)
  {
    if o.inSegment {
      AnnouncedInside(o, rs, i, start, step, horizons, widest);
    } else {
      assert AllDue(rs, i, step, HABITS) + Heralded(rs, i, step, HABITS) == AllDue(rs, i, step, HABITS);
    }
  }

  /** Delivering its event. */
  method Deliver(e: LevelLifecycleObserver, rs: seq<Record>, i: nat, ghost start: nat)
    requires i < |rs| && Readable(rs[i]) && During(e, rs, i, start, false)
    modifies e
    ensures During(e, rs, i, start, true)
  {
    match rs[i].event {
      case Connection(trades, open) => DeliverConnection(e, rs, i, start);
      case Snapshot => DeliverSnapshot(e, rs, i, start);
      case Depth(outcome) => DeliverDepth(e, rs, i, start);
      case Trade(trade) => DeliverTrade(e, rs, i, start);
      case Other => DeliverNothing(e, rs, i, start);
    }
  }

  lemma Quiet(o: Observer, p: Observer, rs: seq<Record>, i: nat, start: nat, step: nat, widest: nat)
    requires step > 0 && i < |rs| && Sound(rs) && QuietLevels(o, p, rs, i) && QuietSamples(o, p, rs, i)
    requires Ledger(o, rs, i) && Replaying(o, rs, i, start, false, step, widest)
    ensures LedgerTold(p, rs, i) && Replaying(p, rs, i, start, true, step, widest)
  {
    ToldQuiet(o, p, rs, i);
    ToldSamples(o, p, rs, i, start, step, widest);
  }

  method DeliverNothing(e: LevelLifecycleObserver, rs: seq<Record>, i: nat, ghost start: nat)
    requires i < |rs| && During(e, rs, i, start, false) && rs[i].event.Other?
    ensures During(e, rs, i, start, true)
  {
    if Clean(rs) {
      Quiet(e.State(), e.State(), rs, i, start, e.gridNs, e.widest);
    }
  }

  method DeliverConnection(e: LevelLifecycleObserver, rs: seq<Record>, i: nat, ghost start: nat)
    requires i < |rs| && During(e, rs, i, start, false) && rs[i].event.Connection?
    modifies e
    ensures During(e, rs, i, start, true)
  {
    ghost var o := e.State();
    e.OnConnection(rs[i].event.trades, rs[i].event.open);
    if Clean(rs) {
      Quiet(o, e.State(), rs, i, start, e.gridNs, e.widest);
    }
  }

  method DeliverSnapshot(e: LevelLifecycleObserver, rs: seq<Record>, i: nat, ghost start: nat)
    requires i < |rs| && During(e, rs, i, start, false) && rs[i].event.Snapshot?
    modifies e
    ensures During(e, rs, i, start, true)
  {
    ghost var o := e.State();
    TellSnapshot(e, rs, i);
    if Clean(rs) {
      ToldSnapshot(o, e.State(), rs, i);
      ToldCut(o, e.State(), rs, i, start, e.gridNs, e.widest);
    }
  }

  method TellSnapshot(e: LevelLifecycleObserver, rs: seq<Record>, i: nat)
    requires i < |rs| && e.Valid() && rs[i].event.Snapshot?
    modifies e`bookLive, e`levels, e`ended, e`pending, e`rows, e`evidence, e`inSegment
    ensures e.Valid() && SnapshotEvent(old(e.State()), e.State(), rs, i)
  {
    e.AfterSnapshot(rs[i].local, rs[i].live);
  }

  method DeliverTrade(e: LevelLifecycleObserver, rs: seq<Record>, i: nat, ghost start: nat)
    requires i < |rs| && Readable(rs[i]) && During(e, rs, i, start, false) && rs[i].event.Trade?
    modifies e
    ensures During(e, rs, i, start, true)
  {
    ghost var o := e.State();
    TellTrade(e, rs, i);
    if Clean(rs) {
      Quiet(o, e.State(), rs, i, start, e.gridNs, e.widest);
    }
  }

  method TellTrade(e: LevelLifecycleObserver, rs: seq<Record>, i: nat)
    requires i < |rs| && Readable(rs[i]) && e.Valid() && rs[i].event.Trade? && e.clock == rs[i].local
    modifies e`bookLive, e`levels, e`pending, e`prints
    ensures e.Valid() && QuietLevels(old(e.State()), e.State(), rs, i) && QuietSamples(old(e.State()), e.State(), rs, i)
  {
    e.OnTrade(PrintOf(rs[i]), rs[i].live);
  }

  /** A depth message: announced, applied or refused, and reported unless that failed. */
  method DeliverDepth(e: LevelLifecycleObserver, rs: seq<Record>, i: nat, ghost start: nat)
    requires i < |rs| && Readable(rs[i]) && During(e, rs, i, start, false) && rs[i].event.Depth?
    modifies e
    ensures During(e, rs, i, start, true)
  {
    ghost var o := e.State();
    TellDepth(e, rs, i);
    if Clean(rs) {
      if Applies(rs[i]) && o.inSegment {
        ToldApplied(o, e.State(), rs, i);
        ToldSamples(o, e.State(), rs, i, start, e.gridNs, e.widest);
      } else {
        Quiet(o, e.State(), rs, i, start, e.gridNs, e.widest);
      }
    }
  }

  /** Telling the observer of it. */
  method TellDepth(e: LevelLifecycleObserver, rs: seq<Record>, i: nat)
    requires i < |rs| && Readable(rs[i]) && e.Valid() && rs[i].event.Depth?
    modifies e`bookLive, e`levels, e`ended, e`nextId, e`shown, e`mirrored, e`noted
    ensures e.Valid()
    ensures if Applies(rs[i]) && e.inSegment then AppliedEvent(old(e.State()), e.State(), rs, i)
            else QuietDepth(old(e.State()), e.State(), rs, i)
  {
    match rs[i].event.outcome {
      case Applied => TellApplied(e, rs, i);
      case Refused => TellRefused(e, rs, i);
      case Failed => e.BeforeDepthEvent(BookBefore(rs, i));
    }
  }

  method TellApplied(e: LevelLifecycleObserver, rs: seq<Record>, i: nat)
    requires i < |rs| && Readable(rs[i]) && e.Valid() && rs[i].event.Depth? && rs[i].event.outcome.Applied?
    modifies e`bookLive, e`levels, e`ended, e`nextId, e`shown, e`mirrored, e`noted
    ensures e.Valid()
    ensures if Applies(rs[i]) && e.inSegment then AppliedEvent(old(e.State()), e.State(), rs, i)
            else QuietDepth(old(e.State()), e.State(), rs, i)
  {
    if rs[i].book.valid && e.inSegment {
      TellCharge(e, rs, i);
    } else {
      TellNoCharge(e, rs, i);
    }
  }

  method TellCharge(e: LevelLifecycleObserver, rs: seq<Record>, i: nat)
    requires i < |rs| && Readable(rs[i]) && e.Valid() && Applies(rs[i]) && e.inSegment
    modifies e`bookLive, e`levels, e`ended, e`nextId, e`shown, e`mirrored, e`noted
    ensures e.Valid() && AppliedEvent(old(e.State()), e.State(), rs, i)
  {
    e.BeforeDepthEvent(BookBefore(rs, i));
    e.AfterDepthEvent(rs[i].local, rs[i].book, true, rs[i].live);
  }

  method TellNoCharge(e: LevelLifecycleObserver, rs: seq<Record>, i: nat)
    requires i < |rs| && Readable(rs[i]) && e.Valid() && rs[i].event.Depth? && rs[i].event.outcome.Applied? && !(rs[i].book.valid && e.inSegment)
    modifies e`bookLive, e`levels, e`ended, e`nextId, e`shown, e`mirrored, e`noted
    ensures e.Valid() && QuietDepth(old(e.State()), e.State(), rs, i)
  {
    e.BeforeDepthEvent(BookBefore(rs, i));
    e.AfterDepthEvent(rs[i].local, rs[i].book, true, rs[i].live);
  }

  method TellRefused(e: LevelLifecycleObserver, rs: seq<Record>, i: nat)
    requires i < |rs| && Readable(rs[i]) && e.Valid() && rs[i].event.Depth? && rs[i].event.outcome.Refused?
    modifies e`bookLive, e`levels, e`ended, e`nextId, e`shown, e`mirrored, e`noted
    ensures e.Valid() && QuietDepth(old(e.State()), e.State(), rs, i)
  {
    e.BeforeDepthEvent(BookBefore(rs, i));
    e.AfterDepthEvent(rs[i].local, rs[i].book, false, rs[i].live);
  }

  /** Concluding the record. */
  method Conclude(e: LevelLifecycleObserver, rs: seq<Record>, i: nat, ghost start: nat) returns (ghost from: nat)
    requires i < |rs| && Readable(rs[i]) && During(e, rs, i, start, true)
    modifies e
    ensures Between(e, rs, i + 1, from)
  {
    ghost var o := e.State();
    from := start;
    if Clean(rs) {
      ConcludedLedger(o, rs, i, e.gridNs, e.horizons, e.widest);
      from := ConcludedStanding(o, rs, i, start, e.gridNs, e.horizons, e.widest);
    }
    e.AfterRecord(rs[i].local, rs[i].book, rs[i].live);
  }

  /** The whole replay. As many episodes end as were numbered, with balanced ledgers. Over clean input they
      are exactly those of the records, one for each maximal stretch over which a price stays best
      (EndsWithStretch, StretchTells); there is exactly one bid row and one ask row for each instant the
      records bring; and every row is true to its records. */
  method Replay(gridNs: nat, horizons: seq<nat>, widest: nat, rs: seq<Record>) returns (rows: seq<Row>, ended: seq<Ended>, numbered: nat)
    requires gridNs > 0 && AllReadable(rs)
    ensures |ended| == numbered && EndedBalanced(ended)
    ensures Clean(rs) ==> ended == AllEpisodes(rs) && numbered == Numbered(rs, |rs|)
    ensures Clean(rs) ==> RowKeys(rows) == PairsAt(AllDue(rs, |rs|, gridNs, HABITS))
    ensures Clean(rs) ==> forall k {:trigger rows[k]} | 0 <= k < |rows| :: SeesSegment(rows[k], rs, horizons, widest)
  {
    var e := new LevelLifecycleObserver(gridNs, horizons, widest);
    var i := 0;
    ghost var start := 0;
    while i < |rs|
      invariant 0 <= i <= |rs| && fresh(e) && e.gridNs == gridNs && e.horizons == horizons && e.widest == widest
      invariant Between(e, rs, i, start)
    {
      assert Readable(rs[i]);
      Announce(e, rs, i, start);
      Deliver(e, rs, i, start);
      start := Conclude(e, rs, i, start);
      i := i + 1;
    }
    End(e, rs, start);
    rows, ended, numbered := e.rows, e.ended, e.nextId;
  }

  /** Closing the observer. */
  method End(e: LevelLifecycleObserver, rs: seq<Record>, ghost start: nat)
    requires Between(e, rs, |rs|, start)
    modifies e
    ensures |e.ended| == e.nextId && EndedBalanced(e.ended)
    ensures Clean(rs) ==> e.ended == AllEpisodes(rs) && e.nextId == Numbered(rs, |rs|)
    ensures Clean(rs) ==> RowKeys(e.rows) == PairsAt(AllDue(rs, |rs|, e.gridNs, HABITS))
    ensures Clean(rs) ==> forall k {:trigger e.rows[k]} | 0 <= k < |e.rows| :: SeesSegment(e.rows[k], rs, e.horizons, e.widest)
  {
    ghost var o := e.State();
    e.Finish();
    if Clean(rs) {
      LastLedger(o, rs, if o.inSegment then rs[|rs| - 1].local else 0);
      LastRows(o, e.View(), rs, start, e.gridNs, e.horizons, e.widest);
    }
  }

  lemma LastRows(o: Observer, s: Samples, rs: seq<Record>, start: nat, step: nat, horizons: seq<nat>, widest: nat)
    requires step > 0 && Clean(rs) && Standing(o, rs, |rs|, start, step, widest) && RowsLabelled(s.rows, s.evidence, horizons)
    requires s == if o.inSegment then Cut(o.samples, true, o.prints, rs[|rs| - 1].local) else o.samples
    ensures RowKeys(s.rows) == PairsAt(AllDue(rs, |rs|, step, HABITS))
    ensures forall k {:trigger s.rows[k]} | 0 <= k < |s.rows| :: SeesSegment(s.rows[k], rs, horizons, widest)
  {
    if o.inSegment {
      LastHeld(o.samples, rs, start, widest);
      LeftKeys(o.samples, |o.samples.pending|, rs[|rs| - 1].local, true, o.prints);
    }
    forall k | 0 <= k < |s.rows| ensures SeesSegment(s.rows[k], rs, horizons, widest) {
      assert RowLabelled(s.rows[k], s.evidence[k], horizons) && Held(s.rows[k], s.evidence[k], rs, widest);
      HeldSees(s.rows[k], s.evidence[k], rs, horizons, widest);
    }
  }

  /** A run that misses a print: the bid level sampled at 0 leaves when the record stamped 10 is announced,
      and that record is a sell at its price. Its label over ten units of time stays zero. */
  method MissesAPrint() returns (row: Row, t: Print)
    ensures row.edge == 0 && row.pending.bid && t.ns == row.pending.ns + 10 && Counts(row.pending, t, 10)
    ensures row.pending.atQuote == [0] && AtQuote([t], row.pending, 10, 1) == 1
  {
    var book := Book(true, Level(1, 1, Empty), Level(3, 1, Empty), 0);
    var e := SampledAtZero(book);
    FirstPassed(e.pending, 10);
    e.BeforeRecord(10, book, true);
    row := e.rows[0];
    t := Print(10, 1, 1, false);
    e.OnTrade(t, true);
  }

  method SampledAtZero(book: Book) returns (e: LevelLifecycleObserver)
    requires book.Sound() && book.valid
    ensures fresh(e) && e.Valid() && e.inSegment && e.tradeStreamUp && e.widest == 10 && e.horizons == [10]
    ensures e.rows == [] && |e.pending| == 2 && forall k | 0 <= k < 2 :: e.pending[k].ns == 0
    ensures e.pending[0].bid && e.pending[0].price == book.bids.price && e.pending[0].atQuote == [0]
  {
    e := new LevelLifecycleObserver(100, [10], 10);
    e.OnConnection(true, true);
    e.BeforeRecord(0, Book(false, Empty, Empty, 0), false);
    OpensAtZero(e, book);
  }

  method OpensAtZero(e: LevelLifecycleObserver, book: Book)
    requires e.Valid() && !e.inSegment && e.tradeStreamUp && e.clock == 0 && e.gridNs == 100 && e.horizons == [10] && e.rows == []
    requires book.Sound() && book.valid
    modifies e
    ensures e.Valid() && e.inSegment && e.tradeStreamUp && e.rows == []
    ensures |e.pending| == 2 && forall k | 0 <= k < 2 :: e.pending[k].ns == 0
    ensures e.pending[0].bid && e.pending[0].price == book.bids.price && e.pending[0].atQuote == [0]
  {
    e.AfterRecord(0, book, true);
    TwoSamples(e.levels);
  }

  lemma TwoSamples(levels: seq<Episode>)
    requires |levels| == 2 && levels[BID].active && levels[ASK].active
    ensures DueSamples(levels, 0, 0, true, 100, [10]) == SamplesAt(levels, 0, [10])
    ensures |SamplesAt(levels, 0, [10])| == 2
  {
    assert DueSamples(levels, 100, 0, true, 100, [10]) == [];
  }

  lemma FirstPassed(ps: seq<Pending>, widest: nat)
    requires |ps| == 2 && ps[0].ns == 0
    ensures Passed(ps, widest, widest, 0) >= 1
  {
  }
}
