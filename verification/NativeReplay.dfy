/** A whole replay seen by the native dataset exporter (cpp/replay/event_replayer.cpp:142-315,
    cpp/research/native_dataset_exporter.cpp:747-1017): every callback in the order the replay loop makes
    it, over any sequence of records. */
module NativeReplay {
  import opened Wrappers
  import opened NativeRows
  import opened NativeResolver
  import opened NativeTruth
  import opened NativeEvents
  import opened NativeTracking
  import opened NativeCounts
  import opened NativePassives
  import opened NativeLives
  import opened NativeSegments
  import opened NativePlans
  import opened NativeDataset
  import opened Replays
  import opened Grids
  import opened GridRuns

  ghost predicate AllGrounded(written: seq<Row>, audits: seq<Option<Audit>>, rs: seq<Record>, c: Config) {
    |audits| == |written|
    && forall k {:trigger Grounded(written[k], audits[k], rs, c)} | 0 <= k < |audits| :: Grounded(written[k], audits[k], rs, c)
  }

  /** Newly written rows join those with evidence in the records. */
  lemma GroundedGrow(before: seq<Row>, written: seq<Row>, was: seq<Option<Audit>>, now: seq<Option<Audit>>, placed: seq<nat>,
                     rs: seq<Record>, first: nat, upto: nat, at: nat, told: nat, cut: bool, c: Config)
    requires AllGrounded(before, was, rs, c) && before <= written && was <= now && |now| == |written|
    requires OneSegment(rs, first, upto, HABITS) && at < |rs| && at <= upto <= at + 1 && at <= told <= at + 1
    requires cut ==> told == at + 1 && EndsAt(rs, upto, at)
    requires Stamps(written) <= placed && From(placed, |was|, rs[first].local)
    requires Vouched(now, |was|, Audit(Mids(rs, first, upto), rs[at].local, DueAt(rs, upto, at), cut))
    requires AllLive(Bares(written[|before|..]), rs, upto, told, c)
    ensures AllGrounded(written, now, rs, c)
  {
    forall k | 0 <= k < |now| ensures Grounded(written[k], now[k], rs, c) {
      if k < |was| {
        assert Grounded(before[k], was[k], rs, c);
      } else {
        assert Stamps(written)[k] == placed[k];
        assert Bares(written[|before|..])[k - |before|] == Bare(written[k]);
        OneGrounded(written[k], now[k], rs, first, upto, at, told, cut, c);
      }
    }
  }

  lemma OneGrounded(r: Row, a: Option<Audit>, rs: seq<Record>, first: nat, upto: nat, at: nat, told: nat, cut: bool, c: Config)
    requires OneSegment(rs, first, upto, HABITS) && at < |rs| && at <= upto <= at + 1 && at <= told <= at + 1 && rs[first].local <= r.ns
    requires cut ==> told == at + 1 && EndsAt(rs, upto, at)
    requires a == Some(Audit(Mids(rs, first, upto), rs[at].local, DueAt(rs, upto, at), cut)) && Lives(Bare(r), rs, upto, told, c)
    ensures Grounded(r, a, rs, c)
  {
    var from: nat :| from <= upto && LivedFrom(Bare(r), rs, from, told, c);
    assert Drawn(r, a, rs, first, from, upto, at, told, cut, c);
  }

  ghost predicate Clean(rs: seq<Record>) {
    StampsRise(rs) && LiveShows(rs) && AllReadable(rs)
  }

  /** What the theorems follow of the exporter. */
  datatype Image = Image(written: seq<Row>, pending: seq<Row>, audits: seq<Option<Audit>>, placed: seq<nat>, next: nat,
                         open: bool, faithful: bool, history: seq<Sample>)

  ghost function Picture(e: NativeDatasetExporter): Image
    reads e
  {
    Image(e.written, e.pending, e.audits, e.placed, e.nextSample, e.inSegment, e.faithful, e.history)
  }

  /** Every sample is written or waiting, every written row has its evidence, and outside a segment nothing
      waits. */
  ghost predicate Ordered(m: Image) {
    m.placed == Stamps(m.written) + Stamps(m.pending) && |m.audits| == |m.written| && (!m.open ==> m.pending == [])
  }

  /** What an open segment remembers: the mids since the record that opened it, that nothing still unwritten
      was sampled before that, and that what waits has lived through the first `told` records. */
  ghost predicate Following(m: Image, rs: seq<Record>, i: nat, start: nat, told: nat, c: Config)
    requires i <= |rs| && told <= |rs|
  {
    && m.faithful && OneSegment(rs, start, i, HABITS) && m.history == Mids(rs, start, i)
    && From(m.placed, |m.written|, rs[start].local) && AllLive(Bares(m.pending), rs, i, told, c)
  }

  /** Between two records of a clean replay. */
  ghost predicate Settled(m: Image, rs: seq<Record>, i: nat, start: nat, c: Config)
    requires i <= |rs|
  {
    && m.open == Open(rs, i) && AllGrounded(m.written, m.audits, rs, c)
    && (m.open ==> Following(m, rs, i, start, i, c) && m.next >= rs[i - 1].local)
  }

  /** While record i is replayed, before and after its event is told. */
  ghost predicate Replaying(m: Image, rs: seq<Record>, i: nat, start: nat, told: bool, c: Config)
    requires i < |rs|
  {
    && m.open == (Open(rs, i) && !(told && Cuts(rs[i].event, HABITS))) && AllGrounded(m.written, m.audits, rs, c)
    && (m.open ==> Following(m, rs, i, start, if told then i + 1 else i, c) && m.next >= rs[i].local)
  }

  /** Announcing a record to an open segment. */
  lemma AnnouncedOpen(m: Image, n: Image, rs: seq<Record>, i: nat, start: nat, c: Config)
    requires c.gridNs > 0 && 0 < i < |rs| && Clean(rs) && Settled(m, rs, i, start, c) && m.open && Ordered(m) && Ordered(n)
    requires n.open && n.faithful && n.history == m.history && Showing(rs[i - 1].book) && n.next == NextFrom(m.next, rs[i].local, false, c.gridNs)
    requires n.placed == m.placed + SamplesOn(rs[i - 1].book, m.next, rs[i].local, false, c.gridNs)
    requires Bares(n.written) + Bares(n.pending)
          == Bares(m.written) + Bares(m.pending) + Borns(SamplesOn(rs[i - 1].book, m.next, rs[i].local, false, c.gridNs), rs[i - 1].book, c)
    requires m.written <= n.written && m.audits <= n.audits
    requires Vouched(n.audits, |m.audits|, Audit(m.history, rs[i].local, Before(rs[i].local), false))
    ensures Replaying(n, rs, i, start, false, c)
  {
    assert rs[start].local <= rs[i - 1].local;
    StillFrom(m.placed, n.placed, |m.written|, |n.written|, m.next, rs[i].local, false, c.gridNs, rs[start].local);
    AnnouncedLive(rs, i, m.next, c);
    RowsGrow(m, n, Borns(SamplesOn(rs[i - 1].book, m.next, rs[i].local, false, c.gridNs), rs[i - 1].book, c), rs, start, i, i, i, c);
  }

  lemma RowsLive(m: Image, n: Image, births: seq<Row>, rs: seq<Record>, lim: nat, told: nat, c: Config)
    requires told <= |rs| && Bares(n.written) + Bares(n.pending) == Bares(m.written) + Bares(m.pending) + births && m.written <= n.written
    requires AllLive(Bares(m.pending), rs, lim, told, c) && AllLive(births, rs, lim, told, c)
    ensures AllLive(Bares(n.written[|m.written|..]), rs, lim, told, c) && AllLive(Bares(n.pending), rs, lim, told, c)
  {
    TracesLive(Resolver(m.pending, m.written, Never, None), Resolver(n.pending, n.written, Never, None), births, rs, lim, told, c);
  }

  /** What a resolving callback writes is grounded, and what it leaves waiting lives. */
  lemma RowsGrow(m: Image, n: Image, births: seq<Row>, rs: seq<Record>, start: nat, upto: nat, at: nat, told: nat, c: Config)
    requires at < |rs| && at <= upto <= at + 1 && at <= told <= at + 1 && OneSegment(rs, start, upto, HABITS) && Ordered(m) && Ordered(n)
    requires Bares(n.written) + Bares(n.pending) == Bares(m.written) + Bares(m.pending) + births && m.written <= n.written
    requires AllLive(Bares(m.pending), rs, upto, told, c) && AllLive(births, rs, upto, told, c) && AllGrounded(m.written, m.audits, rs, c)
    requires m.audits <= n.audits
    requires Vouched(n.audits, |m.audits|, Audit(Mids(rs, start, upto), rs[at].local, DueAt(rs, upto, at), false))
    requires From(n.placed, |m.audits|, rs[start].local)
    ensures AllGrounded(n.written, n.audits, rs, c) && AllLive(Bares(n.pending), rs, upto, told, c)
  {
    RowsLive(m, n, births, rs, upto, told, c);
    GroundedGrow(m.written, n.written, m.audits, n.audits, n.placed, rs, start, upto, at, told, false, c);
  }

  lemma AnnouncedIdle(m: Image, n: Image, rs: seq<Record>, i: nat, start: nat, c: Config)
    requires i < |rs| && Settled(m, rs, i, start, c) && !m.open && Ordered(m) && Ordered(n)
    requires n == m.(placed := n.placed, next := n.next, audits := n.audits, faithful := n.faithful) && m.audits <= n.audits
    ensures Replaying(n, rs, i, start, false, c)
  {
    assert n.audits == m.audits;
  }

  /** An event that leaves the rows alone. */
  lemma ToldQuiet(m: Image, n: Image, rs: seq<Record>, i: nat, start: nat, c: Config)
    requires i < |rs| && Replaying(m, rs, i, start, false, c) && n == m && !Cuts(rs[i].event, HABITS)
    requires m.open ==> !rs[i].event.Trade? && !(rs[i].event.Depth? && rs[i].event.outcome.Applied?)
    ensures Replaying(n, rs, i, start, true, c)
  {
    if m.open {
      QuietLives(Bares(m.pending), rs, i, i, c);
    }
  }

  /** An event the waiting rows live through. */
  lemma ToldRows(m: Image, n: Image, rs: seq<Record>, i: nat, start: nat, c: Config)
    requires i < |rs| && Replaying(m, rs, i, start, false, c) && m.open && !Cuts(rs[i].event, HABITS)
    requires n == m.(pending := n.pending) && AllLive(Bares(n.pending), rs, i, i + 1, c)
    ensures Replaying(n, rs, i, start, true, c)
  {
  }

  lemma ToldApplied(m: Image, n: Image, rs: seq<Record>, i: nat, start: nat, c: Config)
    requires i < |rs| && Replaying(m, rs, i, start, false, c) && rs[i].event.Depth? && rs[i].event.outcome.Applied?
    requires n == m.(pending := n.pending) && |n.pending| == |m.pending| && (!m.open ==> m.pending == [])
    requires m.open && BookBefore(rs, i).valid && rs[i].book.TwoSided() ==>
               forall k | 0 <= k < |n.pending| :: n.pending[k] == WatchRow(m.pending[k], rs[i].local, rs[i].book, c)
    requires m.open && !(BookBefore(rs, i).valid && rs[i].book.TwoSided()) ==> n.pending == m.pending
    ensures Replaying(n, rs, i, start, true, c)
  {
    if m.open {
      EventLives(m.pending, n.pending, rs, i, i, c);
      ToldRows(m, n, rs, i, start, c);
    } else {
      ToldQuiet(m, n, rs, i, start, c);
    }
  }

  /** A segment that ends writes all its rows. */
  lemma RowsCut(m: Image, n: Image, rs: seq<Record>, start: nat, upto: nat, at: nat, c: Config)
    requires AllGrounded(m.written, m.audits, rs, c) && m.audits <= n.audits && n.written == m.written + m.pending && Ordered(n) && Ordered(m)
    requires n.placed == m.placed && at < |rs| && at <= upto <= at + 1 && EndsAt(rs, upto, at) && Following(m, rs, upto, start, at + 1, c)
    requires Vouched(n.audits, |m.audits|, Audit(m.history, rs[at].local, DueAt(rs, upto, at), true))
    ensures AllGrounded(n.written, n.audits, rs, c)
  {
    WrittenLast(m, n, rs, upto, at + 1, c);
    GroundedGrow(m.written, n.written, m.audits, n.audits, n.placed, rs, start, upto, at, at + 1, true, c);
  }

  /** Outside a segment there are none. */
  lemma NoneCut(m: Image, n: Image, rs: seq<Record>, c: Config)
    requires AllGrounded(m.written, m.audits, rs, c) && m.audits <= n.audits && n.written == m.written + m.pending && Ordered(n) && Ordered(m)
    requires !m.open
    ensures AllGrounded(n.written, n.audits, rs, c)
  {
    assert n.written == m.written && n.audits == m.audits;
  }

  lemma WrittenLast(m: Image, n: Image, rs: seq<Record>, lim: nat, told: nat, c: Config)
    requires told <= |rs| && n.written == m.written + m.pending && Ordered(n) && AllLive(Bares(m.pending), rs, lim, told, c)
    ensures Stamps(n.written) <= n.placed && AllLive(Bares(n.written[|m.written|..]), rs, lim, told, c)
  {
    assert n.written[|m.written|..] == m.pending;
  }

  /** An event that ends the segment. */
  lemma ToldCut(m: Image, n: Image, rs: seq<Record>, i: nat, start: nat, c: Config)
    requires i < |rs| && Replaying(m, rs, i, start, false, c) && Ordered(m) && Ordered(n) && Cuts(rs[i].event, HABITS)
    requires n == m.(written := m.written + m.pending, pending := n.pending, audits := n.audits, open := false)
    requires m.audits <= n.audits
    requires m.open ==> Vouched(n.audits, |m.audits|, Audit(m.history, rs[i].local, Before(rs[i].local), true))
    ensures Replaying(n, rs, i, start, true, c)
  {
    if m.open {
      QuietLives(Bares(m.pending), rs, i, i, c);
      RowsCut(m, n, rs, start, i, i, c);
    } else {
      NoneCut(m, n, rs, c);
    }
  }

  /** Concluding a record inside a segment. */
  lemma ConcludedInside(m: Image, n: Image, rs: seq<Record>, i: nat, start: nat, c: Config)
    requires c.gridNs > 0 && i < |rs| && Clean(rs) && Replaying(m, rs, i, start, true, c) && m.open && Open(rs, i + 1) && Ordered(m) && Ordered(n)
    requires n == m.(written := n.written, pending := n.pending, audits := n.audits, placed := n.placed, next := n.next, history := n.history)
    requires Showing(rs[i].book) && n.history == m.history + [Sample(rs[i].local, rs[i].book.MidX2())]
    requires n.next == NextFrom(m.next, rs[i].local, true, c.gridNs)
    requires n.placed == m.placed + SamplesOn(rs[i].book, m.next, rs[i].local, true, c.gridNs)
    requires Bares(n.written) + Bares(n.pending)
          == Bares(m.written) + Bares(m.pending) + Borns(SamplesOn(rs[i].book, m.next, rs[i].local, true, c.gridNs), rs[i].book, c)
    requires m.written <= n.written && m.audits <= n.audits
    requires Vouched(n.audits, |m.audits|, Audit(n.history, rs[i].local, rs[i].local, false))
    ensures Settled(n, rs, i + 1, start, c)
  {
    MidsGrow(rs, start, i);
    assert rs[start].local <= rs[i].local;
    StillFrom(m.placed, n.placed, |m.written|, |n.written|, m.next, rs[i].local, true, c.gridNs, rs[start].local);
    ConcludedLive(rs, i, m.next, c);
    ConcludedRows(m, n, Borns(SamplesOn(rs[i].book, m.next, rs[i].local, true, c.gridNs), rs[i].book, c), rs, i, start, c);
  }

  lemma ConcludedRows(m: Image, n: Image, births: seq<Row>, rs: seq<Record>, i: nat, start: nat, c: Config)
    requires i < |rs| && Ordered(m) && Ordered(n) && AllLive(births, rs, i + 1, i + 1, c)
    requires AllLive(Bares(m.pending), rs, i, i + 1, c) && OneSegment(rs, start, i + 1, HABITS) && n.history == Mids(rs, start, i + 1)
    requires AllGrounded(m.written, m.audits, rs, c) && From(n.placed, |m.written|, rs[start].local)
    requires Bares(n.written) + Bares(n.pending) == Bares(m.written) + Bares(m.pending) + births
    requires m.written <= n.written && m.audits <= n.audits
    requires Vouched(n.audits, |m.audits|, Audit(n.history, rs[i].local, rs[i].local, false))
    ensures AllGrounded(n.written, n.audits, rs, c) && AllLive(Bares(n.pending), rs, i + 1, i + 1, c)
  {
    LiveLater(Bares(m.pending), rs, i, i + 1, i + 1, c);
    RowsGrow(m, n, births, rs, start, i + 1, i, i + 1, c);
  }

  lemma StillFrom(was: seq<nat>, placed: seq<nat>, base: nat, now: nat, next: nat, local: nat, inclusive: bool, step: nat, t: nat)
    requires step > 0 && From(was, base, t) && placed == was + Instants(next, local, inclusive, step) && next >= t && base <= now
    ensures From(placed, base, t) && From(placed, now, t)
  {
    FromNext(was, next, local, inclusive, step);
  }

  /** A record that leaves a stream unusable ends the segment. */
  lemma ConcludedEnds(m: Image, n: Image, rs: seq<Record>, i: nat, start: nat, c: Config)
    requires i < |rs| && Replaying(m, rs, i, start, true, c) && m.open && !Open(rs, i + 1) && Ordered(m) && Ordered(n)
    requires n == m.(written := m.written + m.pending, pending := n.pending, audits := n.audits, open := false, next := n.next,
                     faithful := n.faithful)
    requires m.audits <= n.audits && Vouched(n.audits, |m.audits|, Audit(m.history, rs[i].local, Before(rs[i].local), true))
    ensures Settled(n, rs, i + 1, start, c)
  {
    RowsCut(m, n, rs, start, i, i, c);
  }

  /** Outside a segment a record opens one or leaves everything alone. */
  lemma ConcludedOutside(m: Image, n: Image, rs: seq<Record>, i: nat, start: nat, c: Config)
    requires c.gridNs > 0 && i < |rs| && Replaying(m, rs, i, start, true, c) && !m.open && Ordered(n)
    requires n == m.(pending := [], next := n.next, open := Open(rs, i + 1), faithful := n.faithful, history := n.history)
    requires n.open ==> n.faithful && n.history == [Sample(rs[i].local, MidOf(rs[i].book))] && n.next == NextInstant(rs[i].local, c.gridNs)
    ensures Settled(n, rs, i + 1, i, c)
  {
    if n.open {
      MidsGrow(rs, i, i);
      assert Mids(rs, i, i) == [];
    }
  }

  /** The exporter is where the plan says: for any records whatever. */
  ghost predicate OnPlan(m: Image, p: Plan) {
    m.open == p.open && (p.open ==> m.next == p.next) && m.placed == p.placed
  }

  lemma AnnouncedPlan(m: Image, n: Image, rs: seq<Record>, i: nat, step: nat)
    requires step > 0 && i < |rs| && OnPlan(m, PlanAt(rs, i, step)) && n.open == m.open
    requires m.open ==> n.next == NextFrom(m.next, rs[i].local, false, step)
    requires n.placed == m.placed + if m.open then SamplesOn(BookBefore(rs, i), m.next, rs[i].local, false, step) else []
    ensures OnPlan(n, Midway(rs, i, false, step))
  {
  }

  /** Between two records: the exporter, its plan, and over a clean replay its evidence. */
  ghost predicate Between(e: NativeDatasetExporter, rs: seq<Record>, i: nat, start: nat)
    requires i <= |rs|
    reads e
  {
    && e.Valid() && !e.inside && e.tradeStreamUp == Up(rs, i)
    && (i > 0 ==> e.clock == rs[i - 1].local && e.shown == rs[i - 1].book) && OnPlan(Picture(e), PlanAt(rs, i, e.config.gridNs))
    && (Clean(rs) ==> Settled(Picture(e), rs, i, start, e.config))
  }

  ghost function Midway(rs: seq<Record>, i: nat, told: bool, step: nat): Plan
    requires step > 0 && i < |rs|
  {
    var p := Announced(PlanAt(rs, i, step), rs, i, step);
    if told then Told(p, rs, i) else p
  }

  /** While a record is replayed, before and after its event is told. */
  ghost predicate During(e: NativeDatasetExporter, rs: seq<Record>, i: nat, start: nat, told: bool)
    requires i < |rs|
    reads e
  {
    && e.Valid() && e.inside && e.clock == rs[i].local && e.tradeStreamUp == Up(rs, if told then i + 1 else i)
    && OnPlan(Picture(e), Midway(rs, i, told, e.config.gridNs))
    && (Clean(rs) ==> Replaying(Picture(e), rs, i, start, told, e.config))
  }

  /** Announcing a record. */
  method Announce(e: NativeDatasetExporter, rs: seq<Record>, i: nat, ghost start: nat)
    requires i < |rs| && Between(e, rs, i, start)
    modifies e
    ensures During(e, rs, i, start, false)
  {
    ghost var m := Picture(e);
    PlanIsUsable(rs, i, e.config.gridNs);
    e.BeforeRecord(rs[i].local, BookBefore(rs, i), LiveBefore(rs, i));
    AnnouncedPlan(m, Picture(e), rs, i, e.config.gridNs);
    if Clean(rs) {
      if m.open {
        AnnouncedOpen(m, Picture(e), rs, i, start, e.config);
      } else {
        AnnouncedIdle(m, Picture(e), rs, i, start, e.config);
      }
    }
  }

  /** A depth message: announced, applied or refused, and reported unless that failed. */
  method DeliverDepth(e: NativeDatasetExporter, rs: seq<Record>, i: nat, ghost start: nat)
    requires i < |rs| && rs[i].event.Depth? && During(e, rs, i, start, false)
    modifies e
    ensures During(e, rs, i, start, true)
  {
    e.BeforeDepthEvent(BookBefore(rs, i));
    match rs[i].event.outcome {
      case Applied => ReportApplied(e, rs, i, start);
      case Refused => ReportRefused(e, rs, i, start);
      case Failed => TellNothing(e, rs, i, start);
    }
  }

  /** An event the exporter is not told about. */
  ghost method TellNothing(e: NativeDatasetExporter, rs: seq<Record>, i: nat, start: nat)
    requires i < |rs| && During(e, rs, i, start, false) && (rs[i].event.Other? || (rs[i].event.Depth? && rs[i].event.outcome.Failed?))
    ensures During(e, rs, i, start, true)
  {
    if Clean(rs) {
      ToldQuiet(Picture(e), Picture(e), rs, i, start, e.config);
    }
  }

  method ReportApplied(e: NativeDatasetExporter, rs: seq<Record>, i: nat, ghost start: nat)
    requires i < |rs| && rs[i].event.Depth? && rs[i].event.outcome.Applied? && During(e, rs, i, start, false)
    requires e.flowValid == BookBefore(rs, i).valid
    modifies e
    ensures During(e, rs, i, start, true)
  {
    ghost var m := Picture(e);
    e.AfterDepthEvent(rs[i].local, rs[i].book, true, rs[i].live);
    if Clean(rs) {
      ToldApplied(m, Picture(e), rs, i, start, e.config);
    }
  }

  method ReportRefused(e: NativeDatasetExporter, rs: seq<Record>, i: nat, ghost start: nat)
    requires i < |rs| && rs[i].event.Depth? && rs[i].event.outcome.Refused? && During(e, rs, i, start, false)
    modifies e
    ensures During(e, rs, i, start, true)
  {
    ghost var m := Picture(e);
    e.AfterDepthEvent(rs[i].local, rs[i].book, false, rs[i].live);
    if Clean(rs) {
      ToldCut(m, Picture(e), rs, i, start, e.config);
    }
  }

  method DeliverSnapshot(e: NativeDatasetExporter, rs: seq<Record>, i: nat, ghost start: nat)
    requires i < |rs| && rs[i].event.Snapshot? && During(e, rs, i, start, false)
    modifies e
    ensures During(e, rs, i, start, true)
  {
    ghost var m := Picture(e);
    e.AfterSnapshot(rs[i].local, rs[i].live);
    if Clean(rs) {
      ToldCut(m, Picture(e), rs, i, start, e.config);
    }
  }

  method DeliverTrade(e: NativeDatasetExporter, rs: seq<Record>, i: nat, ghost start: nat)
    requires i < |rs| && rs[i].event.Trade? && During(e, rs, i, start, false)
    modifies e
    ensures During(e, rs, i, start, true)
  {
    ghost var m := Picture(e);
    e.OnTrade(rs[i].local, rs[i].event.trade, rs[i].book, rs[i].live);
    if Clean(rs) {
      if m.open {
        PrintsLive(m.pending, rs, i, i, e.config);
        ToldRows(m, Picture(e), rs, i, start, e.config);
      } else {
        ToldQuiet(m, Picture(e), rs, i, start, e.config);
      }
    }
  }

  method DeliverConnection(e: NativeDatasetExporter, rs: seq<Record>, i: nat, ghost start: nat)
    requires i < |rs| && rs[i].event.Connection? && During(e, rs, i, start, false)
    modifies e
    ensures During(e, rs, i, start, true)
  {
    ghost var m := Picture(e);
    e.OnConnection(rs[i].event.trades, rs[i].event.open);
    if Clean(rs) {
      ToldQuiet(m, Picture(e), rs, i, start, e.config);
    }
  }

  /** Delivering its event. */
  method Deliver(e: NativeDatasetExporter, rs: seq<Record>, i: nat, ghost start: nat)
    requires i < |rs| && During(e, rs, i, start, false)
    modifies e
    ensures During(e, rs, i, start, true)
  {
    match rs[i].event {
      case Connection(trades, open) => DeliverConnection(e, rs, i, start);
      case Snapshot => DeliverSnapshot(e, rs, i, start);
      case Depth(outcome) => DeliverDepth(e, rs, i, start);
      case Trade(trade) => DeliverTrade(e, rs, i, start);
      case Other => TellNothing(e, rs, i, start);
    }
  }

  /** Concluding the record: the segment goes on, ends, or opens. */
  method Conclude(e: NativeDatasetExporter, rs: seq<Record>, i: nat, ghost start: nat) returns (ghost from: nat)
    requires i < |rs| && Readable(rs[i]) && During(e, rs, i, start, true)
    modifies e
    ensures Between(e, rs, i + 1, from)
  {
    from := start;
    if e.inSegment && rs[i].live && e.tradeStreamUp {
      ConcludeInside(e, rs, i, start);
    } else if e.inSegment {
      ConcludeEnds(e, rs, i, start);
    } else {
      ConcludeOutside(e, rs, i, start);
      from := i;
    }
  }

  method ConcludeInside(e: NativeDatasetExporter, rs: seq<Record>, i: nat, ghost start: nat)
    requires i < |rs| && Readable(rs[i]) && During(e, rs, i, start, true) && e.inSegment && rs[i].live && e.tradeStreamUp
    modifies e
    ensures Between(e, rs, i + 1, start)
  {
    ghost var m := Picture(e);
    e.AfterRecord(rs[i].local, rs[i].book, rs[i].live);
    if Clean(rs) {
      ConcludedInside(m, Picture(e), rs, i, start, e.config);
    }
  }

  method ConcludeEnds(e: NativeDatasetExporter, rs: seq<Record>, i: nat, ghost start: nat)
    requires i < |rs| && Readable(rs[i]) && During(e, rs, i, start, true) && e.inSegment && !(rs[i].live && e.tradeStreamUp)
    modifies e
    ensures Between(e, rs, i + 1, start)
  {
    ghost var m := Picture(e);
    e.AfterRecord(rs[i].local, rs[i].book, rs[i].live);
    if Clean(rs) {
      ConcludedEnds(m, Picture(e), rs, i, start, e.config);
    }
  }

  method ConcludeOutside(e: NativeDatasetExporter, rs: seq<Record>, i: nat, ghost start: nat)
    requires i < |rs| && Readable(rs[i]) && During(e, rs, i, start, true) && !e.inSegment
    modifies e
    ensures Between(e, rs, i + 1, i)
  {
    ghost var m := Picture(e);
    e.AfterRecord(rs[i].local, rs[i].book, rs[i].live);
    if Clean(rs) {
      ConcludedOutside(m, Picture(e), rs, i, start, e.config);
    }
  }

  /** The whole replay. Every sample is written exactly once, in order, and the samples are those the
      records call for. When stamps never go back and a live book is usable, these are, record by record,
      the grid instants between records of a segment and the stamp of a record it outlives; AllDueExact
      gives them all at once. When stamps rise, every row written is true to its records. */
  method Replay(config: Config, rs: seq<Record>) returns (rows: seq<Row>)
    requires config.Ok() && AllReadable(rs)
    ensures Stamps(rows) == PlanAt(rs, |rs|, config.gridNs).placed
    ensures StampsOrdered(rs) && LiveShows(rs) ==> Stamps(rows) == AllDue(rs, |rs|, config.gridNs, HABITS)
    ensures Clean(rs) ==> forall k {:trigger rows[k]} | 0 <= k < |rows| :: TrueRow(rows[k], rs, config)
  {
    var e := new NativeDatasetExporter(config);
    var i := 0;
    ghost var start := 0;
    while i < |rs|
      invariant 0 <= i <= |rs| && e.config == config && fresh(e) && Between(e, rs, i, start)
    {
      assert Readable(rs[i]);
      Announce(e, rs, i, start);
      Deliver(e, rs, i, start);
      start := Conclude(e, rs, i, start);
      i := i + 1;
    }
    End(e, rs, start);
    if StampsOrdered(rs) && LiveShows(rs) {
      PlanIsAllDue(rs, |rs|, config.gridNs);
    }
    rows := e.written;
  }

  /** Closing the exporter. */
  method End(e: NativeDatasetExporter, rs: seq<Record>, ghost start: nat)
    requires Between(e, rs, |rs|, start)
    modifies e
    ensures Stamps(e.written) == e.placed == old(e.placed)
    ensures Clean(rs) ==> forall k {:trigger e.written[k]} | 0 <= k < |e.written| :: TrueRow(e.written[k], rs, e.config)
  {
    ghost var m := Picture(e);
    e.Finish();
    if Clean(rs) {
      if m.open {
        RowsCut(m, Picture(e), rs, start, |rs|, |rs| - 1, e.config);
      } else {
        NoneCut(m, Picture(e), rs, e.config);
      }
      AllGroundedTrue(e.written, e.audits, rs, e.config);
    }
  }

  lemma AllGroundedTrue(written: seq<Row>, audits: seq<Option<Audit>>, rs: seq<Record>, c: Config)
    requires StampsRise(rs) && Audited(written, audits, c) && AllGrounded(written, audits, rs, c)
    ensures forall k {:trigger written[k]} | 0 <= k < |written| :: TrueRow(written[k], rs, c)
  {
    forall k | 0 <= k < |written| ensures TrueRow(written[k], rs, c) {
      assert AuditHolds(written[k], audits[k], c) && Grounded(written[k], audits[k], rs, c);
      GroundedIsTrue(written[k], audits[k], rs, c);
    }
  }
}
