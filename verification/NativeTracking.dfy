/** Following the labels of a segment from record to record (cpp/research/native_dataset_exporter.cpp:
    272-283, 747-767, 980-1002, and the callback order of cpp/replay/event_replayer.cpp:170-260). All of
    it is conditional on what the exporter relies on: within the segment stamps rise strictly, and the
    book shown before a record is the one left by the record before it. */
module NativeTracking {
  import opened Wrappers
  import opened OrderBooks
  import opened NativeRows
  import opened NativeResolver
  import opened NativeTruth
  import opened NativeEvents
  import opened NativeCalls
  import opened NativeCounts
  import opened NativePassives
  import QueueGrid

  ghost predicate RowsBefore(rows: seq<Row>, t: nat) {
    forall k | 0 <= k < |rows| :: rows[k].ns < t
  }

  /** After a record and its callbacks: every label due by its stamp is decided. */
  ghost predicate Between(s: Resolver, h: seq<Sample>, clock: nat, nextSample: nat, shown: Book, c: Config) {
    && Tracked(s, h, clock, clock, c)
    && LastNs(h) == clock <= nextSample
    && RowsBefore(s.pending, clock + 1)
    && shown.valid && shown.TwoSided() && shown.MidX2() == LastMid(h)
  }

  /** While a record is replayed: every label due before its stamp is decided. */
  ghost predicate Within(s: Resolver, h: seq<Sample>, clock: nat, nextSample: nat, c: Config) {
    && clock > 0
    && Tracked(s, h, clock, clock - 1, c)
    && LastNs(h) < clock <= nextSample
    && RowsBefore(s.pending, clock)
  }

  /** Between the two resolver calls of a callback: rows may have been placed up to `limit`. */
  ghost predicate Emitting(s: Resolver, h: seq<Sample>, now: nat, due: nat, limit: nat, c: Config) {
    && Inv(s, due, c) && Rising(h) && LastNs(h) <= due <= now
    && AllTrueOrNew(s.pending, h, now, due, limit, c)
    && RowsBefore(s.pending, limit + 1)
  }

  /** A call is good when it leaves the labels true and writes only true rows. */
  ghost predicate GoodCall(s: Resolver, h: seq<Sample>, now: nat, due: nat, midX2: int, c: Config) {
    && AllShaped(s.pending, c)
    && var l := LazyCall(s, now, due, midX2, c);
       && Tracked(l, h, now, due, c)
       && |l.written| >= |s.written| && AllTrue(l.written[|s.written|..], h, now, due, c)
  }

  lemma TrackedEmits(s: Resolver, h: seq<Sample>, now: nat, due: nat, limit: nat, c: Config)
    requires Tracked(s, h, now, due, c) && RowsBefore(s.pending, limit + 1)
    ensures Emitting(s, h, now, due, limit, c)
  {
  }

  lemma EmitKeepsInv(s: Resolver, r: Row, lastDue: nat, c: Config)
    requires Inv(s, lastDue, c) && CacheOk(r, lastDue, c) && r.nextDeadline.At?
    ensures Inv(Emitted(s, r), lastDue, c)
  {
    EmitKeepsMin(s, r);
  }

  /** A row emitted on the unchanged book starts out true, even when its grid instant is already past. */
  lemma EmitKeepsEmitting(s: Resolver, r: Row, h: seq<Sample>, now: nat, due: nat, limit: nat, book: Book, c: Config)
    requires c.Ok() && Emitting(s, h, now, due, limit, c) && book.TwoSided() && book.MidX2() == LastMid(h)
    requires LastNs(h) <= r.ns <= limit
    requires r == NewRow(r.ns, book.MidX2(), book.bids.price, book.bids.qty, book.asks.price, book.asks.qty, c)
    ensures Emitting(Emitted(s, r), h, now, due, limit, c)
  {
    NewRowIsTrue(r.ns, h, book.bids.price, book.bids.qty, book.asks.price, book.asks.qty, c);
    NewRowCache(r.ns, book.MidX2(), book.bids.price, book.bids.qty, book.asks.price, book.asks.qty, due, c);
    EmitKeepsInv(s, r, due, c);
    var e := Emitted(s, r);
    forall k | 0 <= k < |e.pending| ensures RowTrue(e.pending[k], h, now, due, c) || Newborn(e.pending[k], h, limit, c) {
      if k == |s.pending| {
        assert e.pending[k] == r;
      } else {
        assert e.pending[k] == s.pending[k];
      }
    }
  }

  lemma QuietIsGood(s: Resolver, h: seq<Sample>, now0: nat, due0: nat, now: nat, due: nat, c: Config)
    requires c.Ok() && Emitting(s, h, now0, due0, due, c) && now0 <= now && due0 <= due <= now
    ensures GoodCall(s, h, now, due, LastMid(h), c)
  {
    QuietCall(s, h, now0, due0, now, due, c);
  }

  lemma RecordIsGood(s: Resolver, h: seq<Sample>, x: Sample, nextSample: nat, c: Config)
    requires c.Ok() && Within(s, h, x.ns, nextSample, c)
    ensures GoodCall(s, h + [x], x.ns, x.ns, x.midX2, c)
  {
    RecordCall(s, h, x, c);
  }

  lemma {:induction false} CallKeepsBefore(s: Resolver, now: nat, due: nat, midX2: int, t: nat, c: Config)
    requires AllLow(s.pending, c) && AllShaped(s.pending, c) && RowsBefore(s.pending, t)
    ensures RowsBefore(LazyCall(s, now, due, midX2, c).pending, t)
  {
    var midChanged := s.lastMid != Some(midX2);
    LazyRowsKeepLow(s.pending, midChanged, now, due, midX2, c);
  }

  /** A hit row still waits for its fill horizon. */
  lemma PrintKeepsWaiting(r: Row, local: nat, t: QueueGrid.Print, mid: int, lastDue: nat, c: Config)
    requires CacheOk(r, lastDue, c) && lastDue < local && r.nextDeadline.At?
    ensures PrintRow(r, local, t, mid, c).nextDeadline.At?
  {
  }

  lemma PrintsKeepTracked(s: Resolver, h: seq<Sample>, local: nat, t: QueueGrid.Print, mid: int, c: Config)
    requires c.Ok() && local > 0 && Tracked(s, h, local, local - 1, c) && LastNs(h) < local
    ensures AllShaped(s.pending, c) && Tracked(Printed(s, local, t, mid, c), h, local, local - 1, c)
  {
    CachesShaped(s.pending, local - 1, c);
    PrintsKeepMin(s, local, t, mid, c);
    PrintsKeepTrue(s.pending, h, local, t, mid, c);
    PrintsKeepCaches(s.pending, local, t, mid, c);
    if s.pending != [] {
      assert CacheOk(s.pending[0], local - 1, c);
      PrintKeepsWaiting(s.pending[0], local, t, mid, local - 1, c);
    }
  }

  lemma PrintsKeepTrue(rows: seq<Row>, h: seq<Sample>, local: nat, t: QueueGrid.Print, mid: int, c: Config)
    requires c.Ok() && local > 0 && AllShaped(rows, c) && AllTrue(rows, h, local, local - 1, c) && Rising(h) && LastNs(h) < local
    ensures AllTrue(PrintRows(rows, local, t, mid, c), h, local, local - 1, c)
  {
    forall k | 0 <= k < |rows| ensures RowTrue(PrintRow(rows[k], local, t, mid, c), h, local, local - 1, c) {
      PrintKeepsTruth(rows[k], h, local, t, mid, c);
    }
  }

  lemma PrintsKeepCaches(rows: seq<Row>, local: nat, t: QueueGrid.Print, mid: int, c: Config)
    requires local > 0 && CachesOk(rows, local - 1, c) && AllShaped(rows, c)
    ensures CachesOk(PrintRows(rows, local, t, mid, c), local - 1, c)
  {
    forall k | 0 <= k < |rows| ensures CacheOk(PrintRow(rows[k], local, t, mid, c), local - 1, c) {
      PrintKeepsCache(rows[k], local, t, mid, local - 1, c);
    }
  }

  lemma PrintsKeepBefore(rows: seq<Row>, local: nat, t: QueueGrid.Print, mid: int, limit: nat, c: Config)
    requires AllShaped(rows, c) && RowsBefore(rows, limit)
    ensures RowsBefore(PrintRows(rows, local, t, mid, c), limit)
  {
  }

  lemma PrintsKeepWithin(s: Resolver, h: seq<Sample>, clock: nat, nextSample: nat, t: QueueGrid.Print, mid: int, c: Config)
    requires c.Ok() && Within(s, h, clock, nextSample, c)
    ensures AllShaped(s.pending, c) && Within(Printed(s, clock, t, mid, c), h, clock, nextSample, c)
  {
    PrintsKeepTracked(s, h, clock, t, mid, c);
    PrintsKeepBefore(s.pending, clock, t, mid, clock, c);
  }

  /** One row watched. */
  ghost function WatchedAt(rows: seq<Row>, k: nat, local: nat, book: Book, c: Config): (ws: seq<Row>)
    requires k < |rows| && book.TwoSided()
  {
    rows[k := WatchRow(rows[k], local, book, c)]
  }

  lemma WatchKeepsAllTrue(rows: seq<Row>, h: seq<Sample>, now: nat, due: nat, k: nat, local: nat, book: Book, c: Config)
    requires AllTrue(rows, h, now, due, c) && k < |rows| && book.TwoSided()
    ensures AllTrue(WatchedAt(rows, k, local, book, c), h, now, due, c)
  {
    WatchKeepsTruth(rows[k], h, now, due, local, book, c);
  }

  lemma WatchKeepsPlacement(r: Row, local: nat, book: Book, c: Config)
    requires book.TwoSided()
    ensures var w := WatchRow(r, local, book, c); w.ns == r.ns && w.nextDeadline == r.nextDeadline
  {
  }

  lemma WatchKeepsInv(s: Resolver, lastDue: nat, k: nat, local: nat, book: Book, c: Config)
    requires Inv(s, lastDue, c) && k < |s.pending| && book.TwoSided()
    ensures Inv(s.(pending := WatchedAt(s.pending, k, local, book, c)), lastDue, c)
  {
    WatchKeepsCache(s.pending[k], local, book, lastDue, c);
    WatchKeepsPlacement(s.pending[k], local, book, c);
    UpdateKeepsInv(s, WatchRow(s.pending[k], local, book, c), k, lastDue, c);
  }

  lemma UpdateKeepsInv(s: Resolver, w: Row, k: nat, lastDue: nat, c: Config)
    requires Inv(s, lastDue, c) && k < |s.pending| && CacheOk(w, lastDue, c) && w.nextDeadline == s.pending[k].nextDeadline
    ensures Inv(s.(pending := s.pending[k := w]), lastDue, c)
  {
  }

  lemma WatchKeepsBefore(rows: seq<Row>, t: nat, k: nat, local: nat, book: Book, c: Config)
    requires RowsBefore(rows, t) && k < |rows| && book.TwoSided()
    ensures RowsBefore(WatchedAt(rows, k, local, book, c), t)
  {
    WatchKeepsPlacement(rows[k], local, book, c);
  }

  lemma WatchKeepsTracked(s: Resolver, h: seq<Sample>, now: nat, due: nat, k: nat, local: nat, book: Book, c: Config)
    requires Tracked(s, h, now, due, c) && k < |s.pending| && book.TwoSided()
    ensures Tracked(s.(pending := WatchedAt(s.pending, k, local, book, c)), h, now, due, c)
  {
    WatchKeepsInv(s, due, k, local, book, c);
    WatchKeepsAllTrue(s.pending, h, now, due, k, local, book, c);
  }

  lemma WatchKeepsWithin(s: Resolver, h: seq<Sample>, clock: nat, nextSample: nat, k: nat, local: nat, book: Book, c: Config)
    requires Within(s, h, clock, nextSample, c) && book.TwoSided() && k < |s.pending|
    ensures Within(s.(pending := WatchedAt(s.pending, k, local, book, c)), h, clock, nextSample, c)
  {
    WatchKeepsTracked(s, h, clock, clock - 1, k, local, book, c);
    WatchKeepsBefore(s.pending, clock, k, local, book, c);
  }

  /** A segment starts with the mid its first record left. */
  lemma FreshSegment(s: Resolver, clock: nat, nextSample: nat, shown: Book, c: Config)
    requires s.pending == [] && s.minDeadline.Never? && shown.valid && shown.TwoSided() && clock <= nextSample
    ensures Between(s, [Sample(clock, shown.MidX2())], clock, nextSample, shown, c)
  {
  }

  /** The evidence a written row is held to: the history known when it was written, the stamp of the record
      being replayed, the deadlines decided by then, and whether the row was cut off with labels still to
      come. */
  datatype Audit = Audit(history: seq<Sample>, now: nat, due: nat, cut: bool)

  ghost predicate AuditHolds(r: Row, a: Option<Audit>, c: Config) {
    a.Some? ==> RowTrue(r, a.value.history, a.value.now, a.value.due, c) && (FullyDecided(r) || a.value.cut)
  }

  ghost predicate Audited(written: seq<Row>, audits: seq<Option<Audit>>, c: Config) {
    |audits| == |written| && forall k {:trigger AuditHolds(written[k], audits[k], c)} | 0 <= k < |written| :: AuditHolds(written[k], audits[k], c)
  }

  /** Every row written since carries this evidence. */
  ghost predicate Vouched(audits: seq<Option<Audit>>, from: nat, a: Audit) {
    forall k | from <= k < |audits| :: audits[k] == Some(a)
  }

  /** What falls due before a stamp. */
  function Before(t: nat): nat {
    if t == 0 then 0 else t - 1
  }

  /** The audits once `written` has grown: newly written rows are held to the given evidence. */
  ghost function Extended(audits: seq<Option<Audit>>, n: nat, a: Option<Audit>): (r: seq<Option<Audit>>)
    requires |audits| <= n
    ensures |r| == n && audits <= r && forall k | |audits| <= k < n :: r[k] == a
  {
    audits + seq(n - |audits|, _ => a)
  }

  lemma AuditsExtend(was: seq<Row>, written: seq<Row>, audits: seq<Option<Audit>>, a: Option<Audit>, c: Config)
    requires Audited(was, audits, c) && was <= written
    requires a.Some? ==> AllTrue(written[|was|..], a.value.history, a.value.now, a.value.due, c)
    requires a.Some? ==> a.value.cut || AllDecided(written[|was|..])
    ensures Audited(written, Extended(audits, |written|, a), c)
  {
    var e := Extended(audits, |written|, a);
    forall k | 0 <= k < |written| ensures AuditHolds(written[k], e[k], c) {
      if k < |was| {
        assert AuditHolds(was[k], audits[k], c) && written[k] == was[k];
      } else {
        assert written[k] == written[|was|..][k - |was|];
      }
    }
  }

  /** The evidence a resolver call vouches with. */
  ghost function Evidence(good: bool, h: seq<Sample>, now: nat, due: nat, cut: bool): Option<Audit> {
    if good then Some(Audit(h, now, due, cut)) else None
  }

  /** A call keeps the books, and a good one vouches for every row it writes. */
  lemma CallKeepsBooks(s: Resolver, l: Resolver, watchingRows: int, placed: seq<nat>, audits: seq<Option<Audit>>, good: bool,
                       h: seq<Sample>, now: nat, due: nat, midX2: int, c: Config)
    requires Counted(s, watchingRows, placed, c) && Audited(s.written, audits, c)
    requires AllShaped(s.pending, c) && l == LazyCall(s, now, due, midX2, c)
    requires good ==> GoodCall(s, h, now, due, midX2, c)
    ensures Counted(l, watchingRows, placed, c)
    ensures s.written <= l.written && |audits| <= |l.written|
    ensures Audited(l.written, Extended(audits, |l.written|, Evidence(good, h, now, due, false)), c)
  {
    CallKeepsCounted(s, watchingRows, placed, now, due, midX2, c);
    CallKeepsCounts(s, now, due, midX2, c);
    CallWritesDone(s, now, due, midX2, c);
    AuditsExtend(s.written, l.written, audits, Evidence(good, h, now, due, false), c);
  }
}
