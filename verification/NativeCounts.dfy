/** The bookkeeping of the native dataset (cpp/research/native_dataset_exporter.cpp:252-270, 456-526, 528-556,
    670-676) that has to hold on every run, whatever the record stamps: cached deadlines are never
    late, the watch counter is exact, and every sample is pending or written, in sample order. */
module NativeCounts {
  import opened Wrappers
  import opened OrderBooks
  import opened NativeRows
  import opened NativeResolver
  import opened NativeEvents
  import QueueGrid

  /** Cached deadlines are never late. This holds on every run, whatever the record stamps. */
  ghost predicate Low(r: Row, c: Config) {
    Shaped(r, c) && Leq(r.nextDeadline, Fresh(r, c))
  }

  ghost predicate AllLow(rows: seq<Row>, c: Config) {
    forall k {:trigger Low(rows[k], c)} | 0 <= k < |rows| :: Low(rows[k], c)
  }

  function CountWatching(rows: seq<Row>, n: nat): (w: nat)
    requires n <= |rows|
    ensures w <= n
  {
    if n == 0 then 0 else CountWatching(rows, n - 1) + if rows[n - 1].watching then 1 else 0
  }

  ghost function Stamps(rows: seq<Row>): (ns: seq<nat>)
    ensures |ns| == |rows| && forall k | 0 <= k < |rows| :: ns[k] == rows[k].ns
  {
    seq(|rows|, k requires 0 <= k < |rows| => rows[k].ns)
  }

  lemma MoveKeepsLow(r: Row, midX2: int, now: nat, c: Config)
    requires Low(r, c)
    ensures Low(ApplyMidMove(r, midX2, now, c), c)
  {
    var m := ApplyMidMove(r, midX2, now, c);
    if m != r {
      assert MarkoutHorizons(m, c) == MarkoutHorizons(r, c);
      MoveKeepsSide(true, r, r.bid, midX2, now, c);
      MoveKeepsSide(false, r, r.ask, midX2, now, c);
    }
  }

  lemma LazyKeepsLow(r: Row, midChanged: bool, now: nat, due: nat, midX2: int, c: Config)
    requires Low(r, c)
    ensures var l := LazyRow(r, midChanged, now, due, midX2, c);
            Low(l, c) && l.watching == r.watching && l.ns == r.ns
  {
    MoveKeepsLow(r, midX2, now, c);
    var moved := if midChanged then ApplyMidMove(r, midX2, now, c) else r;
    if r.ns < now && Leq(moved.nextDeadline, At(due)) {
      var d := Decide(moved, due, midX2, c);
      FreshIgnoresCache(d, Fresh(d, c), c);
    }
  }

  /** A row is written only once no book race watches it any more. */
  lemma NeverMeansUnwatched(r: Row, c: Config)
    requires Low(r, c) && r.nextDeadline.Never?
    ensures !r.watching
  {
  }

  lemma {:induction false} WatchingSame(a: seq<Row>, b: seq<Row>, n: nat)
    requires n <= |a| == |b| && forall k | 0 <= k < n :: a[k].watching == b[k].watching
    ensures CountWatching(a, n) == CountWatching(b, n)
  {
    if n > 0 {
      WatchingSame(a, b, n - 1);
    }
  }

  lemma {:induction false} WatchingDropped(rows: seq<Row>, k: nat, n: nat)
    requires k <= |rows| && n <= |rows| - k && forall i | 0 <= i < k :: !rows[i].watching
    ensures CountWatching(rows[k..], n) == CountWatching(rows, k + n)
    decreases n + k
  {
    if n > 0 {
      WatchingDropped(rows, k, n - 1);
    } else if k > 0 {
      WatchingDropped(rows, k - 1, 0);
    }
  }

  lemma {:induction false} LeadingAreNever(rows: seq<Row>, k: nat)
    requires k <= |rows| && forall i | 0 <= i < k :: rows[i].nextDeadline.Never?
    ensures forall i | 0 <= i < LeadingNever(rows, k) :: rows[i].nextDeadline.Never?
    decreases |rows| - k
  {
    if k < |rows| && rows[k].nextDeadline.Never? {
      LeadingAreNever(rows, k + 1);
    }
  }

  ghost predicate SamePlacements(a: seq<Row>, b: seq<Row>) {
    |a| == |b| && forall k | 0 <= k < |a| :: a[k].watching == b[k].watching && a[k].ns == b[k].ns
  }

  lemma LazyRowsKeepLow(rows: seq<Row>, midChanged: bool, now: nat, due: nat, midX2: int, c: Config)
    requires AllLow(rows, c) && AllShaped(rows, c)
    ensures var ls := LazyRows(rows, midChanged, now, due, midX2, c);
            AllLow(ls, c) && SamePlacements(ls, rows)
  {
    forall k | 0 <= k < |rows|
      ensures Low(LazyRow(rows[k], midChanged, now, due, midX2, c), c)
      ensures LazyRow(rows[k], midChanged, now, due, midX2, c).watching == rows[k].watching
      ensures LazyRow(rows[k], midChanged, now, due, midX2, c).ns == rows[k].ns
    {
      LazyKeepsLow(rows[k], midChanged, now, due, midX2, c);
    }
  }

  /** Rows ready to be written are not watched. */
  lemma LeadingAreUnwatched(rows: seq<Row>, c: Config)
    requires AllLow(rows, c)
    ensures forall i | 0 <= i < LeadingNever(rows, 0) :: !rows[i].watching
  {
    LeadingAreNever(rows, 0);
    forall i | 0 <= i < LeadingNever(rows, 0) ensures !rows[i].watching {
      assert Low(rows[i], c);
      NeverMeansUnwatched(rows[i], c);
    }
  }

  /** Rows leave the front unwatched, so the watch counter needs no correction. */
  lemma FlushKeepsWatching(rows: seq<Row>, was: seq<Row>, n: nat)
    requires SamePlacements(rows, was) && n <= |rows| && forall i | 0 <= i < n :: !rows[i].watching
    ensures CountWatching(rows[n..], |rows| - n) == CountWatching(was, |was|)
  {
    WatchingDropped(rows, n, |rows| - n);
    WatchingSame(rows, was, |rows|);
  }

  lemma StampsRegroup(a: seq<nat>, b: seq<nat>, c: seq<nat>)
    ensures (a + b) + c == a + (b + c)
  {
  }

  lemma FlushKeepsStamps(written: seq<Row>, rows: seq<Row>, was: seq<Row>, n: nat)
    requires n <= |rows| && SamePlacements(rows, was)
    ensures Stamps(written + rows[..n]) + Stamps(rows[n..]) == Stamps(written) + Stamps(was)
  {
    StampsAppended(written, rows[..n]);
    StampsAppended(rows[..n], rows[n..]);
    assert rows[..n] + rows[n..] == rows && Stamps(rows) == Stamps(was);
    StampsRegroup(Stamps(written), Stamps(rows[..n]), Stamps(rows[n..]));
  }

  /** A call neither loses, duplicates nor reorders a row, on any run. */
  lemma CallKeepsCounts(s: Resolver, now: nat, due: nat, midX2: int, c: Config)
    requires AllLow(s.pending, c) && AllShaped(s.pending, c)
    ensures var l := LazyCall(s, now, due, midX2, c);
            && AllLow(l.pending, c)
            && CountWatching(l.pending, |l.pending|) == CountWatching(s.pending, |s.pending|)
            && Stamps(l.written) + Stamps(l.pending) == Stamps(s.written) + Stamps(s.pending)
            && s.written <= l.written
  {
    var midChanged := s.lastMid != Some(midX2);
    var rows := LazyRows(s.pending, midChanged, now, due, midX2, c);
    RowsKeepCounts(s.pending, rows, s.written, midChanged, now, due, midX2, c);
  }

  lemma RowsKeepCounts(was: seq<Row>, rows: seq<Row>, written: seq<Row>, midChanged: bool, now: nat, due: nat, midX2: int, c: Config)
    requires AllLow(was, c) && AllShaped(was, c) && rows == LazyRows(was, midChanged, now, due, midX2, c)
    ensures var n := LeadingNever(rows, 0);
            && AllLow(rows[n..], c)
            && CountWatching(rows[n..], |rows| - n) == CountWatching(was, |was|)
            && Stamps(written + rows[..n]) + Stamps(rows[n..]) == Stamps(written) + Stamps(was)
  {
    LazyRowsKeepLow(was, midChanged, now, due, midX2, c);
    FlushKeepsCounts(was, rows, written, c);
  }

  lemma FlushKeepsCounts(was: seq<Row>, rows: seq<Row>, written: seq<Row>, c: Config)
    requires AllLow(rows, c) && SamePlacements(rows, was)
    ensures var n := LeadingNever(rows, 0);
            && AllLow(rows[n..], c)
            && CountWatching(rows[n..], |rows| - n) == CountWatching(was, |was|)
            && Stamps(written + rows[..n]) + Stamps(rows[n..]) == Stamps(written) + Stamps(was)
  {
    var n := LeadingNever(rows, 0);
    LeadingAreUnwatched(rows, c);
    FlushKeepsWatching(rows, was, n);
    FlushKeepsStamps(written, rows, was, n);
    LowSuffix(rows, n, c);
  }

  lemma LowSuffix(rows: seq<Row>, n: nat, c: Config)
    requires n <= |rows| && AllLow(rows, c)
    ensures AllLow(rows[n..], c)
  {
  }

  lemma {:induction false} NoneWatching(rows: seq<Row>, n: nat)
    requires n <= |rows| && CountWatching(rows, n) == 0
    ensures forall k | 0 <= k < n :: !rows[k].watching
  {
    if n > 0 {
      NoneWatching(rows, n - 1);
    }
  }

  lemma {:induction false} CountUpdated(rows: seq<Row>, k: nat, r: Row, n: nat)
    requires k < |rows| && n <= |rows|
    ensures CountWatching(rows[k := r], n) ==
            CountWatching(rows, n) + if k < n then (if r.watching then 1 else 0) - (if rows[k].watching then 1 else 0) else 0
  {
    if n > 0 {
      CountUpdated(rows, k, r, n - 1);
    }
  }

  lemma CountAppended(rows: seq<Row>, r: Row)
    ensures CountWatching(rows + [r], |rows| + 1) == CountWatching(rows, |rows|) + if r.watching then 1 else 0
  {
    WatchingSame((rows + [r])[..|rows|], rows, |rows|);
    WatchingPrefix(rows + [r], |rows|, |rows|);
  }

  lemma {:induction false} WatchingPrefix(rows: seq<Row>, m: nat, n: nat)
    requires n <= m <= |rows|
    ensures CountWatching(rows[..m], n) == CountWatching(rows, n)
  {
    if n > 0 {
      WatchingPrefix(rows, m, n - 1);
    }
  }

  lemma StampsAppended(a: seq<Row>, b: seq<Row>)
    ensures Stamps(a + b) == Stamps(a) + Stamps(b)
  {
  }

  /** The books the exporter keeps about its rows. */
  ghost predicate Counted(s: Resolver, watchingRows: int, placed: seq<nat>, c: Config) {
    && AllLow(s.pending, c)
    && MinBelow(s.minDeadline, s.pending)
    && watchingRows == CountWatching(s.pending, |s.pending|)
    && placed == Stamps(s.written) + Stamps(s.pending)
  }

  lemma LowShaped(rows: seq<Row>, c: Config)
    requires AllLow(rows, c)
    ensures AllShaped(rows, c)
  {
    forall k | 0 <= k < |rows| ensures Shaped(rows[k], c) {
      assert Low(rows[k], c);
    }
  }

  lemma CallKeepsMin(s: Resolver, now: nat, due: nat, midX2: int, c: Config)
    requires AllShaped(s.pending, c) && MinBelow(s.minDeadline, s.pending)
    ensures var l := LazyCall(s, now, due, midX2, c); MinBelow(l.minDeadline, l.pending)
  {
    var midChanged := s.lastMid != Some(midX2);
    var rows := LazyRows(s.pending, midChanged, now, due, midX2, c);
    MinOfSuffix(rows, LeadingNever(rows, 0));
  }

  lemma MinOfSuffix(rows: seq<Row>, n: nat)
    requires n <= |rows|
    ensures MinBelow(SoonestCached(rows, |rows|), rows[n..])
  {
  }

  lemma CallKeepsCounted(s: Resolver, watchingRows: int, placed: seq<nat>, now: nat, due: nat, midX2: int, c: Config)
    requires Counted(s, watchingRows, placed, c)
    ensures AllShaped(s.pending, c) && Counted(LazyCall(s, now, due, midX2, c), watchingRows, placed, c)
  {
    LowShaped(s.pending, c);
    CallKeepsCounts(s, now, due, midX2, c);
    CallKeepsMin(s, now, due, midX2, c);
  }

  /** emit_sample: one more row at the back. */
  function Emitted(s: Resolver, r: Row): Resolver {
    s.(pending := s.pending + [r], minDeadline := Sooner(s.minDeadline, r.nextDeadline))
  }

  lemma EmitKeepsCounted(s: Resolver, watchingRows: int, placed: seq<nat>, r: Row, c: Config)
    requires Counted(s, watchingRows, placed, c) && Low(r, c) && r.watching
    ensures Counted(Emitted(s, r), watchingRows + 1, placed + [r.ns], c)
  {
    var e := Emitted(s, r);
    CountAppended(s.pending, r);
    StampsEmitted(s.written, s.pending, r);
    LowAppended(s.pending, r, c);
    EmitKeepsMin(s, r);
  }

  lemma StampsEmitted(written: seq<Row>, rows: seq<Row>, r: Row)
    ensures Stamps(written) + Stamps(rows + [r]) == Stamps(written) + Stamps(rows) + [r.ns]
  {
    assert Stamps(rows + [r]) == Stamps(rows) + [r.ns];
  }

  lemma LowAppended(rows: seq<Row>, r: Row, c: Config)
    requires AllLow(rows, c) && Low(r, c)
    ensures AllLow(rows + [r], c)
  {
  }

  lemma LowUpdated(rows: seq<Row>, k: nat, r: Row, c: Config)
    requires AllLow(rows, c) && k < |rows| && Low(r, c)
    ensures AllLow(rows[k := r], c)
  {
  }

  lemma EmitKeepsMin(s: Resolver, r: Row)
    requires MinBelow(s.minDeadline, s.pending)
    ensures MinBelow(Sooner(s.minDeadline, r.nextDeadline), s.pending + [r])
  {
  }

  /** close_segment: everything still pending is written as it stands. */
  lemma CloseKeepsCounted(s: Resolver, watchingRows: int, placed: seq<nat>, c: Config)
    requires Counted(s, watchingRows, placed, c)
    ensures Counted(s.(pending := [], written := s.written + s.pending), 0, placed, c)
  {
    StampsAppended(s.written, s.pending);
    assert Stamps([]) == [];
  }

  predicate SameFills(was: Row, now: Row) {
    now.bid.fill.fullFilled == was.bid.fill.fullFilled && now.ask.fill.fullFilled == was.ask.fill.fullFilled
  }

  /** The global minimum once the first n rows have been replaced: it follows the deadline of every row
      that filled. */
  function MinOver(was: seq<Row>, now: seq<Row>, d: Deadline, n: nat): (m: Deadline)
    requires n <= |was| == |now|
    ensures Leq(m, d) && forall k | 0 <= k < n :: Leq(m, now[k].nextDeadline) || SameFills(was[k], now[k])
  {
    if n == 0 then d
    else if SameFills(was[n - 1], now[n - 1]) then MinOver(was, now, d, n - 1)
    else Sooner(MinOver(was, now, d, n - 1), now[n - 1].nextDeadline)
  }

  ghost function PrintRows(rows: seq<Row>, local: nat, t: QueueGrid.Print, mid: int, c: Config): (ps: seq<Row>)
    requires AllShaped(rows, c)
    ensures |ps| == |rows| && forall k | 0 <= k < |rows| :: ps[k] == PrintRow(rows[k], local, t, mid, c)
  {
    seq(|rows|, k requires 0 <= k < |rows| => PrintRow(rows[k], local, t, mid, c))
  }

  lemma PrintKeepsLow(r: Row, local: nat, t: QueueGrid.Print, mid: int, c: Config)
    requires Low(r, c)
    ensures var p := PrintRow(r, local, t, mid, c); Low(p, c) && p.ns == r.ns && p.watching == r.watching
  {
    PrintKeepsDeadline(true, r.ns, r.bid, r.watching, local, t, mid, c);
    PrintKeepsDeadline(false, r.ns, r.ask, r.watching, local, t, mid, c);
    var hit := if t.aggressiveBuy then r.(ask := PrintSide(false, r.ns, r.ask, local, t, mid, c))
               else r.(bid := PrintSide(true, r.ns, r.bid, local, t, mid, c));
    assert MarkoutHorizons(hit, c) == MarkoutHorizons(r, c);
    FreshIgnoresCache(hit, Fresh(hit, c), c);
  }

  lemma PrintsKeepLow(rows: seq<Row>, local: nat, t: QueueGrid.Print, mid: int, c: Config)
    requires AllLow(rows, c) && AllShaped(rows, c)
    ensures var ps := PrintRows(rows, local, t, mid, c); AllLow(ps, c) && SamePlacements(ps, rows)
  {
    forall k | 0 <= k < |rows|
      ensures Low(PrintRow(rows[k], local, t, mid, c), c)
      ensures PrintRow(rows[k], local, t, mid, c).ns == rows[k].ns
      ensures PrintRow(rows[k], local, t, mid, c).watching == rows[k].watching
    {
      PrintKeepsLow(rows[k], local, t, mid, c);
    }
  }

  /** What a print makes of one row, and of all of them. */
  ghost predicate TurnsInto(r: Row, p: Row, local: nat, t: QueueGrid.Print, mid: int, c: Config) {
    Shaped(r, c) && p == PrintRow(r, local, t, mid, c)
  }

  ghost predicate AllTurnInto(rows: seq<Row>, ps: seq<Row>, local: nat, t: QueueGrid.Print, mid: int, c: Config) {
    |ps| == |rows|
    && forall k {:trigger TurnsInto(rows[k], ps[k], local, t, mid, c)} | 0 <= k < |rows| :: TurnsInto(rows[k], ps[k], local, t, mid, c)
  }

  ghost function Printed(s: Resolver, local: nat, t: QueueGrid.Print, mid: int, c: Config): Resolver
    requires AllShaped(s.pending, c)
  {
    var ps := PrintRows(s.pending, local, t, mid, c);
    s.(pending := ps, minDeadline := MinOver(s.pending, ps, s.minDeadline, |ps|))
  }

  /** One print has gone over every pending row, and nothing else has happened. */
  ghost predicate PrintedOver(was: Resolver, now: Resolver, local: nat, t: QueueGrid.Print, mid: int, c: Config) {
    AllShaped(was.pending, c) && now == Printed(was, local, t, mid, c)
  }

  lemma LeqTransitive(a: Deadline, b: Deadline, d: Deadline)
    requires Leq(a, b) && Leq(b, d)
    ensures Leq(a, d)
  {
  }

  lemma PrintsKeepMin(s: Resolver, local: nat, t: QueueGrid.Print, mid: int, c: Config)
    requires AllShaped(s.pending, c) && MinBelow(s.minDeadline, s.pending)
    ensures var p := Printed(s, local, t, mid, c); MinBelow(p.minDeadline, p.pending)
  {
    var p := Printed(s, local, t, mid, c);
    forall k | 0 <= k < |p.pending| ensures Leq(p.minDeadline, p.pending[k].nextDeadline) {
      if p.pending[k].nextDeadline == s.pending[k].nextDeadline {
        LeqTransitive(p.minDeadline, s.minDeadline, s.pending[k].nextDeadline);
      }
    }
  }

  lemma SamePlacementsCount(a: seq<Row>, b: seq<Row>)
    requires SamePlacements(a, b)
    ensures Stamps(a) == Stamps(b) && CountWatching(a, |a|) == CountWatching(b, |b|)
  {
    WatchingSame(a, b, |a|);
  }

  lemma PrintsKeepCounted(s: Resolver, watchingRows: int, placed: seq<nat>, local: nat, t: QueueGrid.Print, mid: int, c: Config)
    requires Counted(s, watchingRows, placed, c)
    ensures AllShaped(s.pending, c) && Counted(Printed(s, local, t, mid, c), watchingRows, placed, c)
  {
    LowShaped(s.pending, c);
    PrintsKeepLow(s.pending, local, t, mid, c);
    PrintsKeepMin(s, local, t, mid, c);
    SamePlacementsCount(PrintRows(s.pending, local, t, mid, c), s.pending);
  }

  lemma WatchKeepsLow(r: Row, local: nat, book: Book, c: Config)
    requires Low(r, c) && book.TwoSided()
    ensures var w := WatchRow(r, local, book, c); Low(w, c) && w.ns == r.ns && w.nextDeadline == r.nextDeadline
  {
    WatchKeepsSide(true, r.ns, r.bid, r.watching, local, book, c);
    WatchKeepsSide(false, r.ns, r.ask, r.watching, local, book, c);
    assert MarkoutHorizons(WatchRow(r, local, book, c), c) == MarkoutHorizons(r, c);
  }

  /** One row watched, with the counter following its flag. */
  lemma WatchOneKeepsCounted(s: Resolver, watchingRows: int, placed: seq<nat>, k: nat, local: nat, book: Book, c: Config)
    requires Counted(s, watchingRows, placed, c) && book.TwoSided() && k < |s.pending|
    ensures var w := WatchRow(s.pending[k], local, book, c);
            Counted(s.(pending := s.pending[k := w]), watchingRows - (if s.pending[k].watching && !w.watching then 1 else 0), placed, c)
  {
    var w := WatchRow(s.pending[k], local, book, c);
    WatchKeepsLow(s.pending[k], local, book, c);
    LowUpdated(s.pending, k, w, c);
    CountUpdated(s.pending, k, w, |s.pending|);
    assert Stamps(s.pending[k := w]) == Stamps(s.pending);
  }
}
