/** The half of a sampled row that labels do not touch (cpp/research/native_dataset_exporter.cpp:228-258,
    475-526, 911-978): its quotes, queues, fills and race stamps. Resolving changes none of it, so a row
    carries it unchanged from its sample through prints and depth events to the file. */
module NativePassives {
  import opened Wrappers
  import opened OrderBooks
  import opened NativeRows
  import opened NativeResolver
  import opened NativeTruth
  import opened NativeEvents
  import opened NativeCounts
  import opened Grids
  import QueueGrid

  predicate Showing(book: Book) {
    book.valid && book.TwoSided()
  }

  /** The row emit_sample places at a grid instant. */
  function RowAt(ns: nat, book: Book, c: Config): (r: Row)
    requires book.TwoSided()
  {
    NewRow(ns, book.MidX2(), book.bids.price, book.bids.qty, book.asks.price, book.asks.qty, c)
  }

  /** The instants an advance samples: none unless the book shows both sides. */
  ghost function SamplesOn(book: Book, next: nat, local: nat, inclusive: bool, step: nat): seq<nat>
    requires step > 0
  {
    if Showing(book) then Instants(next, local, inclusive, step) else []
  }

  function BareSide(s: SideState): SideState {
    s.(fillFlag := [], filledAtHorizon := None, race := Undecided, adverse := false, adverseNs := 0, postfill := [])
  }

  /** A row without labels and deadline. */
  function Bare(r: Row): Row {
    r.(markout := [], nextMove := None, bid := BareSide(r.bid), ask := BareSide(r.ask), nextDeadline := Never)
  }

  ghost function Bares(rows: seq<Row>): (bs: seq<Row>)
    ensures |bs| == |rows| && forall k | 0 <= k < |rows| :: bs[k] == Bare(rows[k])
  {
    seq(|rows|, k requires 0 <= k < |rows| => Bare(rows[k]))
  }

  /** All rows ever sampled, written or not, without their labels. */
  ghost function Traces(s: Resolver): seq<Row> {
    Bares(s.written) + Bares(s.pending)
  }

  ghost function Born(ns: nat, book: Book, c: Config): Row
    requires book.TwoSided()
  {
    Bare(RowAt(ns, book, c))
  }

  /** The rows an advance samples. */
  ghost function Borns(ts: seq<nat>, book: Book, c: Config): (bs: seq<Row>)
    ensures Showing(book) ==> |bs| == |ts| && forall k | 0 <= k < |ts| :: bs[k] == Born(ts[k], book, c)
    ensures !Showing(book) ==> bs == []
  {
    if Showing(book) then seq(|ts|, k requires 0 <= k < |ts| => Born(ts[k], book, c)) else []
  }

  /** Resolving a row changes only its labels. */
  lemma ResolvingKeepsBare(r: Row, midChanged: bool, now: nat, due: nat, midX2: int, c: Config)
    requires Shaped(r, c)
    ensures Bare(LazyRow(r, midChanged, now, due, midX2, c)) == Bare(r)
  {
  }

  lemma PassKeepsBares(rows: seq<Row>, midChanged: bool, now: nat, due: nat, midX2: int, c: Config)
    requires AllShaped(rows, c)
    ensures Bares(LazyRows(rows, midChanged, now, due, midX2, c)) == Bares(rows)
  {
    var ls := LazyRows(rows, midChanged, now, due, midX2, c);
    forall k | 0 <= k < |rows| ensures Bares(ls)[k] == Bares(rows)[k] {
      ResolvingKeepsBare(rows[k], midChanged, now, due, midX2, c);
    }
  }

  lemma FlushKeepsBares(written: seq<Row>, rows: seq<Row>, n: nat)
    requires n <= |rows|
    ensures Bares(written + rows[..n]) + Bares(rows[n..]) == Bares(written) + Bares(rows)
  {
  }

  /** A resolver call changes only labels, of written and of waiting rows alike. */
  lemma CallKeepsTraces(s: Resolver, now: nat, due: nat, midX2: int, c: Config)
    requires AllShaped(s.pending, c)
    ensures Traces(LazyCall(s, now, due, midX2, c)) == Traces(s)
  {
    var midChanged := s.lastMid != Some(midX2);
    if s.pending != [] && (Leq(s.minDeadline, At(due)) || midChanged) {
      var rows := LazyRows(s.pending, midChanged, now, due, midX2, c);
      PassKeepsBares(s.pending, midChanged, now, due, midX2, c);
      FlushKeepsBares(s.written, rows, LeadingNever(rows, 0));
    }
  }

  ghost predicate AllDecided(rows: seq<Row>) {
    forall k {:trigger FullyDecided(rows[k])} | 0 <= k < |rows| :: FullyDecided(rows[k])
  }

  /** Without a cached deadline nothing about a row is left to observe. */
  lemma NeverIsDecided(r: Row, c: Config)
    requires Low(r, c) && r.nextDeadline.Never?
    ensures FullyDecided(r)
  {
    NeverIffDecided(r, c);
  }

  lemma {:induction false} LeadingAreNever(rows: seq<Row>, k: nat, j: nat)
    requires k <= |rows| && k <= j < LeadingNever(rows, k)
    ensures rows[j].nextDeadline.Never?
    decreases |rows| - k
  {
    if k < j {
      LeadingAreNever(rows, k + 1, j);
    }
  }

  /** A call writes only rows of which every label is decided and no race is watched. */
  lemma CallWritesDone(s: Resolver, now: nat, due: nat, midX2: int, c: Config)
    requires AllShaped(s.pending, c) && AllLow(s.pending, c)
    ensures var l := LazyCall(s, now, due, midX2, c); s.written <= l.written && AllDecided(l.written[|s.written|..])
  {
    var l, midChanged := LazyCall(s, now, due, midX2, c), s.lastMid != Some(midX2);
    var rows := LazyRows(s.pending, midChanged, now, due, midX2, c);
    LazyRowsKeepLow(s.pending, midChanged, now, due, midX2, c);
    forall k | 0 <= k < |l.written| - |s.written| ensures FullyDecided(l.written[|s.written|..][k]) {
      LeadingAreNever(rows, 0, k);
      assert Low(rows[k], c);
      NeverIsDecided(rows[k], c);
    }
  }

  lemma EmitAddsTrace(s: Resolver, ns: nat, book: Book, c: Config)
    requires book.TwoSided()
    ensures Traces(Emitted(s, RowAt(ns, book, c))) == Traces(s) + [Born(ns, book, c)]
  {
    assert Bares(s.pending + [RowAt(ns, book, c)]) == Bares(s.pending) + [Born(ns, book, c)];
  }

  /** One instant of an advance: what is sampled now, then the rest. */
  lemma SamplesUnfold(book: Book, next: nat, local: nat, inclusive: bool, c: Config)
    requires c.gridNs > 0 && (next < local || (inclusive && next == local))
    ensures Borns(SamplesOn(book, next, local, inclusive, c.gridNs), book, c)
         == (if Showing(book) then [Born(next, book, c)] else []) + Borns(SamplesOn(book, next + c.gridNs, local, inclusive, c.gridNs), book, c)
  {
    if Showing(book) {
      BornsUnfold(next, Instants(next + c.gridNs, local, inclusive, c.gridNs), book, c);
    }
  }

  lemma BornsUnfold(t: nat, ts: seq<nat>, book: Book, c: Config)
    requires Showing(book)
    ensures Borns([t] + ts, book, c) == [Born(t, book, c)] + Borns(ts, book, c)
  {
    var bs, rest := Borns([t] + ts, book, c), Borns(ts, book, c);
    assert ([t] + ts)[0] == t;
    forall k | 0 <= k < |rest| ensures bs[k + 1] == rest[k] {
      BornAfter(t, ts, k, book, c);
    }
    Consed(bs, Born(t, book, c), rest);
  }

  lemma BornAfter(t: nat, ts: seq<nat>, k: nat, book: Book, c: Config)
    requires Showing(book) && k < |ts|
    ensures Borns([t] + ts, book, c)[k + 1] == Borns(ts, book, c)[k]
  {
    assert ([t] + ts)[k + 1] == ts[k];
  }

  lemma Consed<T>(all: seq<T>, head: T, rest: seq<T>)
    requires |all| == 1 + |rest| && all[0] == head && forall k | 0 <= k < |rest| :: all[k + 1] == rest[k]
    ensures all == [head] + rest
  {
    forall k | 0 < k < |all| ensures all[k] == rest[k - 1] {
      assert all[(k - 1) + 1] == rest[k - 1];
    }
  }

  /** The stamps and the bare rows there will be once an advance is done. */
  ghost function AheadOf(placed: seq<nat>, traces: seq<Row>, book: Book, next: nat, local: nat, inclusive: bool, c: Config): (seq<nat>, seq<Row>)
    requires c.gridNs > 0
  {
    var ts := SamplesOn(book, next, local, inclusive, c.gridNs);
    (placed + ts, traces + Borns(ts, book, c))
  }

  /** Placing the next instant leaves as much to come as there was. */
  lemma AheadStays(placed: seq<nat>, traces: seq<Row>, next: nat, nowPlaced: seq<nat>, nowTraces: seq<Row>, nowNext: nat,
                   book: Book, local: nat, inclusive: bool, c: Config)
    requires c.gridNs > 0 && (next < local || (inclusive && next == local)) && nowNext == next + c.gridNs
    requires nowPlaced == if Showing(book) then placed + [next] else placed
    requires nowTraces == traces + if Showing(book) then [Born(next, book, c)] else []
    ensures AheadOf(nowPlaced, nowTraces, book, nowNext, local, inclusive, c) == AheadOf(placed, traces, book, next, local, inclusive, c)
  {
    SamplesUnfold(book, next, local, inclusive, c);
    var ts := SamplesOn(book, nowNext, local, inclusive, c.gridNs);
    Regroup(placed, [next], ts);
    Regroup(traces, if Showing(book) then [Born(next, book, c)] else [], Borns(ts, book, c));
  }

  lemma Regroup<T>(a: seq<T>, b: seq<T>, c: seq<T>)
    ensures a + (b + c) == a + b + c
  {
  }

  /** What a print does to the bare half. */
  function BarePrint(p: Row, local: nat, t: QueueGrid.Print, mid: int, c: Config): Row {
    if t.aggressiveBuy then p.(ask := BareSide(PrintSide(false, p.ns, p.ask, local, t, mid, c)))
    else p.(bid := BareSide(PrintSide(true, p.ns, p.bid, local, t, mid, c)))
  }

  lemma PrintKeepsBare(r: Row, local: nat, t: QueueGrid.Print, mid: int, c: Config)
    requires Shaped(r, c)
    ensures Bare(PrintRow(r, local, t, mid, c)) == BarePrint(Bare(r), local, t, mid, c)
  {
  }

  /** The book races read and write nothing else. */
  lemma WatchKeepsBare(r: Row, local: nat, book: Book, c: Config)
    requires book.TwoSided()
    ensures Bare(WatchRow(r, local, book, c)) == WatchRow(Bare(r), local, book, c)
  {
  }
}
