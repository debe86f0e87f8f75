/** The life of one sampled row through the records of a replay (cpp/replay/event_replayer.cpp:142-315,
    cpp/research/native_dataset_exporter.cpp:228-258, 475-526, 911-978): placed at the touch of the book
    that was shown, moved by prints and depth events, alone. */
module NativeLives {
  import opened OrderBooks
  import opened NativeRows
  import opened NativeResolver
  import opened NativeEvents
  import opened NativeCounts
  import opened NativePassives
  import opened Replays
  import opened Grids

  function ShownMid(book: Book): int {
    if Showing(book) then book.MidX2() else 0
  }

  /** What one record does to a row that is still waiting. */
  function Touched(p: Row, r: Record, before: Book, c: Config): Row {
    match r.event
    case Trade(t) => BarePrint(p, r.local, t, ShownMid(r.book), c)
    case Depth(outcome) =>
      if outcome.Applied? && before.valid && r.book.TwoSided() then WatchRow(p, r.local, r.book, c) else p
    case _ => p
  }

  /** The row after records from..n. */
  ghost function Lived(p: Row, rs: seq<Record>, from: nat, n: nat, c: Config): Row
    requires n <= |rs|
  {
    if n <= from then p else Touched(Lived(p, rs, from, n - 1, c), rs[n - 1], BookBefore(rs, n - 1), c)
  }

  /** A row was placed between record from - 1 and the next, on the book that record left. */
  ghost predicate PlacedAfter(ns: nat, rs: seq<Record>, from: nat) {
    0 < from <= |rs| && Showing(rs[from - 1].book) && rs[from - 1].local <= ns && (from < |rs| ==> ns < rs[from].local)
  }

  ghost predicate LivedFrom(p: Row, rs: seq<Record>, from: nat, n: nat, c: Config)
    requires n <= |rs|
  {
    PlacedAfter(p.ns, rs, from) && from <= n && p == Lived(Born(p.ns, rs[from - 1].book, c), rs, from, n, c)
  }

  /** The bare half of a row placed among the first `lim` records is what the first n make of it. */
  ghost predicate Lives(p: Row, rs: seq<Record>, lim: nat, n: nat, c: Config)
    requires n <= |rs|
  {
    exists from: nat :: from <= lim && LivedFrom(p, rs, from, n, c)
  }

  ghost predicate AllLive(ps: seq<Row>, rs: seq<Record>, lim: nat, n: nat, c: Config)
    requires n <= |rs|
  {
    forall k {:trigger ps[k]} | 0 <= k < |ps| :: Lives(ps[k], rs, lim, n, c)
  }

  lemma PlacedInOrder(ns: nat, rs: seq<Record>, from: nat, other: nat)
    requires StampsRise(rs) && PlacedAfter(ns, rs, from) && PlacedAfter(ns, rs, other)
    ensures from >= other
  {
  }

  /** Stamps that rise leave no doubt where a row was placed. */
  lemma PlacedOnce(ns: nat, rs: seq<Record>, from: nat, other: nat)
    requires StampsRise(rs) && PlacedAfter(ns, rs, from) && PlacedAfter(ns, rs, other)
    ensures from == other
  {
    PlacedInOrder(ns, rs, from, other);
    PlacedInOrder(ns, rs, other, from);
  }

  /** A record past the window of a row that is no longer watched does nothing to it. */
  lemma OverIsUntouched(r: Row, x: Record, before: Book, c: Config)
    requires !r.watching && r.ns + c.horizonNs <= x.local
    ensures Touched(Bare(r), x, before, c) == Bare(r)
  {
  }

  lemma {:induction false} LivesLonger(r: Row, rs: seq<Record>, from: nat, n: nat, m: nat, c: Config)
    requires n <= m <= |rs| && LivedFrom(Bare(r), rs, from, n, c) && !r.watching
    requires forall j | n <= j < m :: r.ns + c.horizonNs <= rs[j].local
    ensures LivedFrom(Bare(r), rs, from, m, c)
    decreases m
  {
    if n < m {
      LivesLonger(r, rs, from, n, m - 1, c);
      OverIsUntouched(r, rs[m - 1], BookBefore(rs, m - 1), c);
    }
  }

  lemma TouchedKeepsNs(p: Row, r: Record, before: Book, c: Config)
    ensures Touched(p, r, before, c).ns == p.ns
  {
  }

  lemma LivesOn(p: Row, rs: seq<Record>, lim: nat, i: nat, c: Config)
    requires i < |rs| && Lives(p, rs, lim, i, c)
    ensures Lives(Touched(p, rs[i], BookBefore(rs, i), c), rs, lim, i + 1, c)
  {
    var from: nat :| from <= lim && LivedFrom(p, rs, from, i, c);
    TouchedKeepsNs(p, rs[i], BookBefore(rs, i), c);
    assert LivedFrom(Touched(p, rs[i], BookBefore(rs, i), c), rs, from, i + 1, c);
  }

  lemma LiveLater(ps: seq<Row>, rs: seq<Record>, lim: nat, later: nat, n: nat, c: Config)
    requires n <= |rs| && lim <= later && AllLive(ps, rs, lim, n, c)
    ensures AllLive(ps, rs, later, n, c)
  {
    forall k | 0 <= k < |ps| ensures Lives(ps[k], rs, later, n, c) {
      assert Lives(ps[k], rs, lim, n, c);
    }
  }

  /** Rows placed on the book a record left start their lives there. */
  lemma BornLive(ts: seq<nat>, rs: seq<Record>, from: nat, c: Config)
    requires 0 < from <= |rs| && forall k | 0 <= k < |ts| :: PlacedAfter(ts[k], rs, from)
    ensures AllLive(Borns(ts, rs[from - 1].book, c), rs, from, from, c)
  {
    var bs := Borns(ts, rs[from - 1].book, c);
    forall k | 0 <= k < |bs| ensures Lives(bs[k], rs, from, from, c) {
      assert PlacedAfter(ts[k], rs, from);
      assert LivedFrom(bs[k], rs, from, from, c);
    }
  }

  /** The instants of an announcement lie between the record before and the stamp. */
  lemma AnnouncedLive(rs: seq<Record>, i: nat, next: nat, c: Config)
    requires c.gridNs > 0 && 0 < i < |rs| && next >= rs[i - 1].local
    ensures AllLive(Borns(SamplesOn(rs[i - 1].book, next, rs[i].local, false, c.gridNs), rs[i - 1].book, c), rs, i, i, c)
  {
    var ts := SamplesOn(rs[i - 1].book, next, rs[i].local, false, c.gridNs);
    InstantsInside(next, rs[i].local, false, c.gridNs);
    BornLive(ts, rs, i, c);
  }

  /** The only instant a conclusion can sample is the stamp itself. */
  lemma ConcludedLive(rs: seq<Record>, i: nat, next: nat, c: Config)
    requires c.gridNs > 0 && i < |rs| && next >= rs[i].local && StampsRise(rs)
    ensures AllLive(Borns(SamplesOn(rs[i].book, next, rs[i].local, true, c.gridNs), rs[i].book, c), rs, i + 1, i + 1, c)
  {
    var ts := SamplesOn(rs[i].book, next, rs[i].local, true, c.gridNs);
    InstantsInside(next, rs[i].local, true, c.gridNs);
    BornLive(ts, rs, i + 1, c);
  }

  lemma {:induction false} InstantsInside(next: nat, local: nat, inclusive: bool, step: nat)
    requires step > 0
    ensures forall k {:trigger Instants(next, local, inclusive, step)[k]} | 0 <= k < |Instants(next, local, inclusive, step)| ::
              next <= Instants(next, local, inclusive, step)[k] && Instants(next, local, inclusive, step)[k] < local + if inclusive then 1 else 0
    decreases local + 1 - next
  {
    if next < local || (inclusive && next == local) {
      InstantsInside(next + step, local, inclusive, step);
    }
  }

  lemma PrintLives(r: Row, rs: seq<Record>, lim: nat, i: nat, c: Config)
    requires i < |rs| && rs[i].event.Trade? && Shaped(r, c) && Lives(Bare(r), rs, lim, i, c)
    ensures Lives(Bare(PrintRow(r, rs[i].local, rs[i].event.trade, ShownMid(rs[i].book), c)), rs, lim, i + 1, c)
  {
    PrintKeepsBare(r, rs[i].local, rs[i].event.trade, ShownMid(rs[i].book), c);
    LivesOn(Bare(r), rs, lim, i, c);
  }

  /** A print over the waiting rows. */
  lemma PrintsLive(rows: seq<Row>, rs: seq<Record>, lim: nat, i: nat, c: Config)
    requires i < |rs| && rs[i].event.Trade? && AllShaped(rows, c) && AllLive(Bares(rows), rs, lim, i, c)
    ensures AllLive(Bares(PrintRows(rows, rs[i].local, rs[i].event.trade, ShownMid(rs[i].book), c)), rs, lim, i + 1, c)
  {
    var ps := PrintRows(rows, rs[i].local, rs[i].event.trade, ShownMid(rs[i].book), c);
    forall k | 0 <= k < |ps| ensures Lives(Bares(ps)[k], rs, lim, i + 1, c) {
      assert Bares(rows)[k] == Bare(rows[k]);
      PrintLives(rows[k], rs, lim, i, c);
    }
  }

  /** A depth event over the waiting rows. */
  lemma EventLives(rows: seq<Row>, ws: seq<Row>, rs: seq<Record>, lim: nat, i: nat, c: Config)
    requires i < |rs| && rs[i].event.Depth? && rs[i].event.outcome.Applied? && AllLive(Bares(rows), rs, lim, i, c) && |ws| == |rows|
    requires BookBefore(rs, i).valid && rs[i].book.TwoSided() ==>
               forall k | 0 <= k < |rows| :: ws[k] == WatchRow(rows[k], rs[i].local, rs[i].book, c)
    requires !(BookBefore(rs, i).valid && rs[i].book.TwoSided()) ==> ws == rows
    ensures AllLive(Bares(ws), rs, lim, i + 1, c)
  {
    forall k | 0 <= k < |ws| ensures Lives(Bares(ws)[k], rs, lim, i + 1, c) {
      LivesOn(Bares(rows)[k], rs, lim, i, c);
      if BookBefore(rs, i).valid && rs[i].book.TwoSided() {
        WatchKeepsBare(rows[k], rs[i].local, rs[i].book, c);
      }
    }
  }

  /** Every other record leaves them alone. */
  lemma QuietLives(ps: seq<Row>, rs: seq<Record>, lim: nat, i: nat, c: Config)
    requires i < |rs| && AllLive(ps, rs, lim, i, c)
    requires !rs[i].event.Trade? && !(rs[i].event.Depth? && rs[i].event.outcome.Applied?)
    ensures AllLive(ps, rs, lim, i + 1, c)
  {
    forall k | 0 <= k < |ps| ensures Lives(ps[k], rs, lim, i + 1, c) {
      LivesOn(ps[k], rs, lim, i, c);
    }
  }

  /** What a callback writes and what it leaves waiting, when all it does besides resolving is to place
      rows. */
  lemma TracesLive(was: Resolver, now: Resolver, births: seq<Row>, rs: seq<Record>, lim: nat, n: nat, c: Config)
    requires n <= |rs| && Traces(now) == Traces(was) + births && was.written <= now.written
    requires AllLive(Bares(was.pending), rs, lim, n, c) && AllLive(births, rs, lim, n, c)
    ensures AllLive(Bares(now.written[|was.written|..]), rs, lim, n, c) && AllLive(Bares(now.pending), rs, lim, n, c)
  {
    BothLive(Bares(was.pending), births, rs, lim, n, c);
    TracesSplit(was, now, births);
    PartsLive(Bares(now.written[|was.written|..]), Bares(now.pending), rs, lim, n, c);
  }

  lemma BothLive(a: seq<Row>, b: seq<Row>, rs: seq<Record>, lim: nat, n: nat, c: Config)
    requires n <= |rs| && AllLive(a, rs, lim, n, c) && AllLive(b, rs, lim, n, c)
    ensures AllLive(a + b, rs, lim, n, c)
  {
  }

  lemma PartsLive(a: seq<Row>, b: seq<Row>, rs: seq<Record>, lim: nat, n: nat, c: Config)
    requires n <= |rs| && AllLive(a + b, rs, lim, n, c)
    ensures AllLive(a, rs, lim, n, c) && AllLive(b, rs, lim, n, c)
  {
    forall k | 0 <= k < |a| ensures Lives(a[k], rs, lim, n, c) {
      assert (a + b)[k] == a[k];
    }
    forall k | 0 <= k < |b| ensures Lives(b[k], rs, lim, n, c) {
      assert (a + b)[|a| + k] == b[k];
    }
  }

  /** What is new in the file, followed by what waits, is what waited followed by what was placed. */
  lemma TracesSplit(was: Resolver, now: Resolver, births: seq<Row>)
    requires Traces(now) == Traces(was) + births && was.written <= now.written
    ensures Bares(now.written[|was.written|..]) + Bares(now.pending) == Bares(was.pending) + births
  {
    assert Traces(now)[|was.written|..] == Bares(now.written[|was.written|..]) + Bares(now.pending);
    assert Traces(now)[|was.written|..] == Bares(was.pending) + births;
  }
}
