/** One call of the resolver over all pending rows: the caches stay sound, the labels stay true, and
    what is written is decided. */
module NativeCalls {
  import opened Wrappers
  import opened NativeRows
  import opened NativeResolver
  import opened NativeTruth

  /** Every pending row is true as of the last call. */
  ghost predicate AllTrue(rows: seq<Row>, h: seq<Sample>, now: nat, due: nat, c: Config) {
    forall k {:trigger RowTrue(rows[k], h, now, due, c)} | 0 <= k < |rows| :: RowTrue(rows[k], h, now, due, c)
  }

  /** A row placed since the last call, on the latest mid. */
  ghost predicate Newborn(r: Row, h: seq<Sample>, now: nat, c: Config)
    requires h != []
  {
    LastNs(h) <= r.ns <= now && RowTrue(r, h, r.ns, r.ns, c)
  }

  ghost predicate AllTrueOrNew(rows: seq<Row>, h: seq<Sample>, now: nat, due: nat, next: nat, c: Config)
    requires h != []
  {
    forall k {:trigger RowTrue(rows[k], h, now, due, c)} | 0 <= k < |rows| :: RowTrue(rows[k], h, now, due, c) || Newborn(rows[k], h, next, c)
  }

  /** What holds between calls while record stamps keep rising. */
  ghost predicate Tracked(s: Resolver, h: seq<Sample>, now: nat, due: nat, c: Config) {
    && Inv(s, due, c) && due <= now
    && Rising(h) && LastNs(h) <= due
    && AllTrue(s.pending, h, now, due, c)
    && (s.pending != [] ==> s.lastMid == Some(LastMid(h)))
  }

  /** The cached deadline is no label. */
  lemma TruthIgnoresCache(a: Row, b: Row, h: seq<Sample>, now: nat, due: nat, c: Config)
    requires Erase(a) == Erase(b) && RowTrue(a, h, now, due, c)
    ensures RowTrue(b, h, now, due, c)
  {
    assert b == a.(nextDeadline := b.nextDeadline);
  }

  /** Rows that differ from true ones in their caches alone. */
  lemma ErasedTrue(ls: seq<Row>, es: seq<Row>, h: seq<Sample>, now: nat, due: nat, c: Config)
    requires EraseAll(ls) == EraseAll(es) && AllTrue(es, h, now, due, c)
    ensures AllTrue(ls, h, now, due, c)
  {
    forall k | 0 <= k < |ls| ensures RowTrue(ls[k], h, now, due, c) {
      assert EraseAll(ls)[k] == EraseAll(es)[k];
      TruthIgnoresCache(es[k], ls[k], h, now, due, c);
    }
  }

  lemma EraseDrop(a: seq<Row>, b: seq<Row>, n: nat)
    requires EraseAll(a) == EraseAll(b) && n <= |a|
    ensures |a| == |b| && EraseAll(a[n..]) == EraseAll(b[n..])
  {
    assert |EraseAll(a)| == |EraseAll(b)|;
    assert EraseAll(a[n..]) == EraseAll(a)[n..];
    assert EraseAll(b[n..]) == EraseAll(b)[n..];
  }

  lemma PartTrue(es: seq<Row>, lo: nat, hi: nat, h: seq<Sample>, now: nat, due: nat, c: Config)
    requires lo <= hi <= |es| && AllTrue(es, h, now, due, c)
    ensures AllTrue(es[lo..hi], h, now, due, c)
  {
  }

  /** What a call leaves behind, row by row: pending and newly written rows are the eager rows. */
  lemma CallRowsTrue(s: Resolver, l: Resolver, pending: seq<Row>, written: seq<Row>, es: seq<Row>,
                     h: seq<Sample>, now: nat, due: nat, c: Config)
    requires AllShaped(s.pending, c) && AllTrue(es, h, now, due, c)
    requires exists n :: 0 <= n <= |es| && pending == es[n..] && written == s.written + es[..n]
    requires EraseAll(l.pending) == EraseAll(pending) && EraseAll(l.written) == EraseAll(written)
    ensures |l.written| >= |s.written| && AllTrue(l.pending, h, now, due, c) && AllTrue(l.written[|s.written|..], h, now, due, c)
    ensures |l.pending| + |l.written| == |es| + |s.written|
  {
    var n :| 0 <= n <= |es| && pending == es[n..] && written == s.written + es[..n];
    assert |EraseAll(l.pending)| == |EraseAll(pending)| && |EraseAll(l.written)| == |EraseAll(written)|;
    EraseDrop(l.written, written, |s.written|);
    assert written[|s.written|..] == es[0..n] && pending == es[n..|es|];
    PartTrue(es, n, |es|, h, now, due, c);
    PartTrue(es, 0, n, h, now, due, c);
    ErasedTrue(l.pending, pending, h, now, due, c);
    ErasedTrue(l.written[|s.written|..], written[|s.written|..], h, now, due, c);
  }

  lemma QuietReflected(rows: seq<Row>, h: seq<Sample>, now0: nat, due0: nat, now: nat, due: nat, c: Config)
    requires c.Ok() && Rising(h) && LastNs(h) <= due0 <= now0 <= now && due <= now
    requires AllTrueOrNew(rows, h, now0, due0, due, c)
    ensures AllReflected(rows, now, LastMid(h), c)
  {
    forall k | 0 <= k < |rows| ensures MidReflected(rows[k], now, LastMid(h), c) {
      if RowTrue(rows[k], h, now0, due0, c) {
        LatestMidReflected(rows[k], h, now0, due0, now, c);
      } else {
        LatestMidReflected(rows[k], h, rows[k].ns, rows[k].ns, now, c);
      }
    }
  }

  lemma QuietRowsTrue(rows: seq<Row>, h: seq<Sample>, now0: nat, due0: nat, now: nat, due: nat, c: Config)
    requires c.Ok() && Rising(h) && LastNs(h) <= due0 <= now0 <= now && due0 <= due <= now
    requires AllShaped(rows, c) && AllTrueOrNew(rows, h, now0, due0, due, c)
    ensures AllTrue(EagerRows(rows, now, due, LastMid(h), c), h, now, due, c)
  {
    forall k | 0 <= k < |rows| ensures RowTrue(EagerRow(rows[k], now, due, LastMid(h), c), h, now, due, c) {
      if RowTrue(rows[k], h, now0, due0, c) {
        QuietCallKeepsTruth(rows[k], h, now0, due0, now, due, c);
      } else {
        QuietCallKeepsTruth(rows[k], h, rows[k].ns, rows[k].ns, now, due, c);
      }
    }
  }

  /** A call between records (or after one, on rows just placed) with the book unchanged. */
  lemma QuietCall(s: Resolver, h: seq<Sample>, now0: nat, due0: nat, now: nat, due: nat, c: Config)
    requires c.Ok() && Inv(s, due0, c) && Rising(h) && LastNs(h) <= due0 <= now0 <= now && due0 <= due <= now
    requires AllTrueOrNew(s.pending, h, now0, due0, due, c)
    ensures AllShaped(s.pending, c)
    ensures var l := LazyCall(s, now, due, LastMid(h), c);
            && Tracked(l, h, now, due, c)
            && |l.written| >= |s.written| && AllTrue(l.written[|s.written|..], h, now, due, c)
  {
    CachesShaped(s.pending, due0, c);
    QuietReflected(s.pending, h, now0, due0, now, due, c);
    QuietRowsTrue(s.pending, h, now0, due0, now, due, c);
    LazyCallIsEager(s, now, due, due0, LastMid(h), c);
    var l := LazyCall(s, now, due, LastMid(h), c);
    var es := EagerRows(s.pending, now, due, LastMid(h), c);
    var (pending, written) := EagerCall(s.pending, s.written, now, due, LastMid(h), c);
    assert 0 <= LeadingDecided(es, 0) <= |es| && pending == es[LeadingDecided(es, 0)..];
    CallRowsTrue(s, l, pending, written, es, h, now, due, c);
  }

  lemma RecordRowsTrue(rows: seq<Row>, h: seq<Sample>, x: Sample, c: Config)
    requires c.Ok() && Rising(h) && LastNs(h) < x.ns && AllShaped(rows, c) && AllTrue(rows, h, x.ns, x.ns - 1, c)
    requires forall k | 0 <= k < |rows| :: rows[k].ns < x.ns
    ensures AllTrue(EagerRows(rows, x.ns, x.ns, x.midX2, c), h + [x], x.ns, x.ns, c)
  {
    forall k | 0 <= k < |rows| ensures RowTrue(EagerRow(rows[k], x.ns, x.ns, x.midX2, c), h + [x], x.ns, x.ns, c) {
      RecordCallKeepsTruth(rows[k], h, x, c);
    }
  }

  /** The call after a record that left the mid at x.midX2. */
  lemma RecordCall(s: Resolver, h: seq<Sample>, x: Sample, c: Config)
    requires c.Ok() && x.ns > 0 && Tracked(s, h, x.ns, x.ns - 1, c) && LastNs(h) < x.ns
    requires forall k | 0 <= k < |s.pending| :: s.pending[k].ns < x.ns
    ensures AllShaped(s.pending, c)
    ensures var l := LazyCall(s, x.ns, x.ns, x.midX2, c);
            && Tracked(l, h + [x], x.ns, x.ns, c)
            && |l.written| >= |s.written| && AllTrue(l.written[|s.written|..], h + [x], x.ns, x.ns, c)
  {
    CachesShaped(s.pending, x.ns - 1, c);
    RecordRowsTrue(s.pending, h, x, c);
    if s.lastMid == Some(x.midX2) && s.pending != [] {
      QuietReflected(s.pending, h, x.ns, x.ns - 1, x.ns, x.ns - 1, c);
    }
    LazyCallIsEager(s, x.ns, x.ns, x.ns - 1, x.midX2, c);
    var l := LazyCall(s, x.ns, x.ns, x.midX2, c);
    var es := EagerRows(s.pending, x.ns, x.ns, x.midX2, c);
    var (pending, written) := EagerCall(s.pending, s.written, x.ns, x.ns, x.midX2, c);
    assert 0 <= LeadingDecided(es, 0) <= |es| && pending == es[LeadingDecided(es, 0)..];
    CallRowsTrue(s, l, pending, written, es, h + [x], x.ns, x.ns, c);
    Appended(h, x);
  }

  const TIED_CONFIG := Config(10, [], [], [], 30, 5, 2)

  /** A row placed at 10 keeps its cached deadline and skips the second record stamped 10. */
  lemma TiedMoveIsSkipped(r: Row)
    requires r == NewRow(10, 200, 99, 1, 101, 1, TIED_CONFIG)
    ensures Shaped(r, TIED_CONFIG) && r.nextDeadline == At(40)
    ensures AllShaped([r], TIED_CONFIG)
    ensures LazyCall(Resolver([r], [], At(40), Some(200)), 10, 10, 190, TIED_CONFIG) == Resolver([r], [], At(40), Some(190))
  {
    var c := TIED_CONFIG;
    NewRowCache(10, 200, 99, 1, 101, 1, 10, c);
    assert LazyRow(r, true, 10, 10, 190, c) == r;
    assert LazyRows([r], true, 10, 10, 190, c) == [r];
    assert SoonestCached([r], 1) == Sooner(SoonestCached([r], 0), r.nextDeadline);
  }

  /** Stamps must rise strictly. Here a row is placed at 10 on a mid of 200, a second record stamped 10
      moves the mid to 190, and by 20 the exporter believes the move is already applied. */
  lemma TiedRecordLosesTheMove()
    ensures exists s: Resolver, c: Config ::
              c.Ok() && Inv(s, 10, c) && AllShaped(s.pending, c)
              && var tied := LazyCall(s, 10, 10, 190, c);
                 && AllShaped(tied.pending, c)
                 && EraseAll(LazyCall(tied, 20, 20, 190, c).pending) != EraseAll(EagerCall(tied.pending, tied.written, 20, 20, 190, c).0)
  {
    var c := TIED_CONFIG;
    var r := NewRow(10, 200, 99, 1, 101, 1, c);
    NewRowCache(10, 200, 99, 1, 101, 1, 10, c);
    TiedMoveIsSkipped(r);
    var s, tied := Resolver([r], [], At(40), Some(200)), Resolver([r], [], At(40), Some(190));
    assert LazyCall(tied, 20, 20, 190, c) == tied;
    var e := EagerRow(r, 20, 20, 190, c);
    assert e.nextMove == Some(Move(false, 20));
    var es := EagerRows([r], 20, 20, 190, c);
    assert es == [e];
    assert !FullyDecided(e);
    assert LeadingDecided(es, 0) == 0;
    assert EraseAll([r])[0] == Erase(r) && EraseAll([e])[0] == Erase(e);
  }
}
