/** The lazy label resolver (cpp/research/native_dataset_exporter.cpp:590-676) against the eager one.
    The exporter caches each row's soonest deadline and the soonest of all of them, and skips rows, or
    the whole call, on the strength of those caches. The eager resolver rechecks every horizon of every
    row at every call. */
module NativeResolver {
  import opened Wrappers
  import opened NativeRows

  /** A row without its cached deadline. */
  function Erase(r: Row): Row {
    r.(nextDeadline := Never)
  }

  ghost function EraseAll(rows: seq<Row>): (es: seq<Row>)
    ensures |es| == |rows| && forall k | 0 <= k < |rows| :: es[k] == Erase(rows[k])
  {
    seq(|rows|, k requires 0 <= k < |rows| => Erase(rows[k]))
  }

  ghost predicate AllShaped(rows: seq<Row>, c: Config) {
    forall k | 0 <= k < |rows| :: Shaped(rows[k], c)
  }

  /** What one call should do to a row. */
  ghost function EagerRow(r: Row, now: nat, due: nat, midX2: int, c: Config): Row
    requires Shaped(r, c)
  {
    if r.ns >= now then r else Decide(ApplyMidMove(r, midX2, now, c), due, midX2, c)
  }

  ghost function EagerRows(rows: seq<Row>, now: nat, due: nat, midX2: int, c: Config): (es: seq<Row>)
    requires AllShaped(rows, c)
    ensures |es| == |rows| && forall k | 0 <= k < |rows| :: es[k] == EagerRow(rows[k], now, due, midX2, c)
  {
    seq(|rows|, k requires 0 <= k < |rows| => EagerRow(rows[k], now, due, midX2, c))
  }

  /** What the exporter does to it. */
  function LazyRow(r: Row, midChanged: bool, now: nat, due: nat, midX2: int, c: Config): Row
    requires Shaped(r, c)
  {
    if r.ns >= now then r
    else
      var moved := if midChanged then ApplyMidMove(r, midX2, now, c) else r;
      if !Leq(moved.nextDeadline, At(due)) then moved
      else
        var decided := Decide(moved, due, midX2, c);
        decided.(nextDeadline := Fresh(decided, c))
  }

  /** The cached deadline never exceeds an undecided horizon. It may lag behind only while the fill
      horizon itself is still the reason, and a row past its horizon is never stale. */
  ghost predicate CacheOk(r: Row, lastDue: nat, c: Config) {
    && Shaped(r, c)
    && Leq(r.nextDeadline, Fresh(r, c))
    && (r.nextDeadline == Fresh(r, c) || Leq(r.nextDeadline, At(r.ns + c.horizonNs)))
    && (r.bid.filledAtHorizon.Some? || r.ask.filledAtHorizon.Some? ==> r.ns + c.horizonNs <= lastDue)
  }

  ghost predicate CachesOk(rows: seq<Row>, lastDue: nat, c: Config) {
    forall k {:trigger CacheOk(rows[k], lastDue, c)} | 0 <= k < |rows| :: CacheOk(rows[k], lastDue, c)
  }

  lemma CachesShaped(rows: seq<Row>, lastDue: nat, c: Config)
    requires CachesOk(rows, lastDue, c)
    ensures AllShaped(rows, c)
  {
    forall k | 0 <= k < |rows| ensures Shaped(rows[k], c) {
      assert CacheOk(rows[k], lastDue, c);
    }
  }

  /** A side has nothing left to note about a mid. */
  predicate SideReacted(bid: bool, r: Row, s: SideState, midX2: int, c: Config) {
    s.adverse || Drift(bid, r, midX2) > -c.threshold
  }

  /** A row has nothing to note about a mid: it is not older than the call, its horizon has passed, the mid
      is its own, or a move has been noted and neither side has one to note. */
  predicate MidReflected(r: Row, now: nat, midX2: int, c: Config) {
    || r.ns >= now || now > r.ns + c.horizonNs || midX2 == r.midX2
    || (r.nextMove.Some? && SideReacted(true, r, r.bid, midX2, c) && SideReacted(false, r, r.ask, midX2, c))
  }

  /** That is exactly when applying it changes nothing. */
  lemma MidReflectedIff(r: Row, now: nat, midX2: int, c: Config)
    ensures MidReflected(r, now, midX2, c) <==> r.ns >= now || ApplyMidMove(r, midX2, now, c) == r
  {
  }

  ghost predicate AllReflected(rows: seq<Row>, now: nat, midX2: int, c: Config) {
    forall k | 0 <= k < |rows| :: MidReflected(rows[k], now, midX2, c)
  }

  /** A mid move only removes reasons to wait. */
  lemma MoveKeepsCache(r: Row, midX2: int, now: nat, lastDue: nat, c: Config)
    requires CacheOk(r, lastDue, c)
    ensures CacheOk(ApplyMidMove(r, midX2, now, c), lastDue, c)
  {
    var m := ApplyMidMove(r, midX2, now, c);
    if m != r {
      assert MarkoutHorizons(m, c) == MarkoutHorizons(r, c);
      MoveKeepsSide(true, r, r.bid, midX2, now, c);
      MoveKeepsSide(false, r, r.ask, midX2, now, c);
      SoonerLater(Soonest(MarkoutHorizons(r, c), 0), SideDeadline(r.ns, r.bid, r.watching, c), SideDeadline(r.ns, r.ask, r.watching, c),
                  SideDeadline(r.ns, m.bid, r.watching, c), SideDeadline(r.ns, m.ask, r.watching, c), At(r.ns + c.horizonNs));
    }
  }

  /** Pushing two deadlines back pushes the soonest back, and only past the gate that released them. */
  lemma SoonerLater(a: Deadline, b: Deadline, d: Deadline, laterB: Deadline, laterD: Deadline, gate: Deadline)
    requires Leq(b, laterB) && Leq(d, laterD)
    requires (b == laterB || Leq(b, gate)) && (d == laterD || Leq(d, gate))
    ensures var was, later := Sooner(a, Sooner(b, d)), Sooner(a, Sooner(laterB, laterD));
            Leq(was, later) && (was == later || Leq(was, gate))
  {
  }

  lemma MoveKeepsSide(bid: bool, r: Row, s: SideState, midX2: int, now: nat, c: Config)
    requires SideShaped(s, c)
    ensures var m := MoveSide(bid, r, s, midX2, now, c);
            && SideShaped(m, c)
            && Leq(SideDeadline(r.ns, s, r.watching, c), SideDeadline(r.ns, m, r.watching, c))
            && (SideDeadline(r.ns, s, r.watching, c) == SideDeadline(r.ns, m, r.watching, c)
                || Leq(SideDeadline(r.ns, s, r.watching, c), At(r.ns + c.horizonNs)))
  {
    var m := MoveSide(bid, r, s, midX2, now, c);
    assert FillHorizons(r.ns, m, c) == FillHorizons(r.ns, s, c);
    assert PostFillHorizons(r.ns, m, c) == PostFillHorizons(r.ns, s, c);
  }

  /** Row by row, the cached and the eager resolver decide the same things, and afterwards a row is
      ready to be written exactly when its cached deadline says so. */
  lemma LazyRowIsEager(r: Row, midChanged: bool, now: nat, due: nat, lastDue: nat, midX2: int, c: Config)
    requires c.Ok() && CacheOk(r, lastDue, c) && lastDue <= due <= now
    requires midChanged || MidReflected(r, now, midX2, c)
    ensures var l := LazyRow(r, midChanged, now, due, midX2, c);
            && CacheOk(l, due, c)
            && Erase(l) == Erase(EagerRow(r, now, due, midX2, c))
            && (l.nextDeadline.Never? <==> FullyDecided(l))
  {
    if r.ns >= now {
      YoungRow(r, due, lastDue, c);
    } else {
      MoveKeepsCache(r, midX2, now, lastDue, c);
      var moved := if midChanged then ApplyMidMove(r, midX2, now, c) else r;
      assert moved == ApplyMidMove(r, midX2, now, c);
      if Leq(moved.nextDeadline, At(due)) {
        ProcessedRow(moved, due, lastDue, midX2, c);
      } else {
        SkippedRow(moved, due, lastDue, midX2, c);
      }
    }
  }

  /** A row placed at or after the call is left alone, and is not yet decided. */
  lemma YoungRow(r: Row, due: nat, lastDue: nat, c: Config)
    requires c.Ok() && CacheOk(r, lastDue, c) && lastDue <= due <= r.ns
    ensures CacheOk(r, due, c) && (r.nextDeadline.Never? <==> FullyDecided(r))
  {
    NeverIffDecided(r, c);
  }

  /** A row whose cached deadline is not due has nothing due, and is decided only if the cache says so. */
  lemma SkippedRow(r: Row, due: nat, lastDue: nat, midX2: int, c: Config)
    requires CacheOk(r, lastDue, c) && lastDue <= due && !Leq(r.nextDeadline, At(due))
    ensures Decide(r, due, midX2, c) == r && CacheOk(r, due, c) && (r.nextDeadline.Never? <==> FullyDecided(r))
  {
    NotDueIsSettled(r, due, midX2, c);
    NeverIffDecided(r, c);
  }

  lemma ProcessedRow(r: Row, due: nat, lastDue: nat, midX2: int, c: Config)
    requires CacheOk(r, lastDue, c) && lastDue <= due
    ensures var d := Decide(r, due, midX2, c);
            var l := d.(nextDeadline := Fresh(d, c));
            CacheOk(l, due, c) && (l.nextDeadline.Never? <==> FullyDecided(l))
  {
    var d := Decide(r, due, midX2, c);
    var l := d.(nextDeadline := Fresh(d, c));
    assert MarkoutHorizons(l, c) == MarkoutHorizons(d, c);
    NeverIffDecided(l, c);
  }

  /** Exactly when a row comes out right: a skipped mid move is lost for good. */
  lemma LazyRowExact(r: Row, midChanged: bool, now: nat, due: nat, lastDue: nat, midX2: int, c: Config)
    requires c.Ok() && CacheOk(r, lastDue, c) && lastDue <= due <= now
    ensures Erase(LazyRow(r, midChanged, now, due, midX2, c)) == Erase(EagerRow(r, now, due, midX2, c))
       <==> midChanged || MidReflected(r, now, midX2, c)
  {
    if midChanged || MidReflected(r, now, midX2, c) {
      LazyRowIsEager(r, midChanged, now, due, lastDue, midX2, c);
    }
  }

  /** The part of the exporter's state a call reads and writes. */
  datatype Resolver = Resolver(pending: seq<Row>, written: seq<Row>, minDeadline: Deadline, lastMid: Option<int>)

  function LazyRows(rows: seq<Row>, midChanged: bool, now: nat, due: nat, midX2: int, c: Config): (ls: seq<Row>)
    requires AllShaped(rows, c)
    ensures |ls| == |rows| && forall k | 0 <= k < |rows| :: ls[k] == LazyRow(rows[k], midChanged, now, due, midX2, c)
  {
    seq(|rows|, k requires 0 <= k < |rows| => LazyRow(rows[k], midChanged, now, due, midX2, c))
  }

  /** The soonest cached deadline of the first n rows. */
  function SoonestCached(rows: seq<Row>, n: nat): (d: Deadline)
    requires n <= |rows|
    ensures forall i | 0 <= i < n :: Leq(d, rows[i].nextDeadline)
  {
    if n == 0 then Never else Sooner(SoonestCached(rows, n - 1), rows[n - 1].nextDeadline)
  }

  /** Rows at the front that are ready to be written. */
  function LeadingNever(rows: seq<Row>, k: nat): (n: nat)
    requires k <= |rows|
    ensures k <= n <= |rows| && (n < |rows| ==> rows[n].nextDeadline.At?)
    decreases |rows| - k
  {
    if k < |rows| && rows[k].nextDeadline.Never? then LeadingNever(rows, k + 1) else k
  }

  ghost function LeadingDecided(rows: seq<Row>, k: nat): (n: nat)
    requires k <= |rows|
    ensures k <= n <= |rows|
    decreases |rows| - k
  {
    if k < |rows| && FullyDecided(rows[k]) then LeadingDecided(rows, k + 1) else k
  }

  /** What the pass makes of one row, and of all of them. */
  ghost predicate Rechecks(r: Row, g: Row, midChanged: bool, now: nat, due: nat, midX2: int, c: Config) {
    Shaped(r, c) && g == LazyRow(r, midChanged, now, due, midX2, c)
  }

  ghost predicate AllRecheck(rows: seq<Row>, gs: seq<Row>, midChanged: bool, now: nat, due: nat, midX2: int, c: Config) {
    |gs| == |rows|
    && forall k {:trigger Rechecks(rows[k], gs[k], midChanged, now, due, midX2, c)} | 0 <= k < |rows| ::
         Rechecks(rows[k], gs[k], midChanged, now, due, midX2, c)
  }

  /** resolve_pending on a usable two-sided book, early returns included. */
  function LazyCall(s: Resolver, now: nat, due: nat, midX2: int, c: Config): Resolver
    requires AllShaped(s.pending, c)
  {
    var midChanged := s.lastMid != Some(midX2);
    if s.pending == [] || (!Leq(s.minDeadline, At(due)) && !midChanged) then s
    else
      var rows := LazyRows(s.pending, midChanged, now, due, midX2, c);
      var n := LeadingNever(rows, 0);
      Resolver(rows[n..], s.written + rows[..n], SoonestCached(rows, |rows|), Some(midX2))
  }

  /** The eager resolver: every row, every horizon, every call; then write what is decided. */
  ghost function EagerCall(pending: seq<Row>, written: seq<Row>, now: nat, due: nat, midX2: int, c: Config): (seq<Row>, seq<Row>)
    requires AllShaped(pending, c)
  {
    var rows := EagerRows(pending, now, due, midX2, c);
    var n := LeadingDecided(rows, 0);
    (rows[n..], written + rows[..n])
  }

  ghost predicate MinBelow(d: Deadline, rows: seq<Row>) {
    forall k | 0 <= k < |rows| :: Leq(d, rows[k].nextDeadline)
  }

  ghost predicate Inv(s: Resolver, lastDue: nat, c: Config) {
    && CachesOk(s.pending, lastDue, c)
    && MinBelow(s.minDeadline, s.pending)
    && (s.pending != [] ==> s.pending[0].nextDeadline.At?)
  }

  lemma {:induction false} LeadingAgree(lazy: seq<Row>, eager: seq<Row>, k: nat)
    requires k <= |lazy| == |eager|
    requires forall i | 0 <= i < |lazy| :: Erase(lazy[i]) == Erase(eager[i])
    requires forall i | 0 <= i < |lazy| :: lazy[i].nextDeadline.Never? <==> FullyDecided(lazy[i])
    ensures LeadingNever(lazy, k) == LeadingDecided(eager, k)
    decreases |lazy| - k
  {
    if k < |lazy| {
      assert FullyDecided(lazy[k]) <==> FullyDecided(eager[k]) by {
        assert Erase(lazy[k]) == Erase(eager[k]);
      }
      LeadingAgree(lazy, eager, k + 1);
    }
  }

  /** All rows at once. */
  lemma LazyRowsAreEager(s: Resolver, midChanged: bool, now: nat, due: nat, lastDue: nat, midX2: int, c: Config)
    requires c.Ok() && CachesOk(s.pending, lastDue, c) && lastDue <= due <= now
    requires midChanged || AllReflected(s.pending, now, midX2, c)
    ensures AllShaped(s.pending, c)
    ensures var ls := LazyRows(s.pending, midChanged, now, due, midX2, c);
            && CachesOk(ls, due, c)
            && EraseAll(ls) == EraseAll(EagerRows(s.pending, now, due, midX2, c))
            && (forall k | 0 <= k < |ls| :: ls[k].nextDeadline.Never? <==> FullyDecided(ls[k]))
  {
    CachesShaped(s.pending, lastDue, c);
    var ls := LazyRows(s.pending, midChanged, now, due, midX2, c);
    var es := EagerRows(s.pending, now, due, midX2, c);
    forall k | 0 <= k < |ls|
      ensures CacheOk(ls[k], due, c) && Erase(ls[k]) == Erase(es[k]) && (ls[k].nextDeadline.Never? <==> FullyDecided(ls[k]))
    {
      assert CacheOk(s.pending[k], lastDue, c);
      assert midChanged || MidReflected(s.pending[k], now, midX2, c);
      LazyRowIsEager(s.pending[k], midChanged, now, due, lastDue, midX2, c);
    }
  }

  /** The main refinement: a call that may skip rows, or do nothing at all, has exactly the effect of
      rechecking everything, and writes exactly the rows an eager resolver would. */
  lemma LazyCallIsEager(s: Resolver, now: nat, due: nat, lastDue: nat, midX2: int, c: Config)
    requires c.Ok() && Inv(s, lastDue, c) && lastDue <= due <= now
    requires s.lastMid == Some(midX2) ==> AllReflected(s.pending, now, midX2, c)
    ensures AllShaped(s.pending, c)
    ensures var l := LazyCall(s, now, due, midX2, c);
            var (pending, written) := EagerCall(s.pending, s.written, now, due, midX2, c);
            && Inv(l, due, c)
            && EraseAll(l.pending) == EraseAll(pending) && EraseAll(l.written) == EraseAll(written)
            && (s.pending != [] ==> l.lastMid == Some(midX2))
  {
    CachesShaped(s.pending, lastDue, c);
    var midChanged := s.lastMid != Some(midX2);
    if s.pending == [] {
      assert LazyCall(s, now, due, midX2, c) == s;
    } else {
      FullCallIsEager(s, midChanged, now, due, lastDue, midX2, c);
      if !Leq(s.minDeadline, At(due)) && !midChanged {
        NothingDue(s, now, due, midX2, c);
      }
    }
  }

  lemma FullCallIsEager(s: Resolver, midChanged: bool, now: nat, due: nat, lastDue: nat, midX2: int, c: Config)
    requires c.Ok() && Inv(s, lastDue, c) && lastDue <= due <= now
    requires midChanged || AllReflected(s.pending, now, midX2, c)
    ensures AllShaped(s.pending, c)
    ensures var rows := LazyRows(s.pending, midChanged, now, due, midX2, c);
            var n := LeadingNever(rows, 0);
            var (pending, written) := EagerCall(s.pending, s.written, now, due, midX2, c);
            && CachesOk(rows[n..], due, c) && MinBelow(SoonestCached(rows, |rows|), rows[n..])
            && EraseAll(rows[n..]) == EraseAll(pending) && EraseAll(s.written + rows[..n]) == EraseAll(written)
  {
    LazyRowsAreEager(s, midChanged, now, due, lastDue, midX2, c);
    var ls := LazyRows(s.pending, midChanged, now, due, midX2, c);
    var es := EagerRows(s.pending, now, due, midX2, c);
    forall k | 0 <= k < |ls| ensures Erase(ls[k]) == Erase(es[k]) {
      assert EraseAll(ls)[k] == EraseAll(es)[k];
    }
    LeadingAgree(ls, es, 0);
    SplitCaches(ls, LeadingNever(ls, 0), due, c);
    SplitErased(ls, es, LeadingNever(ls, 0), s.written);
  }

  lemma SplitCaches(rows: seq<Row>, n: nat, due: nat, c: Config)
    requires n <= |rows| && CachesOk(rows, due, c)
    ensures CachesOk(rows[n..], due, c) && MinBelow(SoonestCached(rows, |rows|), rows[n..])
  {
  }

  lemma SplitErased(ls: seq<Row>, es: seq<Row>, n: nat, written: seq<Row>)
    requires n <= |ls| == |es| && EraseAll(ls) == EraseAll(es)
    ensures EraseAll(ls[n..]) == EraseAll(es[n..])
    ensures EraseAll(written + ls[..n]) == EraseAll(written + es[..n])
  {
    forall k | 0 <= k < |ls| ensures Erase(ls[k]) == Erase(es[k]) {
      assert EraseAll(ls)[k] == EraseAll(es)[k];
    }
  }

  /** When the global minimum is not due, no row is: the early return loses nothing. */
  lemma NothingDue(s: Resolver, now: nat, due: nat, midX2: int, c: Config)
    requires AllShaped(s.pending, c) && MinBelow(s.minDeadline, s.pending) && !Leq(s.minDeadline, At(due))
    ensures LazyRows(s.pending, false, now, due, midX2, c) == s.pending
  {
    forall k | 0 <= k < |s.pending| ensures LazyRow(s.pending[k], false, now, due, midX2, c) == s.pending[k] {
      assert Leq(s.minDeadline, s.pending[k].nextDeadline);
    }
  }

  /** Whatever a call writes and keeps are the old rows after one lazy pass. */
  lemma LazyCallRows(s: Resolver, now: nat, due: nat, midX2: int, c: Config)
    requires AllShaped(s.pending, c) && MinBelow(s.minDeadline, s.pending)
    ensures var l := LazyCall(s, now, due, midX2, c);
            l.written + l.pending == s.written + LazyRows(s.pending, s.lastMid != Some(midX2), now, due, midX2, c)
  {
    var midChanged := s.lastMid != Some(midX2);
    var rows := LazyRows(s.pending, midChanged, now, due, midX2, c);
    if s.pending == [] {
      assert rows == [];
    } else if !Leq(s.minDeadline, At(due)) && !midChanged {
      NothingDue(s, now, due, midX2, c);
    } else {
      Rejoin(s.written, rows, LeadingNever(rows, 0));
    }
  }

  lemma EraseJoins(a: seq<Row>, b: seq<Row>)
    ensures EraseAll(a + b) == EraseAll(a) + EraseAll(b)
  {
  }

  /** Exactly when a call is right: unless the mid just differs from the last one resolved, every row old
      enough to react must have reacted to it already. */
  lemma LazyCallExact(s: Resolver, now: nat, due: nat, lastDue: nat, midX2: int, c: Config)
    requires c.Ok() && Inv(s, lastDue, c) && lastDue <= due <= now
    ensures AllShaped(s.pending, c)
    ensures var l := LazyCall(s, now, due, midX2, c);
            var (pending, written) := EagerCall(s.pending, s.written, now, due, midX2, c);
            ((EraseAll(l.pending) == EraseAll(pending) && EraseAll(l.written) == EraseAll(written))
             <==> (s.lastMid != Some(midX2) || AllReflected(s.pending, now, midX2, c)))
  {
    CachesShaped(s.pending, lastDue, c);
    var l := LazyCall(s, now, due, midX2, c);
    var (pending, written) := EagerCall(s.pending, s.written, now, due, midX2, c);
    if s.lastMid != Some(midX2) || AllReflected(s.pending, now, midX2, c) {
      LazyCallIsEager(s, now, due, lastDue, midX2, c);
    } else if EraseAll(l.pending) == EraseAll(pending) && EraseAll(l.written) == EraseAll(written) {
      SameCallReflects(s, now, due, lastDue, midX2, c);
    }
  }

  lemma EagerCallRows(s: Resolver, now: nat, due: nat, midX2: int, c: Config)
    requires AllShaped(s.pending, c)
    ensures var (pending, written) := EagerCall(s.pending, s.written, now, due, midX2, c);
            written + pending == s.written + EagerRows(s.pending, now, due, midX2, c)
  {
    var es := EagerRows(s.pending, now, due, midX2, c);
    Rejoin(s.written, es, LeadingDecided(es, 0));
  }

  lemma Rejoin(written: seq<Row>, rows: seq<Row>, n: nat)
    requires n <= |rows|
    ensures (written + rows[..n]) + rows[n..] == written + rows
  {
  }

  lemma SameErased(written: seq<Row>, ls: seq<Row>, es: seq<Row>, k: nat)
    requires EraseAll(written + ls) == EraseAll(written + es) && k < |ls| == |es|
    ensures Erase(ls[k]) == Erase(es[k])
  {
    assert EraseAll(written + ls)[|written| + k] == Erase(ls[k]);
    assert EraseAll(written + es)[|written| + k] == Erase(es[k]);
  }

  lemma SameCallReflects(s: Resolver, now: nat, due: nat, lastDue: nat, midX2: int, c: Config)
    requires c.Ok() && Inv(s, lastDue, c) && lastDue <= due <= now && AllShaped(s.pending, c) && s.lastMid == Some(midX2)
    requires (var l := LazyCall(s, now, due, midX2, c);
              var (pending, written) := EagerCall(s.pending, s.written, now, due, midX2, c);
              EraseAll(l.pending) == EraseAll(pending) && EraseAll(l.written) == EraseAll(written))
    ensures AllReflected(s.pending, now, midX2, c)
  {
    var l := LazyCall(s, now, due, midX2, c);
    var (pending, written) := EagerCall(s.pending, s.written, now, due, midX2, c);
    LazyCallRows(s, now, due, midX2, c);
    EagerCallRows(s, now, due, midX2, c);
    EraseJoins(l.written, l.pending);
    EraseJoins(written, pending);
    SameRowsReflect(s, now, due, lastDue, midX2, c);
  }

  lemma SameRowsReflect(s: Resolver, now: nat, due: nat, lastDue: nat, midX2: int, c: Config)
    requires c.Ok() && CachesOk(s.pending, lastDue, c) && lastDue <= due <= now && AllShaped(s.pending, c)
    requires EraseAll(s.written + LazyRows(s.pending, false, now, due, midX2, c))
          == EraseAll(s.written + EagerRows(s.pending, now, due, midX2, c))
    ensures AllReflected(s.pending, now, midX2, c)
  {
    var ls, es := LazyRows(s.pending, false, now, due, midX2, c), EagerRows(s.pending, now, due, midX2, c);
    forall k | 0 <= k < |s.pending| ensures MidReflected(s.pending[k], now, midX2, c) {
      SameErased(s.written, ls, es, k);
      assert CacheOk(s.pending[k], lastDue, c);
      LazyRowExact(s.pending[k], false, now, due, lastDue, midX2, c);
    }
  }
}
