/** The indexed passive-fill engine (cpp/research/passive_queue.cpp:128-375): per-price prefix sums,
    binary searches and the extreme trees answer in logarithmic time what FillModel.Run answers by
    walking every print. */
module PassiveQueue {
  import opened Wrappers
  import opened ExtremeTrees
  import opened FillModel
  import opened FillAnswers

  datatype Aggressor = Buy | Sell | Unknown
  datatype QuoteSide = Bid | Ask
  datatype TardisTrade = TardisTrade(exchangeTime: nat, localTime: nat, side: Aggressor, price: int, qty: int)

  datatype Status = Ready | LogicError | InvalidArgument | Overflow
  datatype Evaluation = Success(value: Outcome) | Failure(error: Status)

  /** One price level: the prints at that price as parallel columns, and their running volume. */
  datatype Series = Series(exchangeTimes: seq<nat>, localTimes: seq<nat>, ordinals: seq<nat>, quantities: seq<int>,
                           prefix: seq<int>)

  /** The prints at price p among the first i. */
  ghost function Exact(ts: seq<Trade>, p: int, i: nat): (es: seq<Trade>)
    requires i <= |ts|
    ensures |es| == Cnt(ts, p, i)
  {
    if i == 0 then [] else Exact(ts, p, i - 1) + if ts[i - 1].price == p then [ts[i - 1]] else []
  }

  ghost predicate Columns(s: Series, es: seq<Trade>) {
    && |s.exchangeTimes| == |s.localTimes| == |s.ordinals| == |s.quantities| == |es|
    && (forall k | 0 <= k < |es| :: s.exchangeTimes[k] == es[k].exchangeTime)
    && (forall k | 0 <= k < |es| :: s.localTimes[k] == es[k].localTime)
    && (forall k | 0 <= k < |es| :: s.ordinals[k] == es[k].ordinal)
    && (forall k | 0 <= k < |es| :: s.quantities[k] == es[k].qty)
  }

  ghost predicate PrefixSums(quantities: seq<int>, prefix: seq<int>) {
    && |prefix| == |quantities| + 1 && prefix[0] == 0
    && (forall k | 0 <= k < |quantities| :: prefix[k + 1] == prefix[k] + quantities[k])
  }

  lemma {:induction false} ExactAt(ts: seq<Trade>, p: int, i: nat, n: nat)
    requires i < n <= |ts| && ts[i].price == p
    ensures Cnt(ts, p, i) < Cnt(ts, p, n) && Exact(ts, p, n)[Cnt(ts, p, i)] == ts[i]
  {
    if i + 1 < n {
      ExactAt(ts, p, i, n - 1);
    }
  }

  /** Where the k-th print at price p sits among all prints. */
  lemma {:induction false} Position(ts: seq<Trade>, p: int, n: nat, k: nat) returns (i: nat)
    requires n <= |ts| && k < Cnt(ts, p, n)
    ensures i < n && ts[i].price == p && Cnt(ts, p, i) == k && Exact(ts, p, n)[k] == ts[i]
  {
    if ts[n - 1].price == p && Cnt(ts, p, n - 1) == k {
      i := n - 1;
    } else {
      i := Position(ts, p, n - 1, k);
    }
  }

  ghost predicate SeriesOf(s: Series, ts: seq<Trade>, p: int) {
    Columns(s, Exact(ts, p, |ts|)) && PrefixSums(s.quantities, s.prefix)
  }

  lemma {:induction false} PrefixIsVolume(s: Series, ts: seq<Trade>, p: int, i: nat)
    requires SeriesOf(s, ts, p) && i <= |ts|
    ensures Cnt(ts, p, i) < |s.prefix| && s.prefix[Cnt(ts, p, i)] == Vol(ts, p, i)
  {
    if i > 0 {
      PrefixIsVolume(s, ts, p, i - 1);
      if ts[i - 1].price == p {
        ExactAt(ts, p, i - 1, |ts|);
      }
    }
  }

  /** Positions order prints as (local time, ordinal) does, and a level's columns follow positions. */
  lemma SeriesOrdered(s: Series, ts: seq<Trade>, p: int, j: nat, k: nat)
    requires Ordered(ts) && SeriesOf(s, ts, p) && j < k < |s.ordinals|
    ensures s.localTimes[j] <= s.localTimes[k] && s.ordinals[j] < s.ordinals[k] && s.prefix[j] < s.prefix[k]
  {
    var a := Position(ts, p, |ts|, j);
    var b := Position(ts, p, |ts|, k);
    if a >= b {
      Monotone(ts, p, b, a);
    }
    Monotone(ts, p, a, b);
    PrefixIsVolume(s, ts, p, a);
    PrefixIsVolume(s, ts, p, b);
  }

  /** Cutting a level's local times at a stamp counts the prints at its price before that stamp. */
  lemma RankOfStamp(s: Series, ts: seq<Trade>, p: int, stamp: nat, cut: nat, rank: nat)
    requires Ordered(ts) && SeriesOf(s, ts, p) && cut <= |ts| && rank <= |s.localTimes|
    requires SplitsAt(s.localTimes, 0, |s.localTimes|, stamp, rank)
    requires forall i | 0 <= i < |ts| :: ts[i].localTime < stamp <==> i < cut
    ensures rank == Cnt(ts, p, cut)
  {
    Monotone(ts, p, cut, |ts|);
    if rank < Cnt(ts, p, cut) {
      var i := Position(ts, p, cut, rank);
      ExactAt(ts, p, i, |ts|);
    } else if Cnt(ts, p, cut) < rank {
      var i := Position(ts, p, |ts|, Cnt(ts, p, cut));
      if i < cut {
        Monotone(ts, p, i, cut);
      }
    }
  }

  /** r is where a sorted range [lo, hi) stops being below v. */
  ghost predicate SplitsAt(xs: seq<int>, lo: nat, hi: nat, v: int, r: nat) {
    && lo <= r <= hi <= |xs|
    && (forall k | lo <= k < r :: xs[k] < v)
    && (forall k | r <= k < hi :: v <= xs[k])
  }

  method LowerBound(xs: seq<int>, lo: nat, hi: nat, v: int) returns (r: nat)
    requires lo <= hi <= |xs|
    requires forall j, k | lo <= j < k < hi :: xs[j] <= xs[k]
    ensures SplitsAt(xs, lo, hi, v, r)
  {
    r := lo;
    var upper := hi;
    while r < upper
      invariant lo <= r <= upper <= hi
      invariant forall k | lo <= k < r :: xs[k] < v
      invariant forall k | upper <= k < hi :: v <= xs[k]
    {
      var middle := r + (upper - r) / 2;
      if xs[middle] < v {
        r := middle + 1;
      } else {
        upper := middle;
      }
    }
  }

  /** The first element above v; on integers, the first one not below v + 1. */
  method UpperBound(xs: seq<int>, lo: nat, hi: nat, v: int) returns (r: nat)
    requires lo <= hi <= |xs|
    requires forall j, k | lo <= j < k < hi :: xs[j] <= xs[k]
    ensures SplitsAt(xs, lo, hi, v + 1, r)
  {
    r := LowerBound(xs, lo, hi, v + 1);
  }

  function LocalTimes(ts: seq<Trade>): (ls: seq<int>)
    ensures |ls| == |ts| && forall i | 0 <= i < |ts| :: ls[i] == ts[i].localTime
  {
    seq(|ts|, i requires 0 <= i < |ts| => ts[i].localTime)
  }

  function Prices(ts: seq<Trade>): (ps: seq<int>)
    ensures |ps| == |ts| && forall i | 0 <= i < |ts| :: ps[i] == ts[i].price
  {
    seq(|ts|, i requires 0 <= i < |ts| => ts[i].price)
  }

  predicate Earlier(leftLocal: nat, leftOrdinal: nat, rightLocal: nat, rightOrdinal: nat) {
    leftLocal < rightLocal || (leftLocal == rightLocal && leftOrdinal < rightOrdinal)
  }

  /** The price levels hold exactly the side's prints, with running volumes. */
  ghost predicate Indexed(ts: seq<Trade>, exact: map<int, Series>) {
    Ordered(ts) && forall p :: IndexedAt(ts, exact, p)
  }

  ghost predicate IndexedAt(ts: seq<Trade>, exact: map<int, Series>, p: int) {
    if p in exact then SeriesOf(exact[p], ts, p) else Cnt(ts, p, |ts|) == 0
  }

  /** One side of the index: its prints, its price levels and its tree agree. */
  ghost predicate SideIndex(ts: seq<Trade>, exact: map<int, Series>, tree: ExtremeTree, findLess: bool)
    reads tree, tree.tree
  {
    && Indexed(ts, exact)
    && tree.Valid() && tree.prices == Prices(ts) && tree.findLess == findLess
  }

  /** The print at which the level's volume since [start reaches `needed`, or `end`. */
  method FindCrossing(s: Series, start: nat, end: nat, needed: int, ghost ts: seq<Trade>, ghost q: Query,
                      ghost b: nat, ghost e: nat)
    returns (k: nat, ghost g: nat)
    requires Ordered(ts) && SeriesOf(s, ts, q.quote) && b <= e <= |ts| && needed > 0
    requires start == Cnt(ts, q.quote, b) && end == Cnt(ts, q.quote, e) && end <= |s.quantities|
    ensures start <= k <= end
    ensures k == end ==> g == |ts| && Vol(ts, q.quote, e) - Vol(ts, q.quote, b) < needed
    ensures k < end ==> g < e && Crossing(ts, q, b, needed, g) && k == Cnt(ts, q.quote, g)
                        && s.localTimes[k] == ts[g].localTime && s.exchangeTimes[k] == ts[g].exchangeTime
                        && s.ordinals[k] == ts[g].ordinal
  {
    Monotone(ts, q.quote, b, e);
    PrefixIsVolume(s, ts, q.quote, b);
    PrefixIsVolume(s, ts, q.quote, e);
    var target := s.prefix[start] + needed;
    forall i, j | start + 1 <= i < j < end + 1 ensures s.prefix[i] <= s.prefix[j] {
      PrefixOrdered(s, ts, q.quote, i, j);
    }
    var found := LowerBound(s.prefix, start + 1, end + 1, target);
    g := |ts|;
    if found == end + 1 {
      k := end;
    } else {
      k := found - 1;
      g := Position(ts, q.quote, e, k);
      if g < b {
        Monotone(ts, q.quote, g, b);
      }
      ExactAt(ts, q.quote, g, |ts|);
      PrefixIsVolume(s, ts, q.quote, g);
      PrefixIsVolume(s, ts, q.quote, g + 1);
    }
  }

  lemma PrefixOrdered(s: Series, ts: seq<Trade>, p: int, i: nat, j: nat)
    requires Ordered(ts) && SeriesOf(s, ts, p) && i <= j < |s.prefix|
    ensures s.prefix[i] <= s.prefix[j]
    decreases j
  {
    if i < j {
      PrefixOrdered(s, ts, p, i, j - 1);
      var g := Position(ts, p, |ts|, j - 1);
    }
  }

  /** g is the crossing of `target`, or |ts| when the window never reaches it. */
  ghost predicate CrossingOrNone(ts: seq<Trade>, q: Query, b: nat, e: nat, target: int, g: nat)
    requires b <= e <= |ts|
  {
    if g == |ts| then Vol(ts, q.quote, e) - Vol(ts, q.quote, b) < target
    else g < e && Crossing(ts, q, b, target, g)
  }

  /** The position of the first print of the window that goes through the quote, or |ts|. */
  ghost predicate FirstThrough(ts: seq<Trade>, q: Query, b: nat, e: nat, through: nat)
    requires b <= e <= |ts|
  {
    && (through == |ts| || (b <= through < e && q.Through(ts[through])))
    && (forall j | b <= j < e && j < through :: !q.Through(ts[j]))
  }

  lemma TreeFindsThrough(ts: seq<Trade>, q: Query, b: nat, e: nat)
    requires b <= e <= |ts|
    ensures FirstThrough(ts, q, b, e, FirstBeyond(Prices(ts), q.findLess, b, e, q.quote))
  {
    FirstBeyondIsLeast(Prices(ts), q.findLess, b, e, q.quote);
    var through := FirstBeyond(Prices(ts), q.findLess, b, e, q.quote);
    forall j | b <= j < e && j < through ensures !q.Through(ts[j]) {
      assert !Beyond(q.findLess, Prices(ts)[j], q.quote);
    }
  }

  /** Progress of an order whose volume counts up to `end`, the queue crossing being g. */
  ghost function Landed(ts: seq<Trade>, q: Query, b: nat, end: nat, extra: int, first: Option<Trade>, full: Option<Trade>): Progress
    requires b <= |ts| && end <= |ts|
  {
    Progress(Vol(ts, q.quote, end) - Vol(ts, q.quote, b), Cnt(ts, q.quote, end) - Cnt(ts, q.quote, b) + extra,
             first, full, extra == 1)
  }

  /** The three landmarks the index finds (first print through, queue crossing g, completion f)
      determine the whole trade-by-trade run. */
  lemma LandmarksDetermineRun(ts: seq<Trade>, q: Query, b: nat, e: nat, through: nat, g: nat, f: nat)
    requires q.Valid() && Ordered(ts) && Window(ts, q, b, e) && FirstThrough(ts, q, b, e, through)
    requires CrossingOrNone(ts, q, b, e, q.queue + 1, g) && CrossingOrNone(ts, q, b, e, q.queue + q.order, f)
    ensures g <= f <= |ts|
    ensures Run(ts, q, |ts|) ==
            if through < f then Landed(ts, q, b, through, 1, Some(ts[Min(g, through)]), Some(ts[through]))
            else if f < |ts| then Landed(ts, q, b, f + 1, 0, Some(ts[g]), Some(ts[f]))
            else Landed(ts, q, b, e, 0, if g < |ts| then Some(ts[g]) else None, None)
  {
    CrossingsOrdered(ts, q, b, e, g, f);
    if through < f {
      VolumeBeforeCrossing(ts, q, b, e, q.queue + q.order, f, through);
      ResolvedAt(ts, q, b, e, through, g);
    } else if f < |ts| {
      VolumeBeforeCrossing(ts, q, b, e, q.queue + q.order, f, f);
      ResolvedAt(ts, q, b, e, f, g);
    } else {
      RunUnresolved(ts, q, b, e, e, g);
      RunAfterWindow(ts, q, b, e, |ts|);
    }
  }

  lemma ResolvedAt(ts: seq<Trade>, q: Query, b: nat, e: nat, r: nat, g: nat)
    requires q.Valid() && Ordered(ts) && Window(ts, q, b, e) && b <= r < e
    requires Unresolved(ts, q, b, r)
    requires q.Through(ts[r]) || Crossing(ts, q, b, q.queue + q.order, r)
    requires CrossingOrNone(ts, q, b, e, q.queue + 1, g)
    ensures Run(ts, q, |ts|) ==
            if q.Through(ts[r]) then Landed(ts, q, b, r, 1, Some(ts[Min(g, r)]), Some(ts[r]))
            else Landed(ts, q, b, r + 1, 0, Some(ts[Min(g, r)]), Some(ts[r]))
  {
    if g >= r {
      VolumeBeforeCrossing(ts, q, b, e, q.queue + 1, g, r);
    }
    RunResolved(ts, q, b, e, r, g);
  }

  lemma VolumeBeforeCrossing(ts: seq<Trade>, q: Query, b: nat, e: nat, target: int, g: nat, i: nat)
    requires Ordered(ts) && b <= e <= |ts| && CrossingOrNone(ts, q, b, e, target, g) && b <= i <= Min(g, e)
    ensures Vol(ts, q.quote, i) - Vol(ts, q.quote, b) < target
  {
    Monotone(ts, q.quote, i, Min(g, e));
  }

  /** The queue runs out no later than the order completes. */
  lemma CrossingsOrdered(ts: seq<Trade>, q: Query, b: nat, e: nat, g: nat, f: nat)
    requires q.Valid() && Ordered(ts) && b <= e <= |ts|
    requires CrossingOrNone(ts, q, b, e, q.queue + 1, g) && CrossingOrNone(ts, q, b, e, q.queue + q.order, f)
    ensures g <= f <= |ts|
  {
    if f < g {
      VolumeBeforeCrossing(ts, q, b, e, q.queue + 1, g, f + 1);
    }
  }

  /** How many of the level's prints in [start, end) come before the given print. */
  method CountEarlier(s: Series, start: nat, end: nat, local: nat, ordinal: nat) returns (lower: nat)
    requires start <= end <= |s.ordinals| && |s.localTimes| == |s.ordinals|
    requires forall j, k | start <= j < k < end :: Earlier(s.localTimes[j], s.ordinals[j], s.localTimes[k], s.ordinals[k])
    ensures start <= lower <= end
    ensures forall k | start <= k < end :: Earlier(s.localTimes[k], s.ordinals[k], local, ordinal) <==> k < lower
  {
    lower := start;
    var upper := end;
    while lower < upper
      invariant start <= lower <= upper <= end
      invariant forall k | start <= k < lower :: Earlier(s.localTimes[k], s.ordinals[k], local, ordinal)
      invariant forall k | upper <= k < end :: !Earlier(s.localTimes[k], s.ordinals[k], local, ordinal)
    {
      var middle := lower + (upper - lower) / 2;
      if Earlier(s.localTimes[middle], s.ordinals[middle], local, ordinal) {
        lower := middle + 1;
      } else {
        upper := middle;
      }
    }
  }

  /** Where the level's volume stops counting: at the print through the quote, after the completing
      print, or at the end of the window. */
  method EffectiveEnd(s: Series, start: nat, end: nat, throughIsFull: bool, throughLocal: nat, throughOrdinal: nat,
                      fullLocal: nat, fullOrdinal: nat, ghost ts: seq<Trade>, ghost q: Query, ghost b: nat, ghost e: nat,
                      ghost through: nat, ghost f: nat)
    returns (k: nat)
    requires Ordered(ts) && SeriesOf(s, ts, q.quote) && b <= e <= |ts|
    requires start == Cnt(ts, q.quote, b) && end == Cnt(ts, q.quote, e) && start <= end <= |s.ordinals|
    requires throughIsFull ==> b <= through < e && throughLocal == ts[through].localTime && throughOrdinal == ts[through].ordinal
    requires f <= |ts| && (f < |ts| <==> fullLocal != 0)
    requires f < |ts| ==> b <= f < e && ts[f].price == q.quote && fullOrdinal == ts[f].ordinal
    ensures k == Cnt(ts, q.quote, if throughIsFull then through else if f < |ts| then f + 1 else e)
  {
    k := end;
    if throughIsFull {
      forall i, j | start <= i < j < end
        ensures Earlier(s.localTimes[i], s.ordinals[i], s.localTimes[j], s.ordinals[j])
      {
        SeriesOrdered(s, ts, q.quote, i, j);
      }
      k := CountEarlier(s, start, end, throughLocal, throughOrdinal);
      ThroughRank(s, ts, q, b, e, through, k);
    } else if fullLocal != 0 {
      forall i, j | start <= i < j < end ensures s.ordinals[i] <= s.ordinals[j] {
        SeriesOrdered(s, ts, q.quote, i, j);
      }
      var found := LowerBound(s.ordinals, start, end, fullOrdinal);
      k := found + 1;
      FullRank(s, ts, q, b, e, f, found);
    }
  }

  lemma ThroughRank(s: Series, ts: seq<Trade>, q: Query, b: nat, e: nat, through: nat, k: nat)
    requires Ordered(ts) && SeriesOf(s, ts, q.quote) && b <= through < e <= |ts|
    requires Cnt(ts, q.quote, b) <= k <= Cnt(ts, q.quote, e) <= |s.ordinals|
    requires forall i | Cnt(ts, q.quote, b) <= i < Cnt(ts, q.quote, e) ::
               Earlier(s.localTimes[i], s.ordinals[i], ts[through].localTime, ts[through].ordinal) <==> i < k
    ensures k == Cnt(ts, q.quote, through)
  {
    Monotone(ts, q.quote, b, through);
    Monotone(ts, q.quote, through, e);
    var rank := Cnt(ts, q.quote, through);
    if k < rank {
      RankedBefore(s, ts, q.quote, through, k);
    } else if rank < k {
      RankedAfter(s, ts, q.quote, through, rank);
    }
  }

  lemma RankedBefore(s: Series, ts: seq<Trade>, p: int, cut: nat, k: nat)
    requires Ordered(ts) && SeriesOf(s, ts, p) && cut < |ts| && k < Cnt(ts, p, cut)
    ensures k < |s.ordinals| && Earlier(s.localTimes[k], s.ordinals[k], ts[cut].localTime, ts[cut].ordinal)
  {
    var i := Position(ts, p, cut, k);
    ExactAt(ts, p, i, |ts|);
  }

  lemma RankedAfter(s: Series, ts: seq<Trade>, p: int, cut: nat, k: nat)
    requires Ordered(ts) && SeriesOf(s, ts, p) && cut < |ts| && Cnt(ts, p, cut) <= k < |s.ordinals|
    ensures !Earlier(s.localTimes[k], s.ordinals[k], ts[cut].localTime, ts[cut].ordinal)
  {
    var i := Position(ts, p, |ts|, k);
    if i < cut {
      Monotone(ts, p, i, cut);
    }
  }

  lemma FullRank(s: Series, ts: seq<Trade>, q: Query, b: nat, e: nat, f: nat, k: nat)
    requires Ordered(ts) && SeriesOf(s, ts, q.quote) && b <= f < e <= |ts| && ts[f].price == q.quote
    requires Cnt(ts, q.quote, e) <= |s.ordinals|
    requires SplitsAt(s.ordinals, Cnt(ts, q.quote, b), Cnt(ts, q.quote, e), ts[f].ordinal, k)
    ensures k + 1 == Cnt(ts, q.quote, f + 1)
  {
    Monotone(ts, q.quote, b, f);
    Monotone(ts, q.quote, f, e);
    ExactAt(ts, q.quote, f, |ts|);
    var rank := Cnt(ts, q.quote, f);
    if k < rank {
      SeriesOrdered(s, ts, q.quote, k, rank);
    }
  }

  /** The prints strictly inside the order's life, found by binary search on local time. */
  method FindWindow(ts: seq<Trade>, q: Query) returns (b: nat, e: nat)
    requires Ordered(ts) && q.Valid()
    ensures Window(ts, q, b, e)
    ensures SplitsAt(LocalTimes(ts), 0, |ts|, q.placement + 1, b) && SplitsAt(LocalTimes(ts), 0, |ts|, q.end, e)
  {
    var locals := LocalTimes(ts);
    b := UpperBound(locals, 0, |locals|, q.placement);
    e := LowerBound(locals, 0, |locals|, q.end);
    assert forall i | 0 <= i < |ts| :: ts[i].localTime == locals[i];
    if e < |locals| {
      assert q.end <= locals[e];
    }
  }

  /** A print's stamps as evaluate_side carries them: zeros and the all-ones ordinal stand for none. */
  datatype Stamp = Stamp(local: nat, exchange: nat, ordinal: nat)

  const NO_STAMP := Stamp(0, 0, NO_ORDINAL)

  ghost predicate StampOf(x: Stamp, ts: seq<Trade>, g: nat) {
    x == if g < |ts| then Stamp(ts[g].localTime, ts[g].exchangeTime, ts[g].ordinal) else NO_STAMP
  }

  function StampAt(s: Series, k: nat): Stamp
    requires k < |s.localTimes| == |s.exchangeTimes| == |s.ordinals|
  {
    Stamp(s.localTimes[k], s.exchangeTimes[k], s.ordinals[k])
  }

  /** The part of the evaluation that reads the quote's own price level. */
  method ExactPart(s: Series, q: Query, ghost ts: seq<Trade>, ghost b: nat, ghost e: nat)
    returns (start: nat, end: nat, first: Stamp, full: Stamp, ghost g: nat, ghost f: nat)
    requires q.Valid() && Ordered(ts) && Window(ts, q, b, e) && SeriesOf(s, ts, q.quote)
    ensures start == Cnt(ts, q.quote, b) && end == Cnt(ts, q.quote, e) && start <= end <= |s.ordinals|
    ensures CrossingOrNone(ts, q, b, e, q.queue + 1, g) && CrossingOrNone(ts, q, b, e, q.queue + q.order, f)
    ensures StampOf(first, ts, g) && StampOf(full, ts, f)
  {
    forall j, k | 0 <= j < k < |s.localTimes| ensures s.localTimes[j] <= s.localTimes[k] {
      SeriesOrdered(s, ts, q.quote, j, k);
    }
    start := UpperBound(s.localTimes, 0, |s.localTimes|, q.placement);
    end := LowerBound(s.localTimes, 0, |s.localTimes|, q.end);
    RankOfStamp(s, ts, q.quote, q.placement + 1, b, start);
    RankOfStamp(s, ts, q.quote, q.end, e, end);
    Monotone(ts, q.quote, b, e);
    var k;
    k, g := FindCrossing(s, start, end, q.queue + 1, ts, q, b, e);
    first := if k < end then StampAt(s, k) else NO_STAMP;
    k, f := FindCrossing(s, start, end, q.queue + q.order, ts, q, b, e);
    full := if k < end then StampAt(s, k) else NO_STAMP;
  }

  lemma NoLevelNoVolume(ts: seq<Trade>, q: Query, b: nat, e: nat)
    requires q.Valid() && Ordered(ts) && b <= e <= |ts| && Cnt(ts, q.quote, |ts|) == 0
    ensures Cnt(ts, q.quote, b) == Cnt(ts, q.quote, e) == 0 && Vol(ts, q.quote, b) == Vol(ts, q.quote, e)
  {
    Monotone(ts, q.quote, b, e);
    Monotone(ts, q.quote, e, |ts|);
  }

  /** Prints are ordered by (local time, ordinal) exactly as by position. */
  lemma EarlierIsBefore(ts: seq<Trade>, i: nat, j: nat)
    requires Ordered(ts) && i < |ts| && j < |ts|
    ensures Earlier(ts[i].localTime, ts[i].ordinal, ts[j].localTime, ts[j].ordinal) <==> i < j
  {
  }

  /** The zero sentinel is safe: a print inside the window is stamped after placement, so never at 0. */
  lemma SentinelIsSafe(ts: seq<Trade>, q: Query, b: nat, e: nat, target: int, g: nat, x: Stamp)
    requires Window(ts, q, b, e) && CrossingOrNone(ts, q, b, e, target, g) && StampOf(x, ts, g)
    ensures x.local == 0 <==> g == |ts|
  {
  }

  /** Lots counted at the quote when the indexed evaluation stops. */
  method VolumePart(s: Series, q: Query, start: nat, k: nat, ghost ts: seq<Trade>, ghost b: nat, ghost end: nat)
    returns (total: int, count: nat)
    requires Ordered(ts) && SeriesOf(s, ts, q.quote) && b <= end <= |ts|
    requires start == Cnt(ts, q.quote, b) && k == Cnt(ts, q.quote, end)
    ensures total == Vol(ts, q.quote, end) - Vol(ts, q.quote, b)
    ensures count == Cnt(ts, q.quote, end) - Cnt(ts, q.quote, b)
  {
    Monotone(ts, q.quote, b, end);
    PrefixIsVolume(s, ts, q.quote, b);
    PrefixIsVolume(s, ts, q.quote, end);
    total := s.prefix[k] - s.prefix[start];
    count := k - start;
  }

  /** The record the evaluation fills in, field by field. */
  function FinishOutcome(q: Query, throughIsFull: bool, throughPrice: int, first: Stamp, through: Stamp, full: Stamp,
                         total: int, count: nat): Outcome
  {
    var resolved := if throughIsFull then through else full;
    var filled := if throughIsFull || full.local != 0 then q.order else Clamp(total - q.queue, 0, q.order);
    Outcome(if filled == q.order then Full else if filled > 0 then Partial else Unfilled,
            q.queue, if throughIsFull then q.queue else Min(q.queue, total), total, filled,
            count + if throughIsFull then 1 else 0,
            first.exchange, first.local, resolved.exchange, resolved.local, first.ordinal, resolved.ordinal,
            if throughIsFull then throughPrice else 0, throughIsFull)
  }

  /** What the index knows of an order: its window, and the landmarks with their stamps. */
  ghost predicate Landmarks(ts: seq<Trade>, q: Query, b: nat, e: nat, through: nat, g: nat, f: nat,
                            throughStamp: Stamp, first: Stamp, full: Stamp)
  {
    && q.Valid() && Ordered(ts) && Window(ts, q, b, e) && FirstThrough(ts, q, b, e, through)
    && CrossingOrNone(ts, q, b, e, q.queue + 1, g) && CrossingOrNone(ts, q, b, e, q.queue + q.order, f)
    && StampOf(throughStamp, ts, through) && StampOf(first, ts, g) && StampOf(full, ts, f)
  }

  predicate Beats(have: bool, through: Stamp, exact: Stamp) {
    have && (exact.local == 0 || Earlier(through.local, through.ordinal, exact.local, exact.ordinal))
  }

  /** Comparing stamps, zero sentinel included, is comparing positions. */
  lemma BeatsIsBefore(ts: seq<Trade>, q: Query, b: nat, e: nat, target: int, through: nat, g: nat, x: Stamp, y: Stamp)
    requires Ordered(ts) && Window(ts, q, b, e) && FirstThrough(ts, q, b, e, through)
    requires CrossingOrNone(ts, q, b, e, target, g) && StampOf(x, ts, through) && StampOf(y, ts, g)
    ensures Beats(through < |ts|, x, y) <==> through < g
  {
    SentinelIsSafe(ts, q, b, e, target, g, y);
    if through < |ts| && g < |ts| {
      EarlierIsBefore(ts, through, g);
    }
  }

  /** Where the counted volume stops, as a position. */
  ghost function StopAt(ts: seq<Trade>, e: nat, through: nat, f: nat): nat {
    if through < f then through else if f < |ts| then f + 1 else e
  }

  /** A stamp as reported for a print, or for none. */
  ghost predicate Stamps(x: Stamp, t: Option<Trade>) {
    x.exchange == ExchangeOf(t) && x.local == LocalOf(t) && x.ordinal == OrdinalOf(t)
  }

  lemma OutcomeIsReport(s: Progress, q: Query, throughIsFull: bool, throughPrice: int, first: Stamp, through: Stamp,
                        full: Stamp, total: int, count: nat)
    requires q.Valid() && s.volume == total && s.count == count + (if throughIsFull then 1 else 0) && s.through == throughIsFull
    requires Stamps(first, s.first) && Stamps(if throughIsFull then through else full, s.full)
    requires throughIsFull ==> s.full.Some? && throughPrice == s.full.value.price
    requires !throughIsFull ==> (full.local != 0 <==> s.full.Some?)
    ensures FinishOutcome(q, throughIsFull, throughPrice, first, through, full, total, count) == Report(s, q)
  {
  }

  lemma FinishIsReport(ts: seq<Trade>, q: Query, b: nat, e: nat, through: nat, g: nat, f: nat,
                       throughStamp: Stamp, first: Stamp, full: Stamp, throughPrice: int, total: int, count: nat)
    requires Landmarks(ts, q, b, e, through, g, f, throughStamp, first, full)
    requires through < |ts| ==> throughPrice == ts[through].price
    requires total == Vol(ts, q.quote, StopAt(ts, e, through, f)) - Vol(ts, q.quote, b)
    requires count == Cnt(ts, q.quote, StopAt(ts, e, through, f)) - Cnt(ts, q.quote, b)
    ensures FinishOutcome(q, through < f, throughPrice, if through < g then throughStamp else first,
                          throughStamp, full, total, count)
         == Report(Run(ts, q, |ts|), q)
  {
    LandmarksDetermineRun(ts, q, b, e, through, g, f);
    SentinelIsSafe(ts, q, b, e, q.queue + q.order, f, full);
    var s := Run(ts, q, |ts|);
    assert s.volume == total && s.count == count + if through < f then 1 else 0;
    assert s.first == if through < g then Some(ts[through]) else if g < |ts| then Some(ts[g]) else None;
    assert s.full == if through < f then Some(ts[through]) else if f < |ts| then Some(ts[f]) else None;
    OutcomeIsReport(s, q, through < f, throughPrice, if through < g then throughStamp else first, throughStamp, full, total, count);
  }

  /** evaluate_side: the logarithmic evaluation reports exactly what walking every print would. */
  method EvaluateSide(ts: seq<Trade>, exact: map<int, Series>, tree: ExtremeTree, q: Query) returns (r: Evaluation)
    requires SideIndex(ts, exact, tree, q.findLess) && IsInt64(q.quote)
    ensures r == if q.Valid() then Success(Report(Run(ts, q, |ts|), q)) else Failure(InvalidArgument)
    ensures r.Success? ==> Answers(r.value, ts, q)
  {
    if q.quote <= 0 || q.order <= 0 || q.queue < 0 || q.end <= q.placement {
      return Failure(InvalidArgument);
    }
    var allBegin, allEnd := FindWindow(ts, q);
    var throughIndex := tree.FirstSatisfying(allBegin, allEnd, q.quote);
    TreeFindsThrough(ts, q, allBegin, allEnd);
    var outcome := EvaluateWindow(ts, exact, q, allBegin, allEnd, throughIndex);
    ReportAnswers(ts, q);
    r := Success(outcome);
  }

  method EvaluateWindow(ts: seq<Trade>, exact: map<int, Series>, q: Query, ghost b: nat, ghost e: nat, throughIndex: nat)
    returns (outcome: Outcome)
    requires q.Valid() && Indexed(ts, exact) && Window(ts, q, b, e) && FirstThrough(ts, q, b, e, throughIndex)
    ensures outcome == Report(Run(ts, q, |ts|), q)
  {
    var first, full := NO_STAMP, NO_STAMP;
    var exactStart, exactEnd := 0, 0;
    ghost var g, f := |ts|, |ts|;
    assert IndexedAt(ts, exact, q.quote);
    if q.quote in exact {
      exactStart, exactEnd, first, full, g, f := ExactPart(exact[q.quote], q, ts, b, e);
    } else {
      NoLevelNoVolume(ts, q, b, e);
    }
    var haveThrough := throughIndex < |ts|;
    var through := if haveThrough
      then Stamp(ts[throughIndex].localTime, ts[throughIndex].exchangeTime, ts[throughIndex].ordinal)
      else NO_STAMP;
    var throughIsFirst := Beats(haveThrough, through, first);
    var throughIsFull := Beats(haveThrough, through, full);
    BeatsIsBefore(ts, q, b, e, q.queue + 1, throughIndex, g, through, first);
    BeatsIsBefore(ts, q, b, e, q.queue + q.order, throughIndex, f, through, full);
    ghost var stop := StopAt(ts, e, throughIndex, f);
    var total, count := 0, 0;
    if q.quote in exact {
      SentinelIsSafe(ts, q, b, e, q.queue + q.order, f, full);
      var k := EffectiveEnd(exact[q.quote], exactStart, exactEnd, throughIsFull, through.local, through.ordinal,
                            full.local, full.ordinal, ts, q, b, e, throughIndex, f);
      total, count := VolumePart(exact[q.quote], q, exactStart, k, ts, b, stop);
    } else {
      NoLevelNoVolume(ts, q, b, stop);
    }
    FinishIsReport(ts, q, b, e, throughIndex, g, f, through, first, full,
                   if haveThrough then ts[throughIndex].price else 0, total, count);
    outcome := FinishOutcome(q, throughIsFull, if haveThrough then ts[throughIndex].price else 0,
                             if throughIsFirst then through else first, through, full, total, count);
  }
}
