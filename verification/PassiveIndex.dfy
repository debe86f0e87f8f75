/** PassiveTradeIndex itself (cpp/research/passive_queue.cpp:128-183, 345-375): trades are added in
    source order, the index is finalized once, and evaluations then answer for the whole history. */
module PassiveIndex {
  import opened ExtremeTrees
  import opened FillModel
  import opened FillAnswers
  import opened PassiveQueue

  function RowTrade(h: seq<TardisTrade>, n: nat): Trade
    requires n < |h|
  {
    Trade(h[n].exchangeTime, h[n].localTime, n, h[n].price, h[n].qty)
  }

  /** The prints of one aggressor among the first n rows, each stamped with its row number. */
  ghost function PrintsOf(h: seq<TardisTrade>, a: Aggressor, n: nat): seq<Trade>
    requires n <= |h|
  {
    if n == 0 then []
    else if h[n - 1].side == a then PrintsOf(h, a, n - 1) + [RowTrade(h, n - 1)]
    else PrintsOf(h, a, n - 1)
  }

  /** The order's progress after the first n rows: a plain walk over every trade, skipping the wrong
      aggressor. */
  ghost function HistoryRun(h: seq<TardisTrade>, a: Aggressor, q: Query, n: nat): Progress
    requires n <= |h|
  {
    if n == 0 then START
    else if h[n - 1].side == a then Step(HistoryRun(h, a, q, n - 1), RowTrade(h, n - 1), q)
    else HistoryRun(h, a, q, n - 1)
  }

  ghost function Regressions(h: seq<TardisTrade>, n: nat): nat
    requires n <= |h|
  {
    if n <= 1 then 0
    else Regressions(h, n - 1) + if h[n - 1].localTime < h[n - 2].localTime then 1 else 0
  }

  ghost predicate Accepted(h: seq<TardisTrade>) {
    forall i | 0 <= i < |h| :: h[i].side != Unknown && h[i].price > 0 && h[i].qty > 0
  }

  lemma {:induction false} Extend(ts: seq<Trade>, t: Trade, q: Query, p: int, i: nat)
    requires i <= |ts|
    ensures Run(ts + [t], q, i) == Run(ts, q, i)
    ensures Cnt(ts + [t], p, i) == Cnt(ts, p, i) && Vol(ts + [t], p, i) == Vol(ts, p, i)
    ensures Exact(ts + [t], p, i) == Exact(ts, p, i)
  {
    if i > 0 {
      Extend(ts, t, q, p, i - 1);
    }
  }

  /** Walking the history and walking the aggressor's own prints give the same progress. */
  lemma {:induction false} HistoryRunIsRun(h: seq<TardisTrade>, a: Aggressor, q: Query, n: nat)
    requires n <= |h|
    ensures HistoryRun(h, a, q, n) == Run(PrintsOf(h, a, n), q, |PrintsOf(h, a, n)|)
  {
    if n > 0 {
      HistoryRunIsRun(h, a, q, n - 1);
      var ts := PrintsOf(h, a, n - 1);
      if h[n - 1].side == a {
        Extend(ts, RowTrade(h, n - 1), q, 0, |ts|);
      }
    }
  }

  lemma {:induction false} NoRegressionSorted(h: seq<TardisTrade>, n: nat, i: nat, j: nat)
    requires n <= |h| && Regressions(h, n) == 0 && i < j < n
    ensures h[i].localTime <= h[j].localTime
  {
    if j < n - 1 {
      NoRegressionSorted(h, n - 1, i, j);
    } else if i < n - 2 {
      NoRegressionSorted(h, n - 1, i, n - 2);
    }
  }

  /** Each print of the side is one accepted row, its ordinal is the row number, and rows keep order. */
  lemma {:induction false} PrintIsRow(h: seq<TardisTrade>, a: Aggressor, n: nat, i: nat)
    requires n <= |h| && i < |PrintsOf(h, a, n)|
    ensures var t := PrintsOf(h, a, n)[i]; t.ordinal < n && t == RowTrade(h, t.ordinal) && h[t.ordinal].side == a
    ensures forall j | 0 <= j < i :: PrintsOf(h, a, n)[j].ordinal < PrintsOf(h, a, n)[i].ordinal
  {
    var before := PrintsOf(h, a, n - 1);
    if i < |before| {
      PrintIsRow(h, a, n - 1, i);
    } else {
      forall j | 0 <= j < i ensures before[j].ordinal < n - 1 {
        PrintIsRow(h, a, n - 1, j);
      }
    }
  }

  /** And every such row is one of them, so they are exactly the rows of that aggressor, in row order. */
  lemma {:induction false} RowIsPrint(h: seq<TardisTrade>, a: Aggressor, n: nat, j: nat) returns (i: nat)
    requires j < n <= |h| && h[j].side == a
    ensures i < |PrintsOf(h, a, n)| && PrintsOf(h, a, n)[i] == RowTrade(h, j)
  {
    if j == n - 1 {
      i := |PrintsOf(h, a, n - 1)|;
    } else {
      i := RowIsPrint(h, a, n - 1, j);
    }
  }

  lemma PrintsOrdered(h: seq<TardisTrade>, a: Aggressor)
    requires Regressions(h, |h|) == 0 && Accepted(h)
    ensures Ordered(PrintsOf(h, a, |h|))
  {
    var ts := PrintsOf(h, a, |h|);
    forall i | 0 <= i < |ts| ensures ts[i].qty > 0 {
      PrintIsRow(h, a, |h|, i);
    }
    forall i, j | 0 <= i < j < |ts| ensures ts[i].localTime <= ts[j].localTime && ts[i].ordinal < ts[j].ordinal {
      PrintIsRow(h, a, |h|, i);
      PrintIsRow(h, a, |h|, j);
      NoRegressionSorted(h, |h|, ts[i].ordinal, ts[j].ordinal);
    }
  }

  /** Adding a row leaves what the earlier rows gave. */
  lemma {:induction false} RowAdded(h: seq<TardisTrade>, row: TardisTrade, a: Aggressor, n: nat)
    requires n <= |h|
    ensures PrintsOf(h + [row], a, n) == PrintsOf(h, a, n) && Regressions(h + [row], n) == Regressions(h, n)
  {
    if n > 0 {
      RowAdded(h, row, a, n - 1);
    }
  }

  const EMPTY := Series([], [], [], [], [])

  function Append(s: Series, t: Trade): Series {
    Series(s.exchangeTimes + [t.exchangeTime], s.localTimes + [t.localTime], s.ordinals + [t.ordinal],
           s.quantities + [t.qty], s.prefix)
  }

  /** Level p holds exactly the side's prints at p, without running volumes yet. */
  ghost predicate LoadingAt(exact: map<int, Series>, ts: seq<Trade>, p: int) {
    if p in exact then Columns(exact[p], Exact(ts, p, |ts|)) && exact[p].prefix == [] else Cnt(ts, p, |ts|) == 0
  }

  ghost predicate Loading(exact: map<int, Series>, ts: seq<Trade>) {
    forall p :: LoadingAt(exact, ts, p)
  }

  function AddToLevel(exact: map<int, Series>, t: Trade): map<int, Series> {
    exact[t.price := Append(if t.price in exact then exact[t.price] else EMPTY, t)]
  }

  lemma ColumnsPush(s: Series, es: seq<Trade>, t: Trade)
    requires Columns(s, es)
    ensures Columns(Append(s, t), es + [t])
  {
  }

  lemma AppendKeepsColumns(s: Series, ts: seq<Trade>, t: Trade)
    requires Columns(s, Exact(ts, t.price, |ts|))
    ensures Columns(Append(s, t), Exact(ts + [t], t.price, |ts| + 1))
  {
    var es := Exact(ts, t.price, |ts|);
    assert Exact(ts + [t], t.price, |ts| + 1) == es + [t] by {
      Extend(ts, t, ANY, t.price, |ts|);
      assert (ts + [t])[|ts|] == t;
    }
    ColumnsPush(s, es, t);
  }

  const ANY := Query(false, 0, 0, 0, 0, 0)

  lemma OtherLevelsKeep(ts: seq<Trade>, t: Trade, p: int)
    requires p != t.price
    ensures Exact(ts + [t], p, |ts| + 1) == Exact(ts, p, |ts|) && Cnt(ts + [t], p, |ts| + 1) == Cnt(ts, p, |ts|)
  {
    Extend(ts, t, ANY, p, |ts|);
  }

  lemma AddToLevelKeeps(exact: map<int, Series>, ts: seq<Trade>, t: Trade)
    requires Loading(exact, ts)
    ensures Loading(AddToLevel(exact, t), ts + [t])
  {
    forall p ensures LoadingAt(AddToLevel(exact, t), ts + [t], p) {
      assert LoadingAt(exact, ts, p);
      if p == t.price {
        AppendKeepsColumns(if p in exact then exact[p] else EMPTY, ts, t);
      } else {
        OtherLevelsKeep(ts, t, p);
      }
    }
  }

  /** Running volumes of one level; fails when a sum leaves the 64-bit range. */
  method RunningVolumes(s: Series, ghost ts: seq<Trade>, ghost p: int) returns (ok: bool, r: Series)
    requires Ordered(ts) && Columns(s, Exact(ts, p, |ts|)) && s.prefix == []
    ensures ok <==> Vol(ts, p, |ts|) <= INT64_MAX
    ensures ok ==> SeriesOf(r, ts, p)
    ensures !ok ==> r == s
  {
    var prefix := [0];
    var i := 0;
    ghost var full := Series(s.exchangeTimes, s.localTimes, s.ordinals, s.quantities, Sums(s.quantities));
    SumsOk(s.quantities);
    PrefixIsVolume(full, ts, p, |ts|);
    while i < |s.quantities|
      invariant 0 <= i <= |s.quantities| && prefix == full.prefix[..i + 1]
      invariant prefix[i] <= INT64_MAX
    {
      if s.quantities[i] > INT64_MAX - prefix[i] {
        PrefixOrdered(full, ts, p, i + 1, |s.quantities|);
        return false, s;
      }
      prefix := prefix + [prefix[i] + s.quantities[i]];
      i := i + 1;
    }
    ok, r := true, s.(prefix := prefix);
  }

  ghost function Sums(quantities: seq<int>): seq<int> {
    if quantities == [] then [0]
    else
      var n := |quantities| - 1;
      var before := Sums(quantities[..n]);
      before + [(if before == [] then 0 else before[|before| - 1]) + quantities[n]]
  }

  lemma {:induction false} SumsOk(quantities: seq<int>)
    ensures PrefixSums(quantities, Sums(quantities))
  {
    if quantities != [] {
      SumsOk(quantities[..|quantities| - 1]);
    }
  }

  lemma Member<T>(s: set<T>) returns (p: T)
    requires s != {}
    ensures p in s
  {
    p :| p in s;
  }

  ghost predicate VolumesFit(ts: seq<Trade>) {
    forall p :: Vol(ts, p, |ts|) <= INT64_MAX
  }

  /** The price levels in unspecified order, as an unordered map is walked. */
  method FillPrefixes(exact: map<int, Series>, ghost ts: seq<Trade>) returns (ok: bool, r: map<int, Series>)
    requires Ordered(ts) && Loading(exact, ts)
    ensures ok <==> VolumesFit(ts)
    ensures ok ==> Indexed(ts, r)
  {
    r := exact;
    var todo := exact.Keys;
    while todo != {}
      invariant todo <= exact.Keys && r.Keys == exact.Keys
      invariant forall p | p in todo :: r[p] == exact[p]
      invariant forall p | p in exact.Keys - todo :: SeriesOf(r[p], ts, p) && Vol(ts, p, |ts|) <= INT64_MAX
      decreases |todo|
    {
      ghost var some := Member(todo);
      var p :| p in todo;
      assert LoadingAt(exact, ts, p);
      var fine, s := RunningVolumes(r[p], ts, p);
      if !fine {
        return false, r;
      }
      r := r[p := s];
      todo := todo - {p};
    }
    forall p ensures Vol(ts, p, |ts|) <= INT64_MAX && IndexedAt(ts, r, p) {
      assert LoadingAt(exact, ts, p);
      if p !in exact {
        Monotone(ts, p, 0, |ts|);
      }
    }
    ok := true;
  }

  /** The state of an index that is still being loaded, as a function of the rows accepted so far. */
  ghost predicate Counted(h: seq<TardisTrade>, buys: seq<Trade>, sells: seq<Trade>, rows: nat, previousLocal: nat, regressions: nat) {
    && Accepted(h)
    && buys == PrintsOf(h, Buy, |h|) && sells == PrintsOf(h, Sell, |h|)
    && rows == |h| && regressions == Regressions(h, |h|)
    && (rows > 0 ==> previousLocal == h[rows - 1].localTime)
  }

  lemma CountedPush(h: seq<TardisTrade>, buys: seq<Trade>, sells: seq<Trade>, rows: nat, previousLocal: nat, regressions: nat,
                    row: TardisTrade, t: Trade)
    requires Counted(h, buys, sells, rows, previousLocal, regressions)
    requires row.side != Unknown && row.price > 0 && row.qty > 0
    requires t == Trade(row.exchangeTime, row.localTime, rows, row.price, row.qty)
    ensures Counted(h + [row], if row.side == Buy then buys + [t] else buys, if row.side == Buy then sells else sells + [t],
                    rows + 1, row.localTime, regressions + if rows != 0 && row.localTime < previousLocal then 1 else 0)
  {
    RowAdded(h, row, Buy, |h|);
    RowAdded(h, row, Sell, |h|);
    assert |h| > 0 ==> (h + [row])[|h| - 1] == h[|h| - 1];
  }

  class PassiveTradeIndex {
    var buys: seq<Trade>
    var sells: seq<Trade>
    var buyExact: map<int, Series>
    var sellExact: map<int, Series>
    const buyTree: ExtremeTree
    const sellTree: ExtremeTree
    var rows: nat
    var previousLocal: nat
    var regressions: nat
    var finalized: bool
    ghost var history: seq<TardisTrade>

    ghost predicate Valid()
      reads this, buyTree, sellTree, buyTree.tree, sellTree.tree
    {
      && buyTree != sellTree
      && Counted(history, buys, sells, rows, previousLocal, regressions)
      && (finalized ==> SideIndex(buys, buyExact, buyTree, false) && SideIndex(sells, sellExact, sellTree, true))
      && (!finalized ==> Loaded())
    }

    constructor ()
      ensures Valid() && history == [] && !finalized
      ensures fresh(buyTree) && fresh(sellTree)
    {
      buys, sells, buyExact, sellExact := [], [], map[], map[];
      rows, previousLocal, regressions, finalized := 0, 0, 0, false;
      history := [];
      buyTree := new ExtremeTree();
      sellTree := new ExtremeTree();
    }

    method AddTrade(trade: TardisTrade) returns (s: Status)
      requires Valid()
      modifies this
      ensures Valid() && finalized == old(finalized)
      ensures s == if old(finalized) then LogicError
                   else if trade.side == Unknown || trade.price <= 0 || trade.qty <= 0 then InvalidArgument
                   else Ready
      ensures history == if s == Ready then old(history) + [trade] else old(history)
    {
      if finalized {
        return LogicError;
      }
      if trade.side == Unknown {
        return InvalidArgument;
      }
      if trade.price <= 0 || trade.qty <= 0 {
        return InvalidArgument;
      }
      LoadTrade(trade);
      s := Ready;
    }

    /** While loading, the columns hold exactly the rows accepted so far. */
    ghost predicate Loaded()
      reads `history, `buys, `sells, `buyExact, `sellExact, `rows, `previousLocal, `regressions
    {
      Counted(history, buys, sells, rows, previousLocal, regressions) && Loading(buyExact, buys) && Loading(sellExact, sells)
    }

    method LoadTrade(trade: TardisTrade)
      requires Loaded() && trade.side != Unknown && trade.price > 0 && trade.qty > 0
      modifies `history, `buys, `sells, `buyExact, `sellExact, `rows, `previousLocal, `regressions
      ensures Loaded() && history == old(history) + [trade]
    {
      var t := Trade(trade.exchangeTime, trade.localTime, rows, trade.price, trade.qty);
      CountedPush(history, buys, sells, rows, previousLocal, regressions, trade, t);
      regressions := regressions + if rows != 0 && trade.localTime < previousLocal then 1 else 0;
      previousLocal := trade.localTime;
      rows := rows + 1;
      PushPrint(trade.side == Buy, t);
      history := history + [trade];
    }

    method PushPrint(buy: bool, t: Trade)
      requires Loading(buyExact, buys) && Loading(sellExact, sells)
      modifies `buys, `sells, `buyExact, `sellExact
      ensures Loading(buyExact, buys) && Loading(sellExact, sells)
      ensures buys == if buy then old(buys) + [t] else old(buys)
      ensures sells == if buy then old(sells) else old(sells) + [t]
    {
      if buy {
        AddToLevelKeeps(buyExact, buys, t);
        buys, buyExact := buys + [t], AddToLevel(buyExact, t);
      } else {
        AddToLevelKeeps(sellExact, sells, t);
        sells, sellExact := sells + [t], AddToLevel(sellExact, t);
      }
    }

    /** After an overflow the level maps are half built and the index is unusable, as in the source. */
    method Finalize() returns (s: Status)
      requires Valid()
      modifies this, buyTree, sellTree
      ensures s == if old(finalized) then Ready
                   else if Regressions(history, |history|) != 0 then InvalidArgument
                   else if !VolumesFit(buys) || !VolumesFit(sells) then Overflow else Ready
      ensures history == old(history) && buys == old(buys) && sells == old(sells)
      ensures s != Overflow ==> Valid()
      ensures finalized == (old(finalized) || s == Ready)
    {
      if finalized {
        return Ready;
      }
      if regressions != 0 {
        return InvalidArgument;
      }
      PrintsOrdered(history, Buy);
      PrintsOrdered(history, Sell);
      var ok;
      ok, buyExact := FillPrefixes(buyExact, buys);
      if !ok {
        return Overflow;
      }
      ok, sellExact := FillPrefixes(sellExact, sells);
      if !ok {
        return Overflow;
      }
      buyTree.Build(Prices(buys), false);
      sellTree.Build(Prices(sells), true);
      finalized := true;
      s := Ready;
    }

    /** The main result: an evaluation equals the trade-by-trade walk over everything ever added, and every
        field says what the prints of the opposite aggressor make of it. */
    method Evaluate(side: QuoteSide, quote: int, order: int, queue: int, placement: nat, end: nat)
      returns (r: Evaluation)
      requires Valid() && IsInt64(quote)
      ensures var q := Query(side == Bid, quote, order, queue, placement, end);
              r == if !finalized then Failure(LogicError)
                   else if !q.Valid() then Failure(InvalidArgument)
                   else Success(Report(HistoryRun(history, if side == Bid then Sell else Buy, q, |history|), q))
      ensures r.Success? ==> Answers(r.value, PrintsOf(history, if side == Bid then Sell else Buy, |history|),
                                     Query(side == Bid, quote, order, queue, placement, end))
    {
      if !finalized {
        return Failure(LogicError);
      }
      var q := Query(side == Bid, quote, order, queue, placement, end);
      if side == Bid {
        HistoryRunIsRun(history, Sell, q, |history|);
        r := EvaluateSide(sells, sellExact, sellTree, q);
      } else {
        HistoryRunIsRun(history, Buy, q, |history|);
        r := EvaluateSide(buys, buyExact, buyTree, q);
      }
    }
  }
}
