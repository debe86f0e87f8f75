/** The trades of a replay as the trade index takes them, and the trade-by-trade walk over them
    (cpp/research/passive_queue.cpp:128-157, 185-343). */
module ReplayTrades {
  import opened FillModel
  import PassiveQueue
  import opened PassiveIndex
  import opened FillAgreement
  import opened Replays

  /** The trades of the first n records as rows of a trade file; exchange stamps are not part of a
      record here. */
  ghost function Trades(rs: seq<Record>, n: nat): seq<PassiveQueue.TardisTrade>
    requires n <= |rs|
  {
    if n == 0 then []
    else if rs[n - 1].event.Trade? then Trades(rs, n - 1) + [TradeOf(rs[n - 1])]
    else Trades(rs, n - 1)
  }

  function TradeOf(r: Record): PassiveQueue.TardisTrade
    requires r.event.Trade?
  {
    PassiveQueue.TardisTrade(0, r.local, if r.event.trade.aggressiveBuy then PassiveQueue.Buy else PassiveQueue.Sell,
                             r.event.trade.price, r.event.trade.qty)
  }

  /** The trade-by-trade walk over the first n records. */
  ghost function Walked(rs: seq<Record>, q: Query, n: nat): Progress
    requires n <= |rs|
  {
    HistoryRun(Trades(rs, n), Opposite(q.findLess), q, |Trades(rs, n)|)
  }

  function RecordTrade(r: Record, ordinal: nat): Trade
    requires r.event.Trade?
  {
    FillModel.Trade.Trade(0, r.local, ordinal, r.event.trade.price, r.event.trade.qty)
  }

  lemma WalkedStep(rs: seq<Record>, q: Query, n: nat)
    requires 0 < n <= |rs|
    ensures Walked(rs, q, n) ==
            if rs[n - 1].event.Trade? && rs[n - 1].event.trade.aggressiveBuy != q.findLess
            then FillModel.Step(Walked(rs, q, n - 1), RecordTrade(rs[n - 1], |Trades(rs, n - 1)|), q)
            else Walked(rs, q, n - 1)
  {
    if rs[n - 1].event.Trade? {
      var h := Trades(rs, n - 1);
      HistoryPrefix(h, TradeOf(rs[n - 1]), Opposite(q.findLess), q, |h|);
      assert Trades(rs, n) == h + [TradeOf(rs[n - 1])];
    }
  }

  /** Trades outside the window do not move the walk. */
  lemma {:induction false} OutsideKeeps(rs: seq<Record>, q: Query, m: nat, n: nat)
    requires m <= n <= |rs| && forall j | m <= j < n && rs[j].event.Trade? :: !(q.placement < rs[j].local < q.end)
    ensures Walked(rs, q, n) == Walked(rs, q, m)
    decreases n - m
  {
    if m < n {
      OutsideKeeps(rs, q, m, n - 1);
      WalkedStep(rs, q, n);
    }
  }
}
