/** The ledger of a level, told from the books and the prints of the records over which its price stayed best
    (cpp/research/level_lifecycle.cpp:109-228): what was added and removed, what printed there and beyond, and
    how much of the removals the prints before them explain. */
module LevelLedgers {
  import opened OrderBooks
  import opened LevelEpisodes
  import opened LevelStretches
  import opened Replays

  /** How record j changes the quantity shown at a price: only an applied depth event does. */
  function Change(rs: seq<Record>, j: nat, bid: bool, price: int): int {
    if 0 < j < |rs| && Applies(rs[j])
    then QuantityAt(Best(bid, rs[j].book), price) - QuantityAt(Best(bid, rs[j - 1].book), price) else 0
  }

  function Gain(rs: seq<Record>, j: nat, bid: bool, price: int): int {
    if Change(rs, j, bid, price) > 0 then Change(rs, j, bid, price) else 0
  }

  function Loss(rs: seq<Record>, j: nat, bid: bool, price: int): int {
    if Change(rs, j, bid, price) < 0 then -Change(rs, j, bid, price) else 0
  }

  /** A print of the aggressor that hits the side: at the price, or through it. */
  predicate HitsAt(rs: seq<Record>, j: nat, bid: bool, price: int) {
    j < |rs| && rs[j].event.Trade? && rs[j].event.trade.aggressiveBuy == !bid && rs[j].event.trade.price == price
  }

  predicate HitsThrough(rs: seq<Record>, j: nat, bid: bool, price: int) {
    && j < |rs| && rs[j].event.Trade? && rs[j].event.trade.aggressiveBuy == !bid
    && if bid then rs[j].event.trade.price < price else rs[j].event.trade.price > price
  }

  function LotsAt(rs: seq<Record>, j: nat, bid: bool, price: int): int {
    if HitsAt(rs, j, bid, price) then rs[j].event.trade.qty else 0
  }

  function LotsThrough(rs: seq<Record>, j: nat, bid: bool, price: int): int {
    if HitsThrough(rs, j, bid, price) then rs[j].event.trade.qty else 0
  }

  /** Over the records after record a and before record n: a sum, and how often something happens. */
  ghost function Sum(f: nat -> int, a: nat, n: nat): int {
    if n <= a + 1 then 0 else Sum(f, a, n - 1) + f(n - 1)
  }

  ghost function Times(f: nat -> bool, a: nat, n: nat): nat {
    if n <= a + 1 then 0 else Times(f, a, n - 1) + if f(n - 1) then 1 else 0
  }

  ghost function Added(rs: seq<Record>, a: nat, n: nat, bid: bool, price: int): int {
    Sum((j: nat) => Gain(rs, j, bid, price), a, n)
  }

  ghost function Removed(rs: seq<Record>, a: nat, n: nat, bid: bool, price: int): int {
    Sum((j: nat) => Loss(rs, j, bid, price), a, n)
  }

  ghost function Losses(rs: seq<Record>, a: nat, n: nat, bid: bool, price: int): nat {
    Times((j: nat) => Loss(rs, j, bid, price) > 0, a, n)
  }

  ghost function Printed(rs: seq<Record>, a: nat, n: nat, bid: bool, price: int): int {
    Sum((j: nat) => LotsAt(rs, j, bid, price), a, n)
  }

  /** An addition after a removal replenishes. */
  ghost function Refill(rs: seq<Record>, a: nat, j: nat, bid: bool, price: int): int {
    if Losses(rs, a, j, bid, price) > 0 then Gain(rs, j, bid, price) else 0
  }

  /** The most by which the lots removed have ever exceeded those printed before. */
  ghost function Shortfall(rs: seq<Record>, a: nat, n: nat, bid: bool, price: int): int {
    if n <= a + 1 then 0
    else
      var before, now := Shortfall(rs, a, n - 1, bid, price), Removed(rs, a, n, bid, price) - Printed(rs, a, n, bid, price);
      if now > before then now else before
  }

  /** The largest and the smallest quantity shown. */
  ghost function Highest(rs: seq<Record>, a: nat, n: nat, bid: bool, price: int): int
    requires a < n <= |rs|
    decreases n
  {
    var now := QuantityAt(Best(bid, rs[n - 1].book), price);
    if n == a + 1 then now
    else
      var before := Highest(rs, a, n - 1, bid, price);
      if Applies(rs[n - 1]) && now > before then now else before
  }

  ghost function Lowest(rs: seq<Record>, a: nat, n: nat, bid: bool, price: int): int
    requires a < n <= |rs|
    decreases n
  {
    var now := QuantityAt(Best(bid, rs[n - 1].book), price);
    if n == a + 1 then now
    else
      var before := Lowest(rs, a, n - 1, bid, price);
      if Applies(rs[n - 1]) && now < before then now else before
  }

  /** What the displayed quantity did, */
  ghost predicate Shows(e: Episode, rs: seq<Record>, a: nat, n: nat, bid: bool)
    requires a < n <= |rs|
  {
    && (Open(rs, n) ==> e.current == QuantityAt(Best(bid, rs[n - 1].book), e.price))
    && e.add == Added(rs, a, n, bid, e.price) && e.remove == Removed(rs, a, n, bid, e.price)
    && e.addEvents == Times((j: nat) => Gain(rs, j, bid, e.price) > 0, a, n) && e.removeEvents == Losses(rs, a, n, bid, e.price)
    && e.max == Highest(rs, a, n, bid, e.price) && e.min == Lowest(rs, a, n, bid, e.price) && e.min <= e.current <= e.max
    && e.current == e.initial + Added(rs, a, n, bid, e.price) - Removed(rs, a, n, bid, e.price)
  }

  ghost predicate Refills(e: Episode, rs: seq<Record>, a: nat, n: nat, bid: bool) {
    && e.replenish == Sum((j: nat) => Refill(rs, a, j, bid, e.price), a, n)
    && e.replenishEvents == Times((j: nat) => Refill(rs, a, j, bid, e.price) > 0, a, n)
  }

  /** what printed against it, */
  ghost predicate Prints(e: Episode, rs: seq<Record>, a: nat, n: nat, bid: bool) {
    && e.atQuote == Printed(rs, a, n, bid, e.price) && e.through == Sum((j: nat) => LotsThrough(rs, j, bid, e.price), a, n)
    && e.printsAt == Times((j: nat) => HitsAt(rs, j, bid, e.price), a, n)
    && e.printsThrough == Times((j: nat) => HitsThrough(rs, j, bid, e.price), a, n)
  }

  /** and how the two meet: a removal is explained by lots printed before it that explain nothing else, as far
      as there are any. So what stays unexplained is the most by which removals ever ran ahead of prints. */
  ghost predicate Explains(e: Episode, rs: seq<Record>, a: nat, n: nat, bid: bool) {
    var short := Shortfall(rs, a, n, bid, e.price);
    && e.unexplained == short && e.explained == Removed(rs, a, n, bid, e.price) - short
    && e.pool == Printed(rs, a, n, bid, e.price) - e.explained
  }

  ghost predicate LedgerOf(e: Episode, rs: seq<Record>, a: nat, n: nat, bid: bool)
    requires a < n <= |rs|
  {
    Shows(e, rs, a, n, bid) && Refills(e, rs, a, n, bid) && Prints(e, rs, a, n, bid) && Explains(e, rs, a, n, bid)
  }

  /** Record j finds its segment open and does not start it over. */
  predicate GoesOn(rs: seq<Record>, j: nat)
    requires j < |rs|
  {
    Open(rs, j) && !rs[j].event.Snapshot?
  }

  /** Records after record a that all do. */
  ghost predicate Follow(rs: seq<Record>, a: nat, n: nat) {
    a < n <= |rs| && Open(rs, a + 1) && forall j {:trigger GoesOn(rs, j)} | a < j < n :: GoesOn(rs, j)
  }

  lemma StartLedger(rs: seq<Record>, a: nat, bid: bool)
    requires a < |rs| && Best(bid, rs[a].book).Level?
    ensures var e := StartedAt(rs, a, bid); e.active && e.price == Best(bid, rs[a].book).price && LedgerOf(e, rs, a, a + 1, bid)
  {
  }

  /** What one record adds to each of these. */
  lemma OneRecord(rs: seq<Record>, a: nat, n: nat, bid: bool, price: int)
    requires a < n
    ensures Added(rs, a, n + 1, bid, price) == Added(rs, a, n, bid, price) + Gain(rs, n, bid, price)
    ensures Removed(rs, a, n + 1, bid, price) == Removed(rs, a, n, bid, price) + Loss(rs, n, bid, price)
    ensures Losses(rs, a, n + 1, bid, price) == Losses(rs, a, n, bid, price) + if Loss(rs, n, bid, price) > 0 then 1 else 0
    ensures Printed(rs, a, n + 1, bid, price) == Printed(rs, a, n, bid, price) + LotsAt(rs, n, bid, price)
  {
  }

  /** No way of matching removals to lots printed before them explains more. */
  lemma {:induction false} NothingExplainsMore(x: nat -> int, rs: seq<Record>, a: nat, n: nat, bid: bool, price: int)
    requires a < n && forall j | a < j < n :: x(j) <= Loss(rs, j, bid, price)
    requires forall k {:trigger Sum(x, a, k)} | a < k <= n :: Sum(x, a, k) <= Printed(rs, a, k, bid, price)
    ensures Sum(x, a, n) <= Removed(rs, a, n, bid, price) - Shortfall(rs, a, n, bid, price)
    decreases n
  {
    if n > a + 1 {
      var m := n - 1;
      NothingExplainsMore(x, rs, a, m, bid, price);
      OneRecord(rs, a, m, bid, price);
      assert Sum(x, a, n) == Sum(x, a, m) + x(m);
    }
  }

  lemma {:induction false} ShownIsNonNegative(bid: bool, s: Side, price: int)
    requires Ranked(bid, s)
    ensures QuantityAt(s, price) >= 0
  {
    if s.Level? {
      ShownIsNonNegative(bid, s.rest, price);
    }
  }

  /** An applied event charges the level with the change shown at its price, */
  lemma TouchApplies(e: Episode, rs: seq<Record>, n: nat, bid: bool)
    requires Sound(rs) && 0 < n < |rs| && Open(rs, n) && Applies(rs[n]) && e.active
    ensures var t := Touched(e, rs[n], bid, BookBefore(rs, n));
            t.(preEvent := e.preEvent) == ApplyDelta(e, Change(rs, n, bid, e.price)).(preEvent := e.preEvent)
  {
    OpenShows(rs, n);
    ShownIsNonNegative(bid, Best(bid, rs[n - 1].book), e.price);
  }

  /** a print goes on its ledger, and nothing else does anything. */
  lemma TouchOtherwise(e: Episode, rs: seq<Record>, n: nat, bid: bool)
    requires Sound(rs) && 0 < n < |rs| && Open(rs, n) && !Applies(rs[n]) && !rs[n].event.Snapshot? && e.active
    ensures var t := Touched(e, rs[n], bid, BookBefore(rs, n));
            t.(preEvent := e.preEvent) == if rs[n].event.Trade? && rs[n].event.trade.aggressiveBuy == !bid
                                          then ApplyPrint(e, bid, PrintOf(rs[n])) else e
    ensures Open(rs, n + 1) ==> rs[n].book == rs[n - 1].book
  {
    OpenShows(rs, n);
  }

  lemma AppliesShows(e: Episode, d: Episode, rs: seq<Record>, a: nat, n: nat, bid: bool)
    requires Sound(rs) && a < n < |rs| && Open(rs, n) && Applies(rs[n]) && e.active && LedgerOf(e, rs, a, n, bid)
    requires d == ApplyDelta(e, Change(rs, n, bid, e.price)).(preEvent := d.preEvent)
    ensures d.active && d.price == e.price && Shows(d, rs, a, n + 1, bid) && Refills(d, rs, a, n + 1, bid)
  {
    OneRecord(rs, a, n, bid, e.price);
  }

  lemma AppliesExplains(e: Episode, d: Episode, rs: seq<Record>, a: nat, n: nat, bid: bool)
    requires Sound(rs) && a < n < |rs| && Open(rs, n) && Applies(rs[n]) && e.active && LedgerOf(e, rs, a, n, bid)
    requires d == ApplyDelta(e, Change(rs, n, bid, e.price)).(preEvent := d.preEvent)
    ensures Prints(d, rs, a, n + 1, bid) && Explains(d, rs, a, n + 1, bid)
  {
    OneRecord(rs, a, n, bid, e.price);
  }

  lemma OtherwiseShows(e: Episode, t: Episode, rs: seq<Record>, a: nat, n: nat, bid: bool)
    requires Sound(rs) && a < n < |rs| && Open(rs, n) && !Applies(rs[n]) && !rs[n].event.Snapshot? && e.active && LedgerOf(e, rs, a, n, bid)
    requires Open(rs, n + 1) ==> rs[n].book == rs[n - 1].book
    requires t == (if rs[n].event.Trade? && rs[n].event.trade.aggressiveBuy == !bid
                   then ApplyPrint(e, bid, PrintOf(rs[n])) else e).(preEvent := t.preEvent)
    ensures t.active && t.price == e.price && Shows(t, rs, a, n + 1, bid) && Refills(t, rs, a, n + 1, bid)
  {
    OneRecord(rs, a, n, bid, e.price);
  }

  lemma OtherwiseExplains(e: Episode, t: Episode, rs: seq<Record>, a: nat, n: nat, bid: bool)
    requires Sound(rs) && a < n < |rs| && Open(rs, n) && !Applies(rs[n]) && !rs[n].event.Snapshot? && e.active && LedgerOf(e, rs, a, n, bid)
    requires t == (if rs[n].event.Trade? && rs[n].event.trade.aggressiveBuy == !bid
                   then ApplyPrint(e, bid, PrintOf(rs[n])) else e).(preEvent := t.preEvent)
    ensures Prints(t, rs, a, n + 1, bid) && Explains(t, rs, a, n + 1, bid)
  {
    OneRecord(rs, a, n, bid, e.price);
    assert Readable(rs[n]);
  }

  lemma TouchKeepsLedger(e: Episode, rs: seq<Record>, a: nat, n: nat, bid: bool)
    requires Sound(rs) && a < n < |rs| && GoesOn(rs, n) && e.active && LedgerOf(e, rs, a, n, bid)
    ensures var t := Touched(e, rs[n], bid, BookBefore(rs, n)); t.active && t.price == e.price && LedgerOf(t, rs, a, n + 1, bid)
  {
    var t := Touched(e, rs[n], bid, BookBefore(rs, n));
    if Applies(rs[n]) {
      TouchApplies(e, rs, n, bid);
      AppliesShows(e, t, rs, a, n, bid);
      AppliesExplains(e, t, rs, a, n, bid);
    } else {
      TouchOtherwise(e, rs, n, bid);
      OtherwiseShows(e, t, rs, a, n, bid);
      OtherwiseExplains(e, t, rs, a, n, bid);
    }
  }

  ghost predicate Keeps(e: Episode, rs: seq<Record>, a: nat, n: nat, bid: bool)
    requires a < n <= |rs|
  {
    e.active && Best(bid, rs[a].book).Level? && e.price == Best(bid, rs[a].book).price && LedgerOf(e, rs, a, n, bid)
  }

  lemma LedgerGoesOn(e: Episode, rs: seq<Record>, a: nat, m: nat, n: nat, bid: bool)
    requires Sound(rs) && a < m < n == m + 1 <= |rs| && GoesOn(rs, m) && Keeps(e, rs, a, m, bid)
    ensures Keeps(Touched(e, rs[m], bid, BookBefore(rs, m)), rs, a, n, bid)
  {
    TouchKeepsLedger(e, rs, a, m, bid);
  }

  lemma LedgerStarts(rs: seq<Record>, a: nat, n: nat, bid: bool)
    requires Sound(rs) && n == a + 1 <= |rs| && Open(rs, n)
    ensures Keeps(EpisodeFrom(rs, a, n, bid), rs, a, n, bid)
  {
    OpenShows(rs, n);
    StartLedger(rs, a, bid);
  }

  lemma LedgerSteps(rs: seq<Record>, a: nat, n: nat, bid: bool)
    requires Sound(rs) && a + 1 < n <= |rs| && GoesOn(rs, n - 1) && Keeps(EpisodeFrom(rs, a, n - 1, bid), rs, a, n - 1, bid)
    ensures Keeps(EpisodeFrom(rs, a, n, bid), rs, a, n, bid)
  {
    LedgerGoesOn(EpisodeFrom(rs, a, n - 1, bid), rs, a, n - 1, n, bid);
  }

  /** The ledger after n records. */
  lemma {:induction false} LedgerIs(rs: seq<Record>, a: nat, n: nat, bid: bool)
    requires Sound(rs) && Follow(rs, a, n)
    ensures Keeps(EpisodeFrom(rs, a, n, bid), rs, a, n, bid)
    decreases n
  {
    if n == a + 1 {
      LedgerStarts(rs, a, n, bid);
    } else {
      assert GoesOn(rs, n - 1);
      LedgerIs(rs, a, n - 1, bid);
      LedgerSteps(rs, a, n, bid);
    }
  }

  lemma StretchFollows(rs: seq<Record>, a: nat, b: nat, bid: bool)
    requires Sound(rs) && Stretch(rs, a, b, bid)
    ensures Follow(rs, a, b) && (b < |rs| && GoesOn(rs, b) ==> Follow(rs, a, b + 1))
  {
    forall j | a < j < b ensures GoesOn(rs, j) {
      assert Survives(rs, j, HABITS);
    }
  }

  /** Up to where the records count for the episode of a maximal stretch: the one that ends it does, unless it
      is a snapshot. */
  function Upto(rs: seq<Record>, b: nat): nat
    requires b <= |rs|
  {
    if b < |rs| && !rs[b].event.Snapshot? then b + 1 else b
  }

  /** So the episode that ends with a maximal stretch bears the ledger of its records. */
  lemma StretchLedger(rs: seq<Record>, a: nat, b: nat, bid: bool)
    requires Sound(rs) && Maximal(rs, a, b, bid)
    ensures EndsOn(rs, b, bid).Some? && Keeps(EndsOn(rs, b, bid).value.episode, rs, a, Upto(rs, b), bid)
  {
    EndsWithStretch(rs, a, b, bid);
    StretchFollows(rs, a, b, bid);
    LedgerIs(rs, a, Upto(rs, b), bid);
  }

  /** And so does the current one, which is what a sample shows of its level. */
  lemma CurrentLedger(rs: seq<Record>, n: nat, bid: bool)
    requires Sound(rs) && 0 < n <= |rs| && Open(rs, n)
    ensures Keeps(EpisodeAt(rs, n, bid), rs, BornAt(rs, n, bid), n, bid)
  {
    BornIsStretch(rs, n, bid);
    StretchFollows(rs, BornAt(rs, n, bid), n, bid);
    LedgerIs(rs, BornAt(rs, n, bid), n, bid);
  }
}
