/** Taking liquidity from the visible book (pyresearch/execution/engine.py:97-153). Prices are whole
    ticks and quantities whole steps, so the source's float allowances are not needed. */
module BookWalk {

  datatype Level = Level(price: int, qty: int)

  /** quantity, paid or received in all, the touch, levels used, and everything on offer. */
  datatype Fill = Fill(quantity: int, notional: int, touch: int, touchQty: int, consumed: nat, visible: int)

  datatype Outcome = Filled(fill: Fill) | NoFill | Unordered

  predicate Usable(l: Level) { l.price > 0 && l.qty > 0 }

  /** Levels that are present and positive, in book order. */
  function Present(levels: seq<Level>, n: nat): (r: seq<Level>)
    requires n <= |levels|
    ensures |r| <= n && forall i | 0 <= i < |r| :: Usable(r[i])
  {
    if n == 0 then [] else Present(levels, n - 1) + if Usable(levels[n - 1]) then [levels[n - 1]] else []
  }

  /** How many of the first n levels are. */
  ghost function UsableBefore(levels: seq<Level>, n: nat): nat
    requires n <= |levels|
  {
    if n == 0 then 0 else UsableBefore(levels, n - 1) + if levels[n - 1].price > 0 && levels[n - 1].qty > 0 then 1 else 0
  }

  /** Each keeps its place among them, and nothing else is there. */
  lemma {:induction false} PresentKeepsOrder(levels: seq<Level>, n: nat, i: nat)
    requires i < n <= |levels|
    ensures |Present(levels, n)| == UsableBefore(levels, n)
    ensures levels[i].price > 0 && levels[i].qty > 0 ==>
              UsableBefore(levels, i) < UsableBefore(levels, n) && Present(levels, n)[UsableBefore(levels, i)] == levels[i]
  {
    if i < n - 1 {
      PresentKeepsOrder(levels, n - 1, i);
    } else if n > 1 {
      PresentKeepsOrder(levels, n - 1, 0);
    }
  }

  function Volume(levels: seq<Level>, n: nat): (v: int)
    requires n <= |levels|
  {
    if n == 0 then 0 else Volume(levels, n - 1) + levels[n - 1].qty
  }

  /** A buy meets ascending prices, a sell descending ones. */
  ghost predicate Ordered(levels: seq<Level>, buy: bool) {
    forall i, j | 0 <= i < j < |levels| :: if buy then levels[i].price <= levels[j].price else levels[i].price >= levels[j].price
  }

  /** How much the walk takes at level i: what is still wanted once everything before it is gone. */
  ghost function Take(levels: seq<Level>, quantity: int, i: nat): int
    requires i < |levels|
  {
    var wanted := quantity - Volume(levels, i);
    if wanted <= 0 then 0 else if wanted < levels[i].qty then wanted else levels[i].qty
  }

  /** Any way of taking from the levels. */
  ghost predicate Feasible(levels: seq<Level>, taken: seq<int>) {
    |taken| == |levels| && forall i | 0 <= i < |levels| :: 0 <= taken[i] <= levels[i].qty
  }

  ghost function Total(taken: seq<int>, n: nat): int
    requires n <= |taken|
  {
    if n == 0 then 0 else Total(taken, n - 1) + taken[n - 1]
  }

  ghost function Cost(levels: seq<Level>, taken: seq<int>, n: nat): int
    requires n <= |taken| == |levels|
  {
    if n == 0 then 0 else Cost(levels, taken, n - 1) + taken[n - 1] * levels[n - 1].price
  }

  ghost function Walked(levels: seq<Level>, quantity: int): (taken: seq<int>)
    ensures |taken| == |levels| && forall i | 0 <= i < |levels| :: taken[i] == Take(levels, quantity, i)
  {
    seq(|levels|, i requires 0 <= i < |levels| => Take(levels, quantity, i))
  }

  lemma {:induction false} VolumeGrows(levels: seq<Level>, i: nat, j: nat)
    requires i <= j <= |levels| && forall k | 0 <= k < |levels| :: levels[k].qty > 0
    ensures Volume(levels, i) <= Volume(levels, j) && (i < j ==> Volume(levels, i) < Volume(levels, j))
    decreases j
  {
    if i < j {
      VolumeGrows(levels, i, j - 1);
    }
  }

  lemma {:induction false} WalkedTotal(levels: seq<Level>, quantity: int, n: nat)
    requires n <= |levels| && quantity >= 0 && forall k | 0 <= k < |levels| :: levels[k].qty > 0
    ensures Total(Walked(levels, quantity), n) == if quantity <= Volume(levels, n) then quantity else Volume(levels, n)
  {
    if n > 0 {
      WalkedTotal(levels, quantity, n - 1);
    }
  }

  lemma Product(a: int, b: int)
    requires (a >= 0 && b >= 0) || (a <= 0 && b <= 0)
    ensures a * b >= 0
  {
  }

  /** What moving quantity between levels costs, measured against a fixed price. */
  ghost function Excess(levels: seq<Level>, other: seq<int>, walked: seq<int>, price: int, n: nat): int
    requires n <= |levels| == |other| == |walked|
  {
    if n == 0 then 0 else Excess(levels, other, walked, price, n - 1) + (other[n - 1] - walked[n - 1]) * (levels[n - 1].price - price)
  }

  lemma {:induction false} ExcessIsDifference(levels: seq<Level>, other: seq<int>, walked: seq<int>, price: int, n: nat)
    requires n <= |levels| == |other| == |walked|
    ensures Excess(levels, other, walked, price, n)
         == Cost(levels, other, n) - Cost(levels, walked, n) - price * (Total(other, n) - Total(walked, n))
  {
    if n > 0 {
      ExcessIsDifference(levels, other, walked, price, n - 1);
      OneLevel(other[n - 1], walked[n - 1], levels[n - 1].price, price, Total(other, n - 1) - Total(walked, n - 1));
    }
  }

  /** Between two ways of taking the same quantity only the cost differs. */
  lemma SameTotals(levels: seq<Level>, other: seq<int>, walked: seq<int>, price: int, quantity: int)
    requires |levels| == |other| == |walked| && Total(other, |levels|) == quantity == Total(walked, |levels|)
    ensures Excess(levels, other, walked, price, |levels|) == Cost(levels, other, |levels|) - Cost(levels, walked, |levels|)
  {
    var difference := Total(other, |levels|) - Total(walked, |levels|);
    assert price * difference == 0 by { assert difference == 0; }
    ExcessIsDifference(levels, other, walked, price, |levels|);
  }

  lemma AgainstNothing(levels: seq<Level>, taken: seq<int>, none: seq<int>, price: int, quantity: int)
    requires |levels| == |taken| == |none| && Total(taken, |levels|) == quantity && forall i | 0 <= i < |none| :: none[i] == 0
    ensures Excess(levels, taken, none, price, |levels|) == Cost(levels, taken, |levels|) - price * quantity
  {
    NothingTaken(levels, none, |levels|);
    var difference := Total(taken, |levels|) - Total(none, |levels|);
    assert price * difference == price * quantity by { assert difference == quantity; }
    ExcessIsDifference(levels, taken, none, price, |levels|);
  }

  lemma OneLevel(other: int, walked: int, price: int, last: int, before: int)
    ensures (other - walked) * (price - last)
         == other * price - walked * price - (last * (before + other - walked) - last * before)
  {
  }

  /** Before the last level touched the walk takes all there is, after it nothing. */
  lemma LevelSign(levels: seq<Level>, quantity: int, other: seq<int>, buy: bool, last: nat, i: nat)
    requires last < |levels| && i < |levels| && Ordered(levels, buy) && Feasible(levels, other)
    requires forall k | 0 <= k < |levels| :: levels[k].qty > 0
    requires Volume(levels, last) < quantity <= Volume(levels, last + 1)
    ensures var term := (other[i] - Take(levels, quantity, i)) * (levels[i].price - levels[last].price);
            if buy then term >= 0 else term <= 0
  {
    var moved, gap := other[i] - Take(levels, quantity, i), levels[i].price - levels[last].price;
    if i < last {
      VolumeGrows(levels, i + 1, last);
      Product(moved, if buy then gap else -gap);
    } else if i > last {
      VolumeGrows(levels, last + 1, i);
      Product(moved, if buy then gap else -gap);
    }
    Negated(moved, gap);
  }

  lemma Negated(a: int, b: int)
    ensures a * -b == -(a * b)
  {
  }

  /** Against the price of the last level touched, moving any quantity elsewhere cannot help. */
  lemma {:induction false} CannotHelp(levels: seq<Level>, quantity: int, other: seq<int>, buy: bool, last: nat, n: nat)
    requires last < |levels| && n <= |levels| && Ordered(levels, buy) && Feasible(levels, other)
    requires forall k | 0 <= k < |levels| :: levels[k].qty > 0
    requires Volume(levels, last) < quantity <= Volume(levels, last + 1)
    ensures var e := Excess(levels, other, Walked(levels, quantity), levels[last].price, n); if buy then e >= 0 else e <= 0
  {
    if n > 0 {
      CannotHelp(levels, quantity, other, buy, last, n - 1);
      LevelSign(levels, quantity, other, buy, last, n - 1);
    }
  }

  /** The walk fills the order within what is visible. */
  lemma WalkFills(levels: seq<Level>, quantity: int)
    requires 0 < quantity <= Volume(levels, |levels|) && forall k | 0 <= k < |levels| :: levels[k].qty > 0
    ensures Feasible(levels, Walked(levels, quantity)) && Total(Walked(levels, quantity), |levels|) == quantity
  {
    WalkedTotal(levels, quantity, |levels|);
  }

  /** The walk is optimal: no other way of filling the order from the visible levels buys it cheaper or
      sells it dearer. */
  lemma WalkIsOptimal(levels: seq<Level>, quantity: int, other: seq<int>, buy: bool, last: nat)
    requires Ordered(levels, buy) && Feasible(levels, other) && Total(other, |levels|) == quantity > 0
    requires forall k | 0 <= k < |levels| :: levels[k].qty > 0
    requires last < |levels| && Volume(levels, last) < quantity <= Volume(levels, last + 1)
    ensures var walked := Walked(levels, quantity);
            if buy then Cost(levels, walked, |levels|) <= Cost(levels, other, |levels|)
            else Cost(levels, walked, |levels|) >= Cost(levels, other, |levels|)
  {
    VolumeGrows(levels, last + 1, |levels|);
    WalkFills(levels, quantity);
    CannotHelp(levels, quantity, other, buy, last, |levels|);
    SameTotals(levels, other, Walked(levels, quantity), levels[last].price, quantity);
  }

  lemma {:induction false} NothingTaken(levels: seq<Level>, none: seq<int>, n: nat)
    requires n <= |levels| == |none| && forall i | 0 <= i < |none| :: none[i] == 0
    ensures Cost(levels, none, n) == 0 && Total(none, n) == 0
  {
    if n > 0 {
      NothingTaken(levels, none, n - 1);
    }
  }

  lemma {:induction false} WorseThanTouch(levels: seq<Level>, quantity: int, none: seq<int>, buy: bool, n: nat)
    requires 0 < |levels| == |none| && n <= |levels| && Ordered(levels, buy) && forall i | 0 <= i < |none| :: none[i] == 0
    requires forall k | 0 <= k < |levels| :: levels[k].qty > 0
    ensures var e := Excess(levels, Walked(levels, quantity), none, levels[0].price, n); if buy then e >= 0 else e <= 0
  {
    if n > 0 {
      WorseThanTouch(levels, quantity, none, buy, n - 1);
      var taken, gap := Take(levels, quantity, n - 1), levels[n - 1].price - levels[0].price;
      Product(taken, if buy then gap else -gap);
      Negated(taken, gap);
    }
  }

  /** Against the touch the walk can only do worse: slippage is never negative. */
  lemma NeverBeatsTheTouch(levels: seq<Level>, quantity: int, buy: bool)
    requires 0 < |levels| && Ordered(levels, buy) && 0 < quantity <= Volume(levels, |levels|)
    requires forall k | 0 <= k < |levels| :: levels[k].qty > 0
    ensures var cost := Cost(levels, Walked(levels, quantity), |levels|);
            if buy then cost >= levels[0].price * quantity else cost <= levels[0].price * quantity
  {
    var none := seq(|levels|, _ => 0);
    WorseThanTouch(levels, quantity, none, buy, |levels|);
    WalkFills(levels, quantity);
    AgainstNothing(levels, Walked(levels, quantity), none, levels[0].price, quantity);
  }

  /** The price filter, then the order check, the depth check and the walk itself. */
  method WalkVisibleBook(book: seq<Level>, quantity: int, buy: bool, tick: int) returns (r: Outcome)
    ensures var levels := Present(book, |book|);
            && (r.Unordered? <==> quantity > 0 && tick > 0 && levels != [] && !Ordered(levels, buy))
            && (r.Filled? <==> quantity > 0 && tick > 0 && levels != [] && Ordered(levels, buy) && Volume(levels, |levels|) >= quantity)
    ensures r.Filled? ==>
              var levels, f := Present(book, |book|), r.fill;
              && Ordered(levels, buy) && f.quantity == quantity > 0 && f.visible == Volume(levels, |levels|) >= quantity
              && f.touch == levels[0].price && f.touchQty == levels[0].qty
              && f.notional == Cost(levels, Walked(levels, quantity), |levels|)
              && 0 < f.consumed <= |levels| && Volume(levels, f.consumed - 1) < quantity <= Volume(levels, f.consumed)
  {
    if quantity <= 0 || tick <= 0 {
      return NoFill;
    }
    var levels := Present(book, |book|);
    if levels == [] {
      return NoFill;
    }
    var sorted := CheckOrder(levels, buy);
    if !sorted {
      return Unordered;
    }
    var visible := Volume(levels, |levels|);
    if visible < quantity {
      return NoFill;
    }
    var notional, consumed := Walk(levels, quantity);
    return Filled(Fill(quantity, notional, levels[0].price, levels[0].qty, consumed, visible));
  }

  method CheckOrder(levels: seq<Level>, buy: bool) returns (sorted: bool)
    ensures sorted <==> Ordered(levels, buy)
  {
    var i := 1;
    while i < |levels|
      invariant 1 <= i && (|levels| > 0 ==> i <= |levels|)
      invariant forall a, b | 0 <= a < b < i && b < |levels| :: if buy then levels[a].price <= levels[b].price else levels[a].price >= levels[b].price
    {
      if if buy then levels[i].price < levels[i - 1].price else levels[i].price > levels[i - 1].price {
        return false;
      }
      i := i + 1;
    }
    return true;
  }

  /** Take from each level in turn until nothing is wanted any more. */
  method Walk(levels: seq<Level>, quantity: int) returns (notional: int, consumed: nat)
    requires 0 < quantity <= Volume(levels, |levels|) && forall k | 0 <= k < |levels| :: levels[k].qty > 0
    ensures notional == Cost(levels, Walked(levels, quantity), |levels|)
    ensures 0 < consumed <= |levels| && Volume(levels, consumed - 1) < quantity <= Volume(levels, consumed)
  {
    var remaining := quantity;
    notional, consumed := 0, 0;
    while consumed < |levels| && remaining > 0
      invariant consumed <= |levels| && notional == Cost(levels, Walked(levels, quantity), consumed)
      invariant remaining == if quantity <= Volume(levels, consumed) then 0 else quantity - Volume(levels, consumed)
      invariant consumed > 0 ==> Volume(levels, consumed - 1) < quantity
    {
      var level := levels[consumed];
      var taken := if remaining < level.qty then remaining else level.qty;
      notional := notional + taken * level.price;
      remaining := remaining - taken;
      consumed := consumed + 1;
    }
    RestIsUntouched(levels, quantity, consumed, |levels|);
  }

  lemma {:induction false} RestIsUntouched(levels: seq<Level>, quantity: int, k: nat, n: nat)
    requires k <= n <= |levels| && quantity <= Volume(levels, k) && forall i | 0 <= i < |levels| :: levels[i].qty > 0
    ensures Cost(levels, Walked(levels, quantity), n) == Cost(levels, Walked(levels, quantity), k)
    decreases n
  {
    if n > k {
      RestIsUntouched(levels, quantity, k, n - 1);
      VolumeGrows(levels, k, n - 1);
    }
  }
}
