/** Level episodes and forward labels (cpp/research/level_lifecycle.cpp:109-228, 315-340, 370-520): what one
    displayed best level went through, and what happened to the price of each sampled level. */
module LevelEpisodes {
  import opened Wrappers
  import opened OrderBooks

  datatype Print = Print(ns: nat, price: int, qty: int, aggressiveBuy: bool)

  datatype Episode = Episode(
    active: bool, id: nat, segment: nat, price: int, startNs: nat, initial: int, current: int, max: int, min: int,
    add: int, remove: int, explained: int, unexplained: int, atQuote: int, through: int, replenish: int, pool: int,
    addEvents: nat, removeEvents: nat, replenishEvents: nat, printsAt: nat, printsThrough: nat, preEvent: int)

  /** start_episode */
  function Started(id: nat, segment: nat, price: int, qty: int, ns: nat): Episode {
    Episode(true, id, segment, price, ns, qty, qty, qty, qty, 0, 0, 0, 0, 0, 0, 0, 0, 0, 0, 0, 0, 0, -1)
  }

  /** The books of a level balance: every lot it gained or lost is accounted for, and no printed lot
      explains two reductions. */
  ghost predicate Balanced(e: Episode) {
    && e.current == e.initial + e.add - e.remove
    && e.remove == e.explained + e.unexplained && e.explained >= 0 && e.unexplained >= 0
    && e.pool == e.atQuote - e.explained && e.pool >= 0
    && e.min <= e.current <= e.max && e.min <= e.initial <= e.max
    && 0 <= e.replenish <= e.add
    && (e.add == 0 <==> e.addEvents == 0) && (e.remove == 0 <==> e.removeEvents == 0)
    && (e.replenish == 0 <==> e.replenishEvents == 0) && (e.replenish > 0 ==> e.removeEvents > 0)
    && e.replenishEvents <= e.addEvents
  }

  /** apply_level_delta: prints already seen at the level explain a reduction first. */
  function ApplyDelta(e: Episode, delta: int): Episode {
    var current := e.current + delta;
    var moved := e.(current := current, max := if current > e.max then current else e.max, min := if current < e.min then current else e.min);
    if delta == 0 then e
    else if delta > 0 then
      var grown := moved.(add := e.add + delta, addEvents := e.addEvents + 1);
      if e.removeEvents == 0 then grown
      else grown.(replenish := e.replenish + delta, replenishEvents := e.replenishEvents + 1)
    else
      var explained := if e.pool < -delta then e.pool else -delta;
      moved.(remove := e.remove - delta, removeEvents := e.removeEvents + 1, pool := e.pool - explained,
             explained := e.explained + explained, unexplained := e.unexplained + (-delta - explained))
  }

  lemma DeltaKeepsBalance(e: Episode, delta: int)
    requires Balanced(e)
    ensures var d := ApplyDelta(e, delta); Balanced(d) && d.current == e.current + delta && d.price == e.price && d.active == e.active
    ensures var d := ApplyDelta(e, delta);
            && (d.explained - e.explained == if delta >= 0 then 0 else if e.pool < -delta then e.pool else -delta)
            && (d.unexplained > e.unexplained ==> d.pool == 0)
  {
  }

  /** A print at the level's price feeds its pool, one beyond it is recorded, and one short of it is not its. */
  function ApplyPrint(e: Episode, bid: bool, t: Print): Episode {
    if !e.active then e
    else if t.price == e.price then e.(atQuote := e.atQuote + t.qty, pool := e.pool + t.qty, printsAt := e.printsAt + 1)
    else if Ahead(bid, e.price, t.price) then e.(through := e.through + t.qty, printsThrough := e.printsThrough + 1)
    else e
  }

  lemma PrintKeepsBalance(e: Episode, bid: bool, t: Print)
    requires Balanced(e) && t.qty >= 0
    ensures var p := ApplyPrint(e, bid, t);
            Balanced(p) && p.current == e.current && p.price == e.price && p.active == e.active && p.preEvent == e.preEvent
  {
  }

  /** The episode is the level the book shows best, with the quantity it shows there. */
  predicate Mirrors(e: Episode, s: Side) {
    if s.Empty? then !e.active else e.active && e.price == s.price && e.current == s.qty
  }

  datatype Reason = SteppedAway | Improved | SideEmpty | SegmentEnd | Resynchronized | EndOfInput
  datatype Ended = Ended(episode: Episode, endNs: nat, reason: Reason)

  /** The displayed change is charged to the episode that was active when the event arrived. */
  function Charged(e: Episode, s: Side): Episode {
    if !e.active || e.preEvent < 0 then e.(preEvent := -1)
    else ApplyDelta(e, QuantityAt(s, e.price) - e.preEvent).(preEvent := -1)
  }

  lemma ChargeKeepsBalance(e: Episode, s: Side)
    requires e.active ==> Balanced(e)
    ensures var c := Charged(e, s); c.active == e.active && c.price == e.price && (c.active ==> Balanced(c))
    ensures Charged(e, s).preEvent == -1 && (!e.active || e.preEvent < 0 ==> Charged(e, s) == e.(preEvent := -1))
  {
    if e.active && e.preEvent >= 0 {
      DeltaKeepsBalance(e, QuantityAt(s, e.price) - e.preEvent);
    }
  }

  /** What became of the level after the event: still best, or over. */
  function Over(e: Episode, bid: bool, s: Side): (r: Option<Reason>)
  {
    if !e.active then None
    else if s.Empty? then Some(SideEmpty)
    else if e.price == s.price then None
    else if Ahead(bid, e.price, s.price) then Some(SteppedAway)
    else Some(Improved)
  }

  /** The side's episode once the event is settled: over, still the same one, or a new one. */
  function Settled(e: Episode, s: Side, id: nat, segment: nat, local: nat): Episode {
    if s.Empty? then e.(active := false)
    else if e.active && e.price == s.price then e
    else Started(id, segment, s.price, s.qty, local)
  }

  function EndOf(e: Episode, bid: bool, s: Side, local: nat): seq<Ended> {
    var over := Over(e, bid, s);
    if over.None? then [] else [Ended(e, local, over.value)]
  }

  function Born(e: Episode, s: Side): nat {
    if s.Level? && !(e.active && e.price == s.price) then 1 else 0
  }

  /** After an event the settled episode mirrors the book again, whichever way the best moved, and what
      ended shows exactly what was left of it. */
  lemma EventMirrors(e: Episode, was: Side, bid: bool, s: Side, id: nat, segment: nat, local: nat)
    requires Mirrors(e, was) && (e.active ==> Balanced(e)) && Ranked(bid, s) && (was.Level? ==> was.qty > 0)
    requires e.preEvent == if e.active then QuantityAt(was, e.price) else -1
    ensures var c := Charged(e, s);
            && Mirrors(Settled(c, s, id, segment, local), s)
            && (e.active ==> Balanced(c) && c.current == QuantityAt(s, e.price))
            && (EndOf(c, bid, s, local) != [] <==> e.active && (s.Empty? || s.price != e.price))
  {
    if e.active {
      DeltaKeepsBalance(e, QuantityAt(s, e.price) - QuantityAt(was, e.price));
    }
  }

  /** A sampled level and what has printed against its price since, per horizon. */
  datatype Pending = Pending(ns: nat, bid: bool, price: int, level: Episode, atQuote: seq<int>, through: seq<int>, crossed: seq<bool>)

  function Sampled(ns: nat, bid: bool, level: Episode, horizons: seq<nat>): Pending {
    Pending(ns, bid, level.price, level, seq(|horizons|, _ => 0), seq(|horizons|, _ => 0), seq(|horizons|, _ => false))
  }

  /** A print counts for a level on the side its aggressor hits, strictly after the sample, up to and
      including the horizon. */
  predicate Counts(p: Pending, t: Print, horizon: nat) {
    t.aggressiveBuy == !p.bid && p.ns < t.ns <= p.ns + horizon
  }

  ghost function AtQuote(prints: seq<Print>, p: Pending, horizon: nat, n: nat): int
    requires n <= |prints|
  {
    if n == 0 then 0
    else AtQuote(prints, p, horizon, n - 1) +
         if Counts(p, prints[n - 1], horizon) && prints[n - 1].price == p.price then prints[n - 1].qty else 0
  }

  ghost function Through(prints: seq<Print>, p: Pending, horizon: nat, n: nat): int
    requires n <= |prints|
  {
    if n == 0 then 0
    else Through(prints, p, horizon, n - 1) +
         if Counts(p, prints[n - 1], horizon) && Ahead(p.bid, p.price, prints[n - 1].price) then prints[n - 1].qty else 0
  }

  ghost predicate CrossedBy(prints: seq<Print>, p: Pending, horizon: nat, n: nat)
    requires n <= |prints|
  {
    exists k {:trigger prints[k]} :: 0 <= k < n && Counts(p, prints[k], horizon) && Ahead(p.bid, p.price, prints[k].price)
  }

  /** A label carries exactly the prints it names. */
  ghost predicate Labelled(p: Pending, prints: seq<Print>, horizons: seq<nat>) {
    && |p.atQuote| == |p.through| == |p.crossed| == |horizons|
    && forall i | 0 <= i < |horizons| ::
         && p.atQuote[i] == AtQuote(prints, p, horizons[i], |prints|)
         && p.through[i] == Through(prints, p, horizons[i], |prints|)
         && (p.crossed[i] <==> CrossedBy(prints, p, horizons[i], |prints|))
  }

  /** One print over one pending level. */
  function Observe(p: Pending, t: Print, horizons: seq<nat>): (r: Pending)
    requires |p.atQuote| == |p.through| == |p.crossed| == |horizons|
  {
    var through := Ahead(p.bid, p.price, t.price);
    if t.aggressiveBuy == p.bid || p.ns >= t.ns || (!through && t.price != p.price) then p
    else if through then
      p.(through := seq(|horizons|, i requires 0 <= i < |horizons| => if t.ns > p.ns + horizons[i] then p.through[i] else p.through[i] + t.qty),
         crossed := seq(|horizons|, i requires 0 <= i < |horizons| => t.ns <= p.ns + horizons[i] || p.crossed[i]))
    else
      p.(atQuote := seq(|horizons|, i requires 0 <= i < |horizons| => if t.ns > p.ns + horizons[i] then p.atQuote[i] else p.atQuote[i] + t.qty))
  }

  lemma {:induction false} PrintsPrefix(prints: seq<Print>, t: Print, p: Pending, q: Pending, horizon: nat, n: nat)
    requires n <= |prints| && p.ns == q.ns && p.bid == q.bid && p.price == q.price
    ensures AtQuote(prints + [t], q, horizon, n) == AtQuote(prints, p, horizon, n)
    ensures Through(prints + [t], q, horizon, n) == Through(prints, p, horizon, n)
  {
    if n > 0 {
      PrintsPrefix(prints, t, p, q, horizon, n - 1);
    }
  }

  lemma CrossedAppended(prints: seq<Print>, t: Print, p: Pending, q: Pending, horizon: nat)
    requires p.ns == q.ns && p.bid == q.bid && p.price == q.price
    ensures CrossedBy(prints + [t], q, horizon, |prints| + 1)
       <==> CrossedBy(prints, p, horizon, |prints|) || (Counts(p, t, horizon) && Ahead(p.bid, p.price, t.price))
  {
    var all := prints + [t];
    if CrossedBy(prints, p, horizon, |prints|) {
      var k :| 0 <= k < |prints| && Counts(p, prints[k], horizon) && Ahead(p.bid, p.price, prints[k].price);
      assert all[k] == prints[k];
    }
    assert all[|prints|] == t;
  }

  /** A pending level's labels stay exact from print to print. */
  lemma {:induction false} ObserveKeepsLabels(p: Pending, prints: seq<Print>, t: Print, horizons: seq<nat>)
    requires Labelled(p, prints, horizons)
    ensures Labelled(Observe(p, t, horizons), prints + [t], horizons)
  {
    var q := Observe(p, t, horizons);
    forall i | 0 <= i < |horizons|
      ensures q.atQuote[i] == AtQuote(prints + [t], q, horizons[i], |prints| + 1)
      ensures q.through[i] == Through(prints + [t], q, horizons[i], |prints| + 1)
      ensures q.crossed[i] <==> CrossedBy(prints + [t], q, horizons[i], |prints| + 1)
    {
      PrintsPrefix(prints, t, p, q, horizons[i], |prints|);
      CrossedAppended(prints, t, p, q, horizons[i]);
    }
  }

  /** Labels add up: those of a longer stretch of prints are those of its parts. */
  lemma {:induction false} LabelsJoin(prints: seq<Print>, more: seq<Print>, p: Pending, horizon: nat)
    ensures AtQuote(prints + more, p, horizon, |prints| + |more|) == AtQuote(prints, p, horizon, |prints|) + AtQuote(more, p, horizon, |more|)
    ensures Through(prints + more, p, horizon, |prints| + |more|) == Through(prints, p, horizon, |prints|) + Through(more, p, horizon, |more|)
    ensures CrossedBy(prints + more, p, horizon, |prints| + |more|)
       <==> CrossedBy(prints, p, horizon, |prints|) || CrossedBy(more, p, horizon, |more|)
  {
    if more == [] {
      assert prints + more == prints;
    } else {
      var front, t := more[..|more| - 1], more[|more| - 1];
      LabelsJoin(prints, front, p, horizon);
      assert prints + more == (prints + front) + [t] && more == front + [t];
      PrintsPrefix(prints + front, t, p, p, horizon, |prints| + |front|);
      PrintsPrefix(front, t, p, p, horizon, |front|);
      CrossedAppended(prints + front, t, p, p, horizon);
      CrossedAppended(front, t, p, p, horizon);
    }
  }

  ghost predicate Late(more: seq<Print>, p: Pending, widest: nat) {
    forall k | 0 <= k < |more| :: more[k].ns >= p.ns + widest
  }

  /** Prints at or after the widest horizon change no label of a narrower one. */
  lemma {:induction false} LatePrintsDoNotCount(more: seq<Print>, p: Pending, horizon: nat, widest: nat, n: nat)
    requires n <= |more| && Late(more, p, widest) && horizon < widest
    ensures AtQuote(more, p, horizon, n) == 0 && Through(more, p, horizon, n) == 0 && !CrossedBy(more, p, horizon, n)
  {
    if n > 0 {
      LatePrintsDoNotCount(more, p, horizon, widest, n - 1);
    }
  }

  /** A print of the last instant of the widest window that hits the level, at its price or through it. */
  predicate LastInstant(t: Print, p: Pending, widest: nat) {
    t.ns == p.ns + widest && t.ns > p.ns && t.aggressiveBuy == !p.bid
  }

  /** The widest horizon itself is different: its row is retired before the prints of the record that
      reaches it, so prints stamped exactly there are in the window but can never be in the label. Each of
      the three labels misses exactly those, and is exact if and only if there are none. */
  lemma {:induction false} WidestHorizonMissesItsLastInstant(more: seq<Print>, p: Pending, widest: nat, n: nat)
    requires n <= |more| && Late(more, p, widest) && forall k | 0 <= k < n :: more[k].qty >= 0
    ensures AtQuote(more, p, widest, n) >= 0 && Through(more, p, widest, n) >= 0
    ensures AtQuote(more, p, widest, n) == 0
       <==> forall k | 0 <= k < n :: LastInstant(more[k], p, widest) && more[k].price == p.price ==> more[k].qty == 0
    ensures Through(more, p, widest, n) == 0
       <==> forall k | 0 <= k < n :: LastInstant(more[k], p, widest) && Ahead(p.bid, p.price, more[k].price) ==> more[k].qty == 0
    ensures CrossedBy(more, p, widest, n)
       <==> exists k {:trigger more[k]} | 0 <= k < n :: LastInstant(more[k], p, widest) && Ahead(p.bid, p.price, more[k].price)
  {
    if n > 0 {
      WidestHorizonMissesItsLastInstant(more, p, widest, n - 1);
    }
  }
}
