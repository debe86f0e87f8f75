/** The continuous-inventory market maker (pyresearch/obi/continuous_mm.py:64-239): one resting order per
    side, fills delivered from a heap in time order, inventory limits checked at placement only.
    Quantities and prices are exact reals. */
module MarketMaker {
  import opened Wrappers

  datatype Side = Bid | Ask
  datatype Policy = Neutral | ObiAware
  datatype Verdict = Allowed | ByInventory | ByObi

  datatype Spec = Spec(qty: real, soft: real, hard: real, tol: real, threshold: real, makerFee: real, takerFee: real) {
    predicate Sane() { qty > 0.0 && tol >= 0.0 && hard >= 0.0 && soft >= tol }
    /** As far as inventory plus a resting order can reach. */
    function Cap(): real { if hard + tol < soft - tol + qty then hard + tol else soft - tol + qty }
  }

  datatype Status = Full | Partial | Unfilled | Invalid

  /** One scheduled quote with its labelled outcome; None stands for a non-finite number. */
  datatype Row = Row(placement: int, side: Side, quoteQty: real, price: real, expiry: int, obi: Option<real>, status: Status,
                     firstFill: Option<int>, fullFill: Option<int>, filledQty: real, selected: bool)

  /** A whole quote fits under the hard limit, and the soft one is not reached. */
  predicate Room(side: Side, inventory: real, spec: Spec) {
    if side == Bid then inventory + spec.qty <= spec.hard + spec.tol && inventory < spec.soft - spec.tol
    else inventory - spec.qty >= -spec.hard - spec.tol && inventory > -spec.soft + spec.tol
  }

  function QuotePermission(policy: Policy, side: Side, inventory: real, obi: Option<real>, spec: Spec): (v: Verdict)
    ensures v != ByInventory <==> Room(side, inventory, spec)
    ensures v == ByObi <==> && Room(side, inventory, spec) && policy.ObiAware? && obi.Some?
                            && if side == Bid then obi.value <= -spec.threshold && inventory >= -spec.tol
                               else obi.value >= spec.threshold && inventory <= spec.tol
  {
    if side == Bid && (inventory + spec.qty > spec.hard + spec.tol || inventory >= spec.soft - spec.tol) then ByInventory
    else if side == Ask && (inventory - spec.qty < -spec.hard - spec.tol || inventory <= -spec.soft + spec.tol) then ByInventory
    else if policy == Neutral || obi.None? then Allowed
    else if side == Ask && obi.value >= spec.threshold && !Reduces(side, inventory, spec.tol) then ByObi
    else if side == Bid && obi.value <= -spec.threshold && !Reduces(side, inventory, spec.tol) then ByObi
    else Allowed
  }

  predicate Reduces(side: Side, inventory: real, tol: real) {
    if side == Bid then inventory < -tol else inventory > tol
  }

  datatype Fill = Fill(time: int, sequence: nat, side: Side, qty: real, price: real, full: bool) {
    function Signed(): real { if side == Bid then qty else -qty }
    function Notional(): real { qty * price }
    function Cash(): real { if side == Bid then -Notional() else Notional() }
  }

  /** The heap of fills still to come, soonest first, earlier orders first among equals. */
  datatype Queue = Done | Next(head: Fill, rest: Queue)

  predicate Before(a: Fill, b: Fill) {
    a.time < b.time || (a.time == b.time && a.sequence < b.sequence)
  }

  function Push(q: Queue, e: Fill): Queue {
    if q.Done? || Before(e, q.head) then Next(e, q) else Next(q.head, Push(q.rest, e))
  }

  /** The heap in the order it delivers: by time, and orders of one time in the order they were accepted in;
      the orders accepted so far are numbered up to n. */
  ghost predicate InOrder(q: Queue, n: nat) {
    q.Next? ==> && q.head.sequence <= n && InOrder(q.rest, n)
                && (q.rest.Next? ==> || q.head.time < q.rest.head.time
                                     || (q.head.time == q.rest.head.time && q.head.sequence < q.rest.head.sequence))
  }

  /** Quantity still to be filled on one side. */
  ghost function Outstanding(q: Queue, side: Side): real {
    if q.Done? then 0.0 else Outstanding(q.rest, side) + if q.head.side == side then q.head.qty else 0.0
  }

  ghost function Orders(q: Queue, side: Side): nat {
    if q.Done? then 0 else Orders(q.rest, side) + if q.head.side == side then 1 else 0
  }

  ghost function Length(q: Queue): nat {
    if q.Done? then 0 else Length(q.rest) + 1
  }

  /** Signed quantity, and cash, of the fills after a time. */
  ghost function QueueAfter(q: Queue, t: int): real {
    if q.Done? then 0.0 else QueueAfter(q.rest, t) + if q.head.time > t then q.head.Signed() else 0.0
  }

  ghost function QueueNet(q: Queue): real {
    if q.Done? then 0.0 else QueueNet(q.rest) + q.head.Signed()
  }

  ghost function QueueCash(q: Queue): real {
    if q.Done? then 0.0 else QueueCash(q.rest) + q.head.Cash()
  }

  /** Every queued fill of a side arrives before that side's order ends. */
  ghost predicate Within(q: Queue, bidEnd: int, askEnd: int) {
    q.Next? ==> q.head.time <= (if q.head.side == Bid then bidEnd else askEnd) && q.head.qty > 0.0 && Within(q.rest, bidEnd, askEnd)
  }

  ghost predicate AllLater(q: Queue, t: int) {
    q.Next? ==> q.head.time > t && AllLater(q.rest, t)
  }

  /** The orders accepted so far, in order of acceptance. */
  ghost function Net(fs: seq<Fill>, n: nat): real
    requires n <= |fs|
  {
    if n == 0 then 0.0 else Net(fs, n - 1) + fs[n - 1].Signed()
  }

  ghost function NetAfter(fs: seq<Fill>, t: int, n: nat): real
    requires n <= |fs|
  {
    if n == 0 then 0.0 else NetAfter(fs, t, n - 1) + if fs[n - 1].time > t then fs[n - 1].Signed() else 0.0
  }

  ghost function NetUpTo(fs: seq<Fill>, t: int, n: nat): real
    requires n <= |fs|
  {
    if n == 0 then 0.0 else NetUpTo(fs, t, n - 1) + if fs[n - 1].time > t then 0.0 else fs[n - 1].Signed()
  }

  ghost function Cash(fs: seq<Fill>, n: nat): real
    requires n <= |fs|
  {
    if n == 0 then 0.0 else Cash(fs, n - 1) + fs[n - 1].Cash()
  }

  datatype State = State(
    inventory: real, cash: real, turnover: real, fees: real, bought: real, sold: real, fullOrders: nat, partialOrders: nat,
    attempts: nat, maxAbs: real, violations: nat, byInventory: nat, byObi: nat, bySelector: nat, conflicts: nat, invalid: nat,
    bidEnd: int, askEnd: int, pending: Queue, sequence: nat)
  {
    function End(side: Side): int { if side == Bid then bidEnd else askEnd }
  }

  /** Before the first row: flat, nothing resting, nothing pending. */
  ghost predicate Fresh(s: State) {
    && s.inventory == 0.0 == s.cash && s.bought == 0.0 == s.sold && s.turnover == 0.0 == s.fees && s.maxAbs == 0.0
    && s.pending == Done && s.sequence == 0 == s.violations && s.fullOrders == 0 == s.partialOrders
    && s.attempts == 0 == s.byInventory && s.byObi == 0 == s.bySelector && s.conflicts == 0 == s.invalid
    && s.bidEnd == -1 == s.askEnd
  }

  function Abs(x: real): real { if x < 0.0 then -x else x }

  /** _apply_fill */
  function ApplyFill(s: State, e: Fill, spec: Spec): State {
    var inventory := s.inventory + e.Signed();
    s.(inventory := inventory, cash := s.cash + e.Cash(),
       turnover := s.turnover + e.Notional(), fees := s.fees + e.Notional() * spec.makerFee,
       bought := if e.side == Bid then s.bought + e.qty else s.bought,
       sold := if e.side == Ask then s.sold + e.qty else s.sold,
       fullOrders := if e.full then s.fullOrders + 1 else s.fullOrders,
       partialOrders := if e.full then s.partialOrders else s.partialOrders + 1,
       maxAbs := if Abs(inventory) > s.maxAbs then Abs(inventory) else s.maxAbs,
       violations := if Abs(inventory) > spec.hard + spec.tol then s.violations + 1 else s.violations)
  }

  /** What holds of every run: the heap, the one order per side, and the ledger of accepted fills. */
  ghost predicate Kept(s: State, accepted: seq<Fill>) {
    && InOrder(s.pending, s.sequence) && Within(s.pending, s.bidEnd, s.askEnd)
    && Orders(s.pending, Bid) <= 1 && Orders(s.pending, Ask) <= 1
    && s.inventory + QueueNet(s.pending) == Net(accepted, |accepted|)
    && s.cash + QueueCash(s.pending) == Cash(accepted, |accepted|)
    && s.inventory == s.bought - s.sold
    && s.fullOrders + s.partialOrders + Length(s.pending) == s.sequence == |accepted|
  }

  /** Inventory together with what may still be filled stays inside a limit, on both sides. */
  ghost predicate Safe(s: State, limit: real) {
    && s.inventory + Outstanding(s.pending, Bid) <= limit
    && s.inventory - Outstanding(s.pending, Ask) >= -limit
    && s.maxAbs <= limit
  }

  /** The largest inventory seen is noted, and a violation exactly when it passed the hard limit. */
  ghost predicate Marked(s: State, spec: Spec) {
    Abs(s.inventory) <= s.maxAbs && (s.violations == 0 <==> s.maxAbs <= spec.hard + spec.tol)
  }

  /** The fills not yet delivered are the accepted ones after the clock. */
  ghost predicate OnTime(s: State, accepted: seq<Fill>, clock: int) {
    forall t | t >= clock :: QueueAfter(s.pending, t) == NetAfter(accepted, t, |accepted|)
  }

  lemma {:induction false} OutstandingPositive(q: Queue, bidEnd: int, askEnd: int, side: Side)
    requires Within(q, bidEnd, askEnd)
    ensures Outstanding(q, side) >= 0.0
  {
    if q.Next? {
      OutstandingPositive(q.rest, bidEnd, askEnd, side);
    }
  }

  /** The soonest fill delivered. */
  function Popped(s: State, spec: Spec): State
    requires s.pending.Next?
  {
    ApplyFill(s.(pending := s.pending.rest), s.pending.head, spec)
  }

  /** Everything due by a time delivered. */
  function Drained(s: State, t: int, spec: Spec): State
    decreases s.pending
  {
    if s.pending.Next? && s.pending.head.time <= t then Drained(Popped(s, spec), t, spec) else s
  }

  function DrainedAll(s: State, spec: Spec): State
    decreases s.pending
  {
    if s.pending.Next? then DrainedAll(Popped(s, spec), spec) else s
  }

  /** Delivering a fill keeps the ledger; its quantity moves from outstanding to inventory, which is where
      a limit already counted it. */
  lemma FillKeeps(s: State, accepted: seq<Fill>, spec: Spec, limit: real)
    requires Kept(s, accepted) && s.pending.Next?
    ensures Kept(Popped(s, spec), accepted)
    ensures Safe(s, limit) ==> Safe(Popped(s, spec), limit)
    ensures Marked(s, spec) ==> Marked(Popped(s, spec), spec)
  {
    OutstandingPositive(s.pending.rest, s.bidEnd, s.askEnd, Bid);
    OutstandingPositive(s.pending.rest, s.bidEnd, s.askEnd, Ask);
  }

  /** What delivering fills leaves alone. */
  ghost predicate SameOrders(s: State, n: State) {
    && n.bidEnd == s.bidEnd && n.askEnd == s.askEnd && n.sequence == s.sequence && n.attempts == s.attempts
    && n.byInventory == s.byInventory && n.byObi == s.byObi && n.bySelector == s.bySelector
    && n.conflicts == s.conflicts && n.invalid == s.invalid
  }

  lemma {:induction false} DrainKeeps(s: State, t: int, spec: Spec, accepted: seq<Fill>, limit: real)
    requires Kept(s, accepted)
    ensures var n := Drained(s, t, spec);
            && Kept(n, accepted) && AllLater(n.pending, t) && SameOrders(s, n)
            && (Safe(s, limit) ==> Safe(n, limit)) && (Marked(s, spec) ==> Marked(n, spec))
    decreases s.pending
  {
    if s.pending.Next? && s.pending.head.time <= t {
      FillKeeps(s, accepted, spec, limit);
      DrainKeeps(Popped(s, spec), t, spec, accepted, limit);
    } else {
      LaterFromHead(s.pending, s.sequence, t);
    }
  }

  lemma {:induction false} DrainAllKeeps(s: State, spec: Spec, accepted: seq<Fill>, limit: real)
    requires Kept(s, accepted)
    ensures var n := DrainedAll(s, spec);
            && Kept(n, accepted) && n.pending == Done && SameOrders(s, n)
            && (Safe(s, limit) ==> Safe(n, limit)) && (Marked(s, spec) ==> Marked(n, spec))
    decreases s.pending
  {
    if s.pending.Next? {
      FillKeeps(s, accepted, spec, limit);
      DrainAllKeeps(Popped(s, spec), spec, accepted, limit);
    }
  }

  /** Nothing is delivered early or late: what is still queued are the fills after the time. */
  lemma {:induction false} DrainOnTime(s: State, t: int, spec: Spec, accepted: seq<Fill>, clock: int)
    requires clock <= t && OnTime(s, accepted, clock)
    ensures OnTime(Drained(s, t, spec), accepted, t)
    decreases s.pending
  {
    if s.pending.Next? && s.pending.head.time <= t {
      PopOnTime(s, t, spec, accepted, clock);
      DrainOnTime(Popped(s, spec), t, spec, accepted, t);
    }
  }

  lemma PopOnTime(s: State, t: int, spec: Spec, accepted: seq<Fill>, clock: int)
    requires clock <= t && OnTime(s, accepted, clock) && s.pending.Next? && s.pending.head.time <= t
    ensures OnTime(Popped(s, spec), accepted, t)
  {
    forall u | u >= t ensures QueueAfter(s.pending.rest, u) == NetAfter(accepted, u, |accepted|) {
      assert QueueAfter(s.pending, u) == NetAfter(accepted, u, |accepted|);
    }
  }

  /** No fill is delivered late: everything due by a placement is popped before it, soonest first. */
  method DrainDue(s: State, placement: int, spec: Spec) returns (n: State)
    ensures n == Drained(s, placement, spec)
  {
    n := s;
    while n.pending.Next? && n.pending.head.time <= placement
      invariant Drained(n, placement, spec) == Drained(s, placement, spec)
      decreases n.pending
    {
      n := ApplyFill(n.(pending := n.pending.rest), n.pending.head, spec);
    }
  }

  method DrainAll(s: State, spec: Spec) returns (n: State)
    ensures n == DrainedAll(s, spec)
  {
    n := s;
    while n.pending.Next?
      invariant DrainedAll(n, spec) == DrainedAll(s, spec)
      decreases n.pending
    {
      n := ApplyFill(n.(pending := n.pending.rest), n.pending.head, spec);
    }
  }

  lemma {:induction false} LaterFromHead(q: Queue, n: nat, t: int)
    requires InOrder(q, n) && (q.Next? ==> q.head.time > t)
    ensures AllLater(q, t)
  {
    if q.Next? {
      LaterFromHead(q.rest, n, t);
    }
  }

  /** How many scheduled rows have been accounted for. */
  function Counters(s: State): nat {
    s.attempts + s.byInventory + s.byObi + s.bySelector + s.conflicts + s.invalid
  }

  lemma FreshKept(s: State)
    requires Fresh(s)
    ensures Kept(s, [])
  {
  }

  lemma FreshSafe(s: State, limit: real)
    requires Fresh(s) && limit >= 0.0
    ensures Safe(s, limit)
  {
  }

  lemma FreshMarked(s: State, spec: Spec)
    requires spec.Sane() && Fresh(s)
    ensures Marked(s, spec)
  {
  }

  lemma FreshOnTime(s: State, clock: int)
    requires Fresh(s)
    ensures OnTime(s, [], clock)
  {
  }

  lemma {:induction false} NetSplits(fs: seq<Fill>, t: int, n: nat)
    requires n <= |fs|
    ensures NetUpTo(fs, t, n) + NetAfter(fs, t, n) == Net(fs, n)
  {
    if n > 0 {
      NetSplits(fs, t, n - 1);
    }
  }

  lemma {:induction false} AllAfter(q: Queue, t: int)
    requires AllLater(q, t)
    ensures QueueAfter(q, t) == QueueNet(q)
  {
    if q.Next? {
      AllAfter(q.rest, t);
    }
  }

  /** At a decision the inventory is exactly what the accepted orders have been filled by its stamp:
      nothing early, nothing late. */
  lemma DecisionInventory(s: State, accepted: seq<Fill>, placement: int)
    requires Kept(s, accepted) && OnTime(s, accepted, placement) && AllLater(s.pending, placement)
    ensures s.inventory == NetUpTo(accepted, placement, |accepted|)
  {
    AllAfter(s.pending, placement);
    NetSplits(accepted, placement, |accepted|);
  }

  /** Once a side's last order has ended and everything due is delivered, nothing of it is outstanding. */
  lemma {:induction false} SideIsFree(q: Queue, bidEnd: int, askEnd: int, side: Side, placement: int)
    requires Within(q, bidEnd, askEnd) && AllLater(q, placement) && placement >= if side == Bid then bidEnd else askEnd
    ensures Orders(q, side) == 0 && Outstanding(q, side) == 0.0
  {
    if q.Next? {
      SideIsFree(q.rest, bidEnd, askEnd, side, placement);
    }
  }

  /** The next order joins behind every fill that comes as soon. */
  lemma {:induction false} PushKeepsOrder(q: Queue, e: Fill, n: nat)
    requires InOrder(q, n) && e.sequence == n + 1
    ensures InOrder(Push(q, e), n + 1) && (Push(q, e).head == e || (q.Next? && Push(q, e).head == q.head))
  {
    if q.Next? {
      if Before(e, q.head) {
        StillInOrder(q, n);
      } else {
        PushKeepsOrder(q.rest, e, n);
      }
    }
  }

  lemma {:induction false} StillInOrder(q: Queue, n: nat)
    requires InOrder(q, n)
    ensures InOrder(q, n + 1)
  {
    if q.Next? {
      StillInOrder(q.rest, n);
    }
  }

  lemma {:induction false} PushKeeps(q: Queue, e: Fill, side: Side)
    ensures var p := Push(q, e);
            && Outstanding(p, side) == Outstanding(q, side) + (if e.side == side then e.qty else 0.0)
            && Orders(p, side) == Orders(q, side) + (if e.side == side then 1 else 0)
            && QueueNet(p) == QueueNet(q) + e.Signed() && QueueCash(p) == QueueCash(q) + e.Cash() && Length(p) == Length(q) + 1
  {
    if q.Next? && !Before(e, q.head) {
      PushKeeps(q.rest, e, side);
    }
  }

  lemma {:induction false} PushAfter(q: Queue, e: Fill, t: int)
    ensures QueueAfter(Push(q, e), t) == QueueAfter(q, t) + if e.time > t then e.Signed() else 0.0
  {
    if q.Next? && !Before(e, q.head) {
      PushAfter(q.rest, e, t);
    }
  }

  lemma {:induction false} PushWithin(q: Queue, e: Fill, bidEnd: int, askEnd: int)
    requires Within(q, bidEnd, askEnd) && e.qty > 0.0 && e.time <= if e.side == Bid then bidEnd else askEnd
    ensures Within(Push(q, e), bidEnd, askEnd)
  {
    if q.Next? && !Before(e, q.head) {
      PushWithin(q.rest, e, bidEnd, askEnd);
    }
  }

  lemma {:induction false} LaterEnds(q: Queue, bidEnd: int, askEnd: int, laterBid: int, laterAsk: int)
    requires Within(q, bidEnd, askEnd) && bidEnd <= laterBid && askEnd <= laterAsk
    ensures Within(q, laterBid, laterAsk)
  {
    if q.Next? {
      LaterEnds(q.rest, bidEnd, askEnd, laterBid, laterAsk);
    }
  }

  /** An order occupies its side until it ends; its fill, if any, joins the heap. */
  function Placed(s: State, row: Row, end: int): State {
    var counted := s.(attempts := s.attempts + 1);
    if row.side == Bid then counted.(bidEnd := end) else counted.(askEnd := end)
  }

  function Enqueued(s: State, e: Fill): State {
    s.(sequence := s.sequence + 1, pending := Push(s.pending, e))
  }

  lemma PlacedKeeps(s: State, row: Row, end: int, accepted: seq<Fill>, spec: Spec, limit: real)
    requires Kept(s, accepted) && end >= s.End(row.side)
    ensures Kept(Placed(s, row, end), accepted)
    ensures Marked(s, spec) ==> Marked(Placed(s, row, end), spec)
    ensures Safe(s, limit) ==> Safe(Placed(s, row, end), limit)
  {
    var p := Placed(s, row, end);
    LaterEnds(s.pending, s.bidEnd, s.askEnd, p.bidEnd, p.askEnd);
  }

  lemma EnqueuedKeeps(s: State, e: Fill, accepted: seq<Fill>)
    requires Kept(s, accepted) && Orders(s.pending, e.side) == 0 && e.qty > 0.0 && e.time <= s.End(e.side)
    requires e.sequence == s.sequence + 1
    ensures Kept(Enqueued(s, e), accepted + [e])
  {
    PushKeepsOrder(s.pending, e, s.sequence);
    PushKeeps(s.pending, e, Bid);
    PushKeeps(s.pending, e, Ask);
    PushWithin(s.pending, e, s.bidEnd, s.askEnd);
    NetPrefix(accepted, [e], 0, |accepted|);
    assert (accepted + [e])[|accepted|] == e;
  }

  lemma {:induction false} NetPrefix(a: seq<Fill>, b: seq<Fill>, t: int, n: nat)
    requires n <= |a|
    ensures Net(a + b, n) == Net(a, n) && Cash(a + b, n) == Cash(a, n) && NetAfter(a + b, t, n) == NetAfter(a, t, n)
  {
    if n > 0 {
      NetPrefix(a, b, t, n - 1);
    }
  }

  lemma {:induction false} EnqueuedOnTime(s: State, e: Fill, accepted: seq<Fill>, clock: int)
    requires OnTime(s, accepted, clock)
    ensures OnTime(Enqueued(s, e), accepted + [e], clock)
  {
    forall t | t >= clock ensures QueueAfter(Push(s.pending, e), t) == NetAfter(accepted + [e], t, |accepted| + 1) {
      PushAfter(s.pending, e, t);
      NetPrefix(accepted, [e], t, |accepted|);
      assert (accepted + [e])[|accepted|] == e;
    }
  }

  /** Exactly when an order keeps a limit however it and the other side's order fill: when it would keep it
      by filling at once. */
  lemma OrderKeepsLimit(s: State, e: Fill, accepted: seq<Fill>, limit: real)
    requires Kept(s, accepted) && Safe(s, limit) && Outstanding(s.pending, e.side) == 0.0 && e.qty > 0.0
    ensures Safe(Enqueued(s, e), limit) <==> if e.side == Bid then s.inventory + e.qty <= limit else s.inventory - e.qty >= -limit
  {
    PushKeeps(s.pending, e, Bid);
    PushKeeps(s.pending, e, Ask);
  }

  /** And when it would not, filling at once takes the inventory past the limit. */
  lemma OversizedOrderBreaksLimit(s: State, e: Fill, spec: Spec, accepted: seq<Fill>)
    requires Kept(s, accepted) && Safe(s, spec.hard + spec.tol) && Marked(s, spec) && Outstanding(s.pending, e.side) == 0.0 && e.qty > 0.0
    ensures ApplyFill(s, e, spec).violations > 0 <==> !Safe(Enqueued(s, e), spec.hard + spec.tol)
  {
    OrderKeepsLimit(s, e, accepted, spec.hard + spec.tol);
    OutstandingPositive(s.pending, s.bidEnd, s.askEnd, Bid);
    OutstandingPositive(s.pending, s.bidEnd, s.askEnd, Ask);
  }

  /** When an order's fill event happens, when the order ends and how much it fills. */
  function Labels(row: Row): Result<(int, int, real)> {
    if row.status == Full then
      if row.firstFill.None? then Err("full fill lacks first-fill local time")
      else if row.fullFill.None? then Err("full fill lacks completion local time")
      else Ok((row.firstFill.value, row.fullFill.value, row.filledQty))
    else if row.status == Partial then
      if row.firstFill.None? then Err("partial fill lacks first-fill local time")
      else Ok((row.firstFill.value, row.expiry, row.filledQty))
    else Ok((-1, row.expiry, 0.0))
  }

  datatype Config = Config(policy: Policy, selector: bool, riskReducing: bool, spec: Spec)

  /** What becomes of a scheduled row. */
  datatype Fate = Conflict | Unusable | OverLimit | Toxic | NotSelected | Tried

  function FateOf(row: Row, end: int, inventory: real, c: Config): Fate {
    if row.placement < end then Conflict
    else if row.status == Invalid then Unusable
    else match QuotePermission(c.policy, row.side, inventory, row.obi, c.spec)
      case ByInventory => OverLimit
      case ByObi => Toxic
      case Allowed =>
        var reduces := if row.side == Bid then inventory < -c.spec.tol else inventory > c.spec.tol;
        if c.selector && !row.selected && !(c.riskReducing && reduces) then NotSelected else Tried
  }

  /** The stamps its outcome calls for are there. */
  predicate Labelled(row: Row) {
    (row.status == Full || row.status == Partial ==> row.firstFill.Some?) && (row.status == Full ==> row.fullFill.Some?)
  }

  /** An order ends with its completion if it was filled whole, and else when it expires. */
  function EndOf(row: Row): int
    requires Labelled(row)
  {
    if row.status == Full then row.fullFill.value else row.expiry
  }

  /** It brings what was filled of it, if that is more than dust, at its first print. */
  function Quantity(row: Row): real {
    if row.status == Full || row.status == Partial then row.filledQty else 0.0
  }

  function FirstPrint(row: Row): int
    requires Labelled(row)
  {
    if row.status == Full || row.status == Partial then row.firstFill.value else -1
  }

  /** The order's labels are all there and lie inside its lifetime. */
  predicate Orderly(row: Row, tol: real) {
    && Labelled(row) && row.placement <= EndOf(row)
    && (Quantity(row) > tol ==> row.placement <= FirstPrint(row) <= EndOf(row))
  }

  /** A row that stops the simulation. */
  predicate Fault(row: Row, end: int, inventory: real, c: Config) {
    && row.placement >= end && row.status != Invalid
    && (Abs(row.quoteQty - c.spec.qty) > c.spec.tol || (FateOf(row, end, inventory, c) == Tried && !Orderly(row, c.spec.tol)))
  }

  /** The fill an order brings, if any. */
  function FillsOf(row: Row, fate: Fate, sequence: nat, tol: real): (fs: seq<Fill>)
    ensures |fs| <= 1
  {
    if fate == Tried && Labelled(row) && Quantity(row) > tol
    then [Fill(FirstPrint(row), sequence, row.side, Quantity(row), row.price, row.status == Full)] else []
  }

  function EndAfter(row: Row, fate: Fate, side: Side, was: int): int {
    if fate == Tried && row.side == side && Labelled(row) then EndOf(row) else was
  }

  /** The state a row leaves. */
  function Handled(s: State, row: Row, c: Config): State {
    var fate := FateOf(row, s.End(row.side), s.inventory, c);
    match fate
    case Conflict => s.(conflicts := s.conflicts + 1)
    case Unusable => s.(invalid := s.invalid + 1)
    case OverLimit => s.(byInventory := s.byInventory + 1)
    case Toxic => s.(byObi := s.byObi + 1)
    case NotSelected => s.(bySelector := s.bySelector + 1)
    case Tried =>
      if !Labelled(row) then s
      else
        var placed := Placed(s, row, EndOf(row));
        var fills := FillsOf(row, fate, s.sequence + 1, c.spec.tol);
        if fills == [] then placed else Enqueued(placed, fills[0])
  }

  /** An accepted order occupies its side until it ends, and its fill joins the heap. */
  method PlaceOrder(s: State, row: Row, c: Config) returns (r: Result<State>)
    requires FateOf(row, s.End(row.side), s.inventory, c) == Tried
    ensures r.Ok? <==> Orderly(row, c.spec.tol)
    ensures r.Ok? ==> r.value == Handled(s, row, c)
  {
    var labels := Labels(row);
    if labels.Err? {
      return Err(labels.error);
    }
    var (time, end, qty) := labels.value;
    if end < row.placement {
      return Err("passive order ends before placement");
    }
    var placed := Placed(s, row, end);
    if qty <= c.spec.tol {
      return Ok(placed);
    }
    if time < row.placement || time > end {
      return Err("passive fill event falls outside order lifetime");
    }
    return Ok(Enqueued(placed, Fill(time, s.sequence + 1, row.side, qty, row.price, row.status == Full)));
  }

  /** One scheduled row against the current state: it stops the run exactly on a fault. */
  method HandleRow(s: State, row: Row, c: Config) returns (r: Result<State>)
    ensures r.Err? <==> Fault(row, s.End(row.side), s.inventory, c)
    ensures r.Ok? ==> r.value == Handled(s, row, c)
  {
    if row.placement < s.End(row.side) {
      return Ok(s.(conflicts := s.conflicts + 1));
    }
    if row.status == Invalid {
      return Ok(s.(invalid := s.invalid + 1));
    }
    if Abs(row.quoteQty - c.spec.qty) > c.spec.tol {
      return Err("passive quote quantity differs from frozen MM quantity");
    }
    var verdict := QuotePermission(c.policy, row.side, s.inventory, row.obi, c.spec);
    if verdict == ByInventory {
      return Ok(s.(byInventory := s.byInventory + 1));
    }
    if verdict == ByObi {
      return Ok(s.(byObi := s.byObi + 1));
    }
    if c.selector && !row.selected && !(c.riskReducing && Reduces(row.side, s.inventory, c.spec.tol)) {
      return Ok(s.(bySelector := s.bySelector + 1));
    }
    r := PlaceOrder(s, row, c);
  }

  /** Wherever a quote is permitted inside a limit, a fill of up to q stays inside it. */
  ghost predicate Admits(limit: real, q: real, spec: Spec) {
    && limit >= 0.0
    && (q > spec.tol ==> forall i: real {:trigger Room(Bid, i, spec)} | -limit <= i <= limit && Room(Bid, i, spec) :: i + q <= limit)
    && (q > spec.tol ==> forall i: real {:trigger Room(Ask, i, spec)} | -limit <= i <= limit && Room(Ask, i, spec) :: i - q >= -limit)
  }

  /** Every row that does not stop the run keeps the ledger, the marks and any limit that admits its fill. */
  lemma HandledKeeps(s: State, row: Row, c: Config, accepted: seq<Fill>, limit: real, q: real)
    requires c.spec.Sane() && Kept(s, accepted) && AllLater(s.pending, row.placement)
    requires !Fault(row, s.End(row.side), s.inventory, c)
    ensures var fills := FillsOf(row, FateOf(row, s.End(row.side), s.inventory, c), |accepted| + 1, c.spec.tol);
            Kept(Handled(s, row, c), accepted + fills)
    ensures Marked(s, c.spec) ==> Marked(Handled(s, row, c), c.spec)
    ensures Safe(s, limit) && Admits(limit, q, c.spec) && row.filledQty <= q ==> Safe(Handled(s, row, c), limit)
  {
    assert accepted + [] == accepted;
    if FateOf(row, s.End(row.side), s.inventory, c) == Tried {
      OrderKeeps(s, row, c, accepted, limit, q);
    }
  }

  lemma OrderKeeps(s: State, row: Row, c: Config, accepted: seq<Fill>, limit: real, q: real)
    requires c.spec.Sane() && Kept(s, accepted) && AllLater(s.pending, row.placement)
    requires FateOf(row, s.End(row.side), s.inventory, c) == Tried && Orderly(row, c.spec.tol)
    ensures var fills := FillsOf(row, Tried, |accepted| + 1, c.spec.tol);
            Kept(Handled(s, row, c), accepted + fills)
    ensures Marked(s, c.spec) ==> Marked(Handled(s, row, c), c.spec)
    ensures Safe(s, limit) && Admits(limit, q, c.spec) && row.filledQty <= q ==> Safe(Handled(s, row, c), limit)
  {
    assert accepted + [] == accepted;
    var end := EndOf(row);
    SideIsFree(s.pending, s.bidEnd, s.askEnd, row.side, row.placement);
    PlacedKeeps(s, row, end, accepted, c.spec, limit);
    if Quantity(row) > c.spec.tol {
      TriedKeeps(Placed(s, row, end), Fill(FirstPrint(row), s.sequence + 1, row.side, Quantity(row), row.price, row.status == Full), c, accepted,
                 limit, q);
    }
  }

  lemma TriedKeeps(s: State, e: Fill, c: Config, accepted: seq<Fill>, limit: real, q: real)
    requires c.spec.Sane() && Kept(s, accepted) && Orders(s.pending, e.side) == 0 && Outstanding(s.pending, e.side) == 0.0
    requires e.qty > c.spec.tol && e.time <= s.End(e.side) && Room(e.side, s.inventory, c.spec) && e.sequence == s.sequence + 1
    ensures Kept(Enqueued(s, e), accepted + [e]) && (Marked(s, c.spec) ==> Marked(Enqueued(s, e), c.spec))
    ensures Safe(s, limit) && Admits(limit, q, c.spec) && e.qty <= q ==> Safe(Enqueued(s, e), limit)
  {
    EnqueuedKeeps(s, e, accepted);
    if Safe(s, limit) && Admits(limit, q, c.spec) && e.qty <= q {
      OutstandingPositive(s.pending, s.bidEnd, s.askEnd, Bid);
      OutstandingPositive(s.pending, s.bidEnd, s.askEnd, Ask);
      assert -limit <= s.inventory <= limit;
      OrderKeepsLimit(s, e, accepted, limit);
    }
  }

  lemma HandledOnTime(s: State, row: Row, c: Config, accepted: seq<Fill>, clock: int)
    requires Kept(s, accepted) && OnTime(s, accepted, clock)
    ensures var fills := FillsOf(row, FateOf(row, s.End(row.side), s.inventory, c), |accepted| + 1, c.spec.tol);
            OnTime(Handled(s, row, c), accepted + fills, clock)
  {
    assert accepted + [] == accepted;
    var fate := FateOf(row, s.End(row.side), s.inventory, c);
    var fills := FillsOf(row, fate, |accepted| + 1, c.spec.tol);
    if fills != [] {
      EnqueuedOnTime(Placed(s, row, EndOf(row)), fills[0], accepted, clock);
      assert fills == [fills[0]];
    }
  }
}
