/** One pending row of the native dataset (cpp/research/native_dataset_exporter.hpp:143-178) and what
    may happen to it (cpp/research/native_dataset_exporter.cpp:528-588, 606-665). Prices are mids in
    half ticks, so every drift is an exact integer. */
module NativeRows {
  import opened Wrappers
  import opened FillAgreement

  /** A point in time, or the all-ones stamp that means "nothing left to decide". */
  datatype Deadline = At(ns: nat) | Never

  predicate Leq(a: Deadline, b: Deadline) {
    b.Never? || (a.At? && a.ns <= b.ns)
  }

  function Sooner(a: Deadline, b: Deadline): Deadline {
    if Leq(a, b) then a else b
  }

  function Soonest(ds: seq<Deadline>, k: nat): (d: Deadline)
    requires k <= |ds|
    ensures forall i | k <= i < |ds| :: Leq(d, ds[i])
    ensures d.Never? <==> forall i | k <= i < |ds| :: ds[i].Never?
    decreases |ds| - k
  {
    if k == |ds| then Never else Sooner(ds[k], Soonest(ds, k + 1))
  }

  datatype Config = Config(gridNs: nat, markoutNs: seq<nat>, fillNs: seq<nat>, postfillNs: seq<nat>, horizonNs: nat,
                           lots: int, threshold: int) {
    predicate Ok() {
      && gridNs > 0 && horizonNs > 0 && lots > 0 && threshold > 0
      && (forall k | 0 <= k < |fillNs| :: fillNs[k] <= horizonNs)
      && (forall i, j | 0 <= i < j < |markoutNs| :: markoutNs[i] <= markoutNs[j])
    }
  }

  datatype Race = Undecided | FillFirst | AdverseFirst | Censored

  datatype PostFill = Undone | NotApplicable | Value(halfTicks: int)

  datatype SideState = SideState(
    fill: NativeSide, fillMidX2: int, fillFlag: seq<Option<bool>>, filledAtHorizon: Option<int>, race: Race,
    adverse: bool, adverseNs: nat, postfill: seq<PostFill>, quoteGoneNs: nat, bestAdverseNs: nat)

  datatype Move = Move(up: bool, ns: nat)

  datatype Row = Row(ns: nat, midX2: int, markout: seq<Option<int>>, nextMove: Option<Move>,
                     bid: SideState, ask: SideState, watching: bool, nextDeadline: Deadline)

  ghost predicate SideShaped(s: SideState, c: Config) {
    |s.fillFlag| == |c.fillNs| && |s.postfill| == |c.postfillNs|
  }

  ghost predicate Shaped(r: Row, c: Config) {
    |r.markout| == |c.markoutNs| && SideShaped(r.bid, c) && SideShaped(r.ask, c)
  }

  /** The undecided horizons of a row, a decided one counting as Never. */
  function MarkoutHorizons(r: Row, c: Config): (ds: seq<Deadline>)
    requires |r.markout| == |c.markoutNs|
    ensures |ds| == |c.markoutNs|
    ensures forall k | 0 <= k < |ds| :: ds[k] == if r.markout[k].Some? then Never else At(r.ns + c.markoutNs[k])
  {
    seq(|c.markoutNs|, k requires 0 <= k < |c.markoutNs| => if r.markout[k].Some? then Never else At(r.ns + c.markoutNs[k]))
  }

  function FillHorizons(ns: nat, s: SideState, c: Config): (ds: seq<Deadline>)
    requires |s.fillFlag| == |c.fillNs|
    ensures |ds| == |c.fillNs|
    ensures forall k | 0 <= k < |ds| :: ds[k] == if s.fillFlag[k].Some? then Never else At(ns + c.fillNs[k])
  {
    seq(|c.fillNs|, k requires 0 <= k < |c.fillNs| => if s.fillFlag[k].Some? then Never else At(ns + c.fillNs[k]))
  }

  function PostFillHorizons(ns: nat, s: SideState, c: Config): (ds: seq<Deadline>)
    requires |s.postfill| == |c.postfillNs|
    ensures |ds| == |c.postfillNs|
    ensures forall k | 0 <= k < |ds| :: ds[k] == PostFillHorizon(ns, s, c, k)
  {
    seq(|c.postfillNs|, k requires 0 <= k < |c.postfillNs| => PostFillHorizon(ns, s, c, k))
  }

  function PostFillHorizon(ns: nat, s: SideState, c: Config, k: nat): Deadline
    requires k < |s.postfill| == |c.postfillNs|
  {
    if s.postfill[k] != Undone then Never
    else if s.fill.fullFilled then At(s.fill.fullNs + c.postfillNs[k])
    else At(ns + c.horizonNs)
  }

  function GateHorizon(ns: nat, s: SideState, watching: bool, c: Config): Deadline {
    if s.filledAtHorizon.None? || s.race == Undecided || watching then At(ns + c.horizonNs) else Never
  }

  function SideDeadline(ns: nat, s: SideState, watching: bool, c: Config): Deadline
    requires |s.fillFlag| == |c.fillNs| && |s.postfill| == |c.postfillNs|
  {
    Sooner(Soonest(FillHorizons(ns, s, c), 0),
           Sooner(GateHorizon(ns, s, watching, c), Soonest(PostFillHorizons(ns, s, c), 0)))
  }

  /** refresh_next_deadline: the soonest horizon still undecided. */
  function Fresh(r: Row, c: Config): Deadline
    requires Shaped(r, c)
  {
    Sooner(Soonest(MarkoutHorizons(r, c), 0),
           Sooner(SideDeadline(r.ns, r.bid, r.watching, c), SideDeadline(r.ns, r.ask, r.watching, c)))
  }

  ghost predicate SideDecided(s: SideState) {
    && (forall k | 0 <= k < |s.fillFlag| :: s.fillFlag[k].Some?)
    && s.filledAtHorizon.Some? && s.race != Undecided
    && (forall k | 0 <= k < |s.postfill| :: s.postfill[k] != Undone)
  }

  /** Nothing about the row is left to observe. */
  ghost predicate FullyDecided(r: Row) {
    (forall k | 0 <= k < |r.markout| :: r.markout[k].Some?) && SideDecided(r.bid) && SideDecided(r.ask) && !r.watching
  }

  lemma SideNeverIffDecided(ns: nat, s: SideState, watching: bool, c: Config)
    requires SideShaped(s, c)
    ensures SideDeadline(ns, s, watching, c).Never? <==> SideDecided(s) && !watching
  {
    var f, p := FillHorizons(ns, s, c), PostFillHorizons(ns, s, c);
    assert (forall k | 0 <= k < |s.fillFlag| :: s.fillFlag[k].Some?) <==> (forall k | 0 <= k < |f| :: f[k].Never?);
    assert forall k | 0 <= k < |p| :: p[k].Never? <==> s.postfill[k] != Undone;
  }

  /** A row has no deadline exactly when nothing about it is left to observe. */
  lemma NeverIffDecided(r: Row, c: Config)
    requires Shaped(r, c)
    ensures Fresh(r, c).Never? <==> FullyDecided(r)
  {
    SideNeverIffDecided(r.ns, r.bid, r.watching, c);
    SideNeverIffDecided(r.ns, r.ask, r.watching, c);
    var m := MarkoutHorizons(r, c);
    assert (forall k | 0 <= k < |r.markout| :: r.markout[k].Some?) <==> (forall k | 0 <= k < |m| :: m[k].Never?);
  }

  function DecideMarkouts(r: Row, due: nat, midX2: int, c: Config): (ms: seq<Option<int>>)
    requires |r.markout| == |c.markoutNs|
    ensures |ms| == |r.markout|
    ensures forall k | 0 <= k < |ms| ::
              ms[k] == if r.markout[k].None? && r.ns + c.markoutNs[k] <= due then Some(midX2 - r.midX2) else r.markout[k]
  {
    seq(|r.markout|, k requires 0 <= k < |r.markout| =>
      if r.markout[k].None? && r.ns + c.markoutNs[k] <= due then Some(midX2 - r.midX2) else r.markout[k])
  }

  function DecideFlags(ns: nat, s: SideState, due: nat, c: Config): (fs: seq<Option<bool>>)
    requires |s.fillFlag| == |c.fillNs|
    ensures |fs| == |s.fillFlag|
    ensures forall k | 0 <= k < |fs| ::
              fs[k] == if s.fillFlag[k].None? && ns + c.fillNs[k] <= due
                       then Some(s.fill.fullFilled && s.fill.fullNs <= ns + c.fillNs[k]) else s.fillFlag[k]
  {
    seq(|s.fillFlag|, k requires 0 <= k < |s.fillFlag| =>
      if s.fillFlag[k].None? && ns + c.fillNs[k] <= due
      then Some(s.fill.fullFilled && s.fill.fullNs <= ns + c.fillNs[k]) else s.fillFlag[k])
  }

  /** The post-fill value in half ticks, signed so that a gain on the resting side is positive. */
  function PostFillValue(bid: bool, midX2: int, quote: int): int {
    if bid then midX2 - 2 * quote else 2 * quote - midX2
  }

  function DecidePostFills(bid: bool, ns: nat, s: SideState, due: nat, midX2: int, c: Config): (ps: seq<PostFill>)
    requires |s.postfill| == |c.postfillNs|
    ensures |ps| == |s.postfill|
    ensures forall k | 0 <= k < |ps| :: ps[k] == DecidePostFill(bid, ns, s, due, midX2, c, k)
  {
    seq(|s.postfill|, k requires 0 <= k < |s.postfill| => DecidePostFill(bid, ns, s, due, midX2, c, k))
  }

  function DecidePostFill(bid: bool, ns: nat, s: SideState, due: nat, midX2: int, c: Config, k: nat): PostFill
    requires k < |s.postfill| == |c.postfillNs|
  {
    if s.fill.fullFilled then
      if s.postfill[k] == Undone && s.fill.fullNs + c.postfillNs[k] <= due
      then Value(PostFillValue(bid, midX2, s.fill.quote)) else s.postfill[k]
    else if s.postfill[k] == Undone && ns + c.horizonNs <= due then NotApplicable
    else s.postfill[k]
  }

  function DecideSide(bid: bool, ns: nat, s: SideState, due: nat, midX2: int, c: Config): SideState
    requires |s.fillFlag| == |c.fillNs| && |s.postfill| == |c.postfillNs|
  {
    var past := ns + c.horizonNs <= due;
    s.(fillFlag := DecideFlags(ns, s, due, c),
       filledAtHorizon := if past && s.filledAtHorizon.None? then Some(NativeFilled(s.fill, c.lots)) else s.filledAtHorizon,
       race := if past && s.race == Undecided then Censored else s.race,
       postfill := DecidePostFills(bid, ns, s, due, midX2, c))
  }

  /** Every horizon of the row that has come due is decided with the given mid. */
  function Decide(r: Row, due: nat, midX2: int, c: Config): Row
    requires Shaped(r, c)
  {
    r.(markout := DecideMarkouts(r, due, midX2, c),
       bid := DecideSide(true, r.ns, r.bid, due, midX2, c),
       ask := DecideSide(false, r.ns, r.ask, due, midX2, c))
  }

  function Drift(bid: bool, r: Row, midX2: int): int {
    if bid then midX2 - r.midX2 else r.midX2 - midX2
  }

  function MoveSide(bid: bool, r: Row, s: SideState, midX2: int, now: nat, c: Config): SideState {
    if s.adverse || Drift(bid, r, midX2) > -c.threshold then s
    else s.(adverse := true, adverseNs := now, race := if s.race == Undecided then AdverseFirst else s.race)
  }

  /** apply_mid_move: updates that fire at most once per row. */
  function ApplyMidMove(r: Row, midX2: int, now: nat, c: Config): Row {
    if midX2 == r.midX2 || now > r.ns + c.horizonNs then r
    else r.(nextMove := if r.nextMove.None? then Some(Move(midX2 > r.midX2, now)) else r.nextMove,
            bid := MoveSide(true, r, r.bid, midX2, now, c),
            ask := MoveSide(false, r, r.ask, midX2, now, c))
  }

  lemma SideSettled(bid: bool, ns: nat, s: SideState, watching: bool, due: nat, midX2: int, c: Config)
    requires SideShaped(s, c) && !Leq(SideDeadline(ns, s, watching, c), At(due))
    ensures DecideSide(bid, ns, s, due, midX2, c) == s
  {
    var f, p := FillHorizons(ns, s, c), PostFillHorizons(ns, s, c);
    forall k | 0 <= k < |s.fillFlag| ensures DecideFlags(ns, s, due, c)[k] == s.fillFlag[k] {
      assert Leq(Soonest(f, 0), f[k]);
    }
    forall k | 0 <= k < |s.postfill| ensures DecidePostFills(bid, ns, s, due, midX2, c)[k] == s.postfill[k] {
      assert Leq(Soonest(p, 0), p[k]);
    }
    assert DecideFlags(ns, s, due, c) == s.fillFlag;
    assert DecidePostFills(bid, ns, s, due, midX2, c) == s.postfill;
  }

  /** Skipping a row whose soonest horizon is not due loses nothing. */
  lemma NotDueIsSettled(r: Row, due: nat, midX2: int, c: Config)
    requires Shaped(r, c) && !Leq(Fresh(r, c), At(due))
    ensures Decide(r, due, midX2, c) == r
  {
    var m := MarkoutHorizons(r, c);
    forall k | 0 <= k < |r.markout| ensures DecideMarkouts(r, due, midX2, c)[k] == r.markout[k] {
      assert Leq(Soonest(m, 0), m[k]);
    }
    assert DecideMarkouts(r, due, midX2, c) == r.markout;
    SideSettled(true, r.ns, r.bid, r.watching, due, midX2, c);
    SideSettled(false, r.ns, r.ask, r.watching, due, midX2, c);
  }
}
