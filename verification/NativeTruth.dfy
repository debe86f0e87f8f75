/** What every label of a row must be, as a function of the recorded history alone
    (cpp/research/native_dataset_exporter.cpp:272-283, 590-668, 747-767, 980-1002). A history lists the
    mid after each record of the segment. A label for a deadline reads the mid in force at that
    deadline: nothing later, and nothing staler. */
module NativeTruth {
  import opened Wrappers
  import opened FillAgreement
  import opened NativeRows
  import opened NativeResolver

  datatype Sample = Sample(ns: nat, midX2: int)

  ghost predicate Rising(h: seq<Sample>) {
    h != [] && forall i, j | 0 <= i < j < |h| :: h[i].ns < h[j].ns
  }

  ghost function LastNs(h: seq<Sample>): nat
    requires h != []
  {
    h[|h| - 1].ns
  }

  ghost function LastMid(h: seq<Sample>): int
    requires h != []
  {
    h[|h| - 1].midX2
  }

  /** The mid in force at t: the last of the first n records stamped at or before it. */
  ghost function MidAt(h: seq<Sample>, t: nat, n: nat): int
    requires n <= |h|
  {
    if n == 0 then 0 else if h[n - 1].ns <= t then h[n - 1].midX2 else MidAt(h, t, n - 1)
  }

  /** The first record after the row, inside its horizon, that left the mid elsewhere. */
  ghost function FirstMove(h: seq<Sample>, ns: nat, cap: nat, midX2: int, n: nat): Option<Move>
    requires n <= |h|
  {
    if n == 0 then None
    else
      var earlier := FirstMove(h, ns, cap, midX2, n - 1);
      if earlier.Some? then earlier
      else if ns < h[n - 1].ns <= cap && h[n - 1].midX2 != midX2 then Some(Move(h[n - 1].midX2 > midX2, h[n - 1].ns))
      else None
  }

  /** The first one that moved against the resting side by at least the threshold. */
  ghost function FirstAdverse(h: seq<Sample>, ns: nat, cap: nat, bid: bool, midX2: int, threshold: int, n: nat): Option<nat>
    requires n <= |h|
  {
    if n == 0 then None
    else
      var earlier := FirstAdverse(h, ns, cap, bid, midX2, threshold, n - 1);
      var drift := if bid then h[n - 1].midX2 - midX2 else midX2 - h[n - 1].midX2;
      if earlier.Some? then earlier
      else if ns < h[n - 1].ns <= cap && drift <= -threshold then Some(h[n - 1].ns)
      else None
  }

  /** Deadline t of a row placed at ns has been reached by a call at `now` that resolves up to `due`. */
  predicate Reached(ns: nat, t: nat, now: nat, due: nat) {
    ns < now && t <= due
  }

  ghost function RaceTruth(s: SideState, past: bool): Race {
    if s.adverse && !(s.fill.fullFilled && s.fill.fullNs <= s.adverseNs) then AdverseFirst
    else if s.fill.fullFilled then FillFirst
    else if past then Censored
    else Undecided
  }

  /** Some time after the fill, what the position is then worth against its quote: twice the ticks a bought
      lot gained, or a sold one saved. */
  ghost function PostFillTruth(bid: bool, s: SideState, h: seq<Sample>, past: bool, due: nat, after: nat): PostFill {
    if s.fill.fullFilled then
      if s.fill.fullNs + after <= due then
        var midX2 := MidAt(h, s.fill.fullNs + after, |h|);
        Value(if bid then midX2 - 2 * s.fill.quote else 2 * s.fill.quote - midX2)
      else Undone
    else if past then NotApplicable
    else Undone
  }

  ghost predicate SideTrue(bid: bool, ns: nat, midX2: int, s: SideState, h: seq<Sample>, now: nat, due: nat, c: Config) {
    var past := Reached(ns, ns + c.horizonNs, now, due);
    var adverse := FirstAdverse(h, ns, ns + c.horizonNs, bid, midX2, c.threshold, |h|);
    && SideShaped(s, c)
    && (s.fill.fullFilled ==> ns < s.fill.fullNs < ns + c.horizonNs && s.fill.fullNs <= now)
    && (s.adverse <==> adverse.Some?) && (s.adverse ==> adverse == Some(s.adverseNs))
    && (forall k | 0 <= k < |c.fillNs| ::
          s.fillFlag[k] == if Reached(ns, ns + c.fillNs[k], now, due)
                           then Some(s.fill.fullFilled && s.fill.fullNs <= ns + c.fillNs[k]) else None)
    && s.filledAtHorizon == (if past then Some(NativeFilled(s.fill, c.lots)) else None)
    && s.race == RaceTruth(s, past)
    && (forall k | 0 <= k < |c.postfillNs| :: s.postfill[k] == PostFillTruth(bid, s, h, past, due, c.postfillNs[k]))
  }

  /** Every label that is due carries the truth, and no label is decided before it is due. */
  ghost predicate RowTrue(r: Row, h: seq<Sample>, now: nat, due: nat, c: Config) {
    && Shaped(r, c)
    && r.midX2 == MidAt(h, r.ns, |h|)
    && (forall k | 0 <= k < |c.markoutNs| ::
          r.markout[k] == if Reached(r.ns, r.ns + c.markoutNs[k], now, due)
                          then Some(MidAt(h, r.ns + c.markoutNs[k], |h|) - r.midX2) else None)
    && r.nextMove == FirstMove(h, r.ns, r.ns + c.horizonNs, r.midX2, |h|)
    && SideTrue(true, r.ns, r.midX2, r.bid, h, now, due, c)
    && SideTrue(false, r.ns, r.midX2, r.ask, h, now, due, c)
  }

  lemma {:induction false} MidAtLate(h: seq<Sample>, t: nat)
    requires Rising(h) && LastNs(h) <= t
    ensures MidAt(h, t, |h|) == LastMid(h)
  {
  }

  lemma {:induction false} HistoryGrows(h: seq<Sample>, x: Sample, t: nat, n: nat)
    requires n <= |h|
    ensures MidAt(h + [x], t, n) == MidAt(h, t, n)
  {
    if n > 0 {
      HistoryGrows(h, x, t, n - 1);
    }
  }

  lemma {:induction false} MovesGrow(h: seq<Sample>, x: Sample, ns: nat, cap: nat, bid: bool, midX2: int, threshold: int, n: nat)
    requires n <= |h|
    ensures FirstMove(h + [x], ns, cap, midX2, n) == FirstMove(h, ns, cap, midX2, n)
    ensures FirstAdverse(h + [x], ns, cap, bid, midX2, threshold, n) == FirstAdverse(h, ns, cap, bid, midX2, threshold, n)
  {
    if n > 0 {
      MovesGrow(h, x, ns, cap, bid, midX2, threshold, n - 1);
    }
  }

  /** Records before the row cannot have moved it. */
  lemma {:induction false} NoMoveBefore(h: seq<Sample>, ns: nat, cap: nat, bid: bool, midX2: int, threshold: int, n: nat)
    requires n <= |h| && forall i | 0 <= i < n :: h[i].ns <= ns
    ensures FirstMove(h, ns, cap, midX2, n).None? && FirstAdverse(h, ns, cap, bid, midX2, threshold, n).None?
  {
    if n > 0 {
      NoMoveBefore(h, ns, cap, bid, midX2, threshold, n - 1);
    }
  }

  /** The latest mid is already reflected in every row: reapplying it changes nothing. */
  lemma LatestMidReflected(r: Row, h: seq<Sample>, now0: nat, due0: nat, now: nat, c: Config)
    requires c.Ok() && Rising(h) && RowTrue(r, h, now0, due0, c) && LastNs(h) <= now
    ensures ApplyMidMove(r, LastMid(h), now, c) == r
  {
    if LastNs(h) <= r.ns {
      MidAtLate(h, r.ns);
    }
  }

  /** Between records the call before the next one decides, with the latest mid, exactly the deadlines
      passed since. */
  lemma QuietCallKeepsTruth(r: Row, h: seq<Sample>, now0: nat, due0: nat, now: nat, due: nat, c: Config)
    requires c.Ok() && Rising(h) && RowTrue(r, h, now0, due0, c)
    requires LastNs(h) <= due0 <= now0 <= now && due0 <= due <= now
    ensures RowTrue(EagerRow(r, now, due, LastMid(h), c), h, now, due, c)
  {
    if r.ns < now {
      LatestMidReflected(r, h, now0, due0, now, c);
      QuietMarkouts(r, h, now0, due0, now, due, c);
      QuietSide(true, r.ns, r.midX2, r.bid, h, now0, due0, now, due, c);
      QuietSide(false, r.ns, r.midX2, r.ask, h, now0, due0, now, due, c);
    } else {
      UnbornStaysTrue(r, h, now0, due0, now, due, c);
    }
  }

  /** Nothing is due of a row placed at this very stamp. */
  lemma UnbornStaysTrue(r: Row, h: seq<Sample>, now0: nat, due0: nat, now: nat, due: nat, c: Config)
    requires c.Ok() && RowTrue(r, h, now0, due0, c) && now0 <= now <= r.ns && due0 <= due <= now
    ensures RowTrue(r, h, now, due, c)
  {
  }

  lemma {:induction false} QuietMarkouts(r: Row, h: seq<Sample>, now0: nat, due0: nat, now: nat, due: nat, c: Config)
    requires Rising(h) && RowTrue(r, h, now0, due0, c) && r.ns < now
    requires LastNs(h) <= due0 <= now0 <= now && due0 <= due
    ensures forall k | 0 <= k < |c.markoutNs| ::
              DecideMarkouts(r, due, LastMid(h), c)[k] == if Reached(r.ns, r.ns + c.markoutNs[k], now, due)
              then Some(MidAt(h, r.ns + c.markoutNs[k], |h|) - r.midX2) else None
  {
    forall k | 0 <= k < |c.markoutNs|
      ensures DecideMarkouts(r, due, LastMid(h), c)[k] == if Reached(r.ns, r.ns + c.markoutNs[k], now, due)
              then Some(MidAt(h, r.ns + c.markoutNs[k], |h|) - r.midX2) else None
    {
      if LastNs(h) <= r.ns + c.markoutNs[k] {
        MidAtLate(h, r.ns + c.markoutNs[k]);
      }
    }
  }

  lemma QuietSide(bid: bool, ns: nat, midX2: int, s: SideState, h: seq<Sample>, now0: nat, due0: nat, now: nat, due: nat, c: Config)
    requires c.Ok() && Rising(h) && SideTrue(bid, ns, midX2, s, h, now0, due0, c) && ns < now
    requires LastNs(h) <= due0 <= now0 <= now && due0 <= due
    ensures SideTrue(bid, ns, midX2, DecideSide(bid, ns, s, due, LastMid(h), c), h, now, due, c)
  {
    var d := DecideSide(bid, ns, s, due, LastMid(h), c);
    var past := Reached(ns, ns + c.horizonNs, now, due);
    forall k | 0 <= k < |c.postfillNs| ensures d.postfill[k] == PostFillTruth(bid, d, h, past, due, c.postfillNs[k]) {
      if LastNs(h) <= s.fill.fullNs + c.postfillNs[k] {
        MidAtLate(h, s.fill.fullNs + c.postfillNs[k]);
      }
    }
  }

  lemma Appended(h: seq<Sample>, x: Sample)
    requires Rising(h) && LastNs(h) < x.ns
    ensures Rising(h + [x]) && LastNs(h + [x]) == x.ns && LastMid(h + [x]) == x.midX2
  {
  }

  /** The mid in force once one more record is known. */
  lemma MidAtAppended(h: seq<Sample>, x: Sample, t: nat)
    ensures MidAt(h + [x], t, |h| + 1) == if x.ns <= t then x.midX2 else MidAt(h, t, |h|)
  {
    HistoryGrows(h, x, t, |h|);
  }

  /** Applying the mid of a new record extends the row's first move and first adverse move by it. */
  lemma RecordMovesSide(bid: bool, r: Row, s: SideState, h: seq<Sample>, x: Sample, due: nat, c: Config)
    requires c.Ok() && Rising(h) && LastNs(h) < x.ns && r.ns < x.ns && due < x.ns
    requires SideTrue(bid, r.ns, r.midX2, s, h, x.ns, due, c)
    ensures var moved := if x.midX2 == r.midX2 || x.ns > r.ns + c.horizonNs then s else MoveSide(bid, r, s, x.midX2, x.ns, c);
            SideTrue(bid, r.ns, r.midX2, moved, h + [x], x.ns, due, c)
  {
    MovesGrow(h, x, r.ns, r.ns + c.horizonNs, bid, r.midX2, c.threshold, |h|);
    var moved := if x.midX2 == r.midX2 || x.ns > r.ns + c.horizonNs then s else MoveSide(bid, r, s, x.midX2, x.ns, c);
    forall k | 0 <= k < |c.postfillNs|
      ensures moved.postfill[k] == PostFillTruth(bid, moved, h + [x], Reached(r.ns, r.ns + c.horizonNs, x.ns, due), due, c.postfillNs[k])
    {
      MidAtAppended(h, x, s.fill.fullNs + c.postfillNs[k]);
    }
  }

  lemma RecordMovesRow(r: Row, h: seq<Sample>, x: Sample, due: nat, c: Config)
    requires c.Ok() && Rising(h) && LastNs(h) < x.ns && r.ns < x.ns && due < x.ns
    requires RowTrue(r, h, x.ns, due, c)
    ensures RowTrue(ApplyMidMove(r, x.midX2, x.ns, c), h + [x], x.ns, due, c)
  {
    RecordMovesSide(true, r, r.bid, h, x, due, c);
    RecordMovesSide(false, r, r.ask, h, x, due, c);
    MovesGrow(h, x, r.ns, r.ns + c.horizonNs, true, r.midX2, c.threshold, |h|);
    MidAtAppended(h, x, r.ns);
    forall k | 0 <= k < |c.markoutNs|
      ensures r.ns + c.markoutNs[k] <= due ==> MidAt(h + [x], r.ns + c.markoutNs[k], |h| + 1) == MidAt(h, r.ns + c.markoutNs[k], |h|)
    {
      MidAtAppended(h, x, r.ns + c.markoutNs[k]);
    }
  }

  /** The call after a record decides the deadlines equal to its stamp with the mid it left. */
  lemma RecordCallKeepsTruth(r: Row, h: seq<Sample>, x: Sample, c: Config)
    requires c.Ok() && Rising(h) && LastNs(h) < x.ns && r.ns < x.ns
    requires RowTrue(r, h, x.ns, x.ns - 1, c)
    ensures RowTrue(EagerRow(r, x.ns, x.ns, x.midX2, c), h + [x], x.ns, x.ns, c)
  {
    Appended(h, x);
    RecordMovesRow(r, h, x, x.ns - 1, c);
    SettledNow(r, h + [x], x, c);
  }

  /** A row that has reacted to the latest record, rechecked at its stamp. */
  lemma SettledNow(r: Row, h: seq<Sample>, x: Sample, c: Config)
    requires c.Ok() && Rising(h) && LastNs(h) == x.ns > 0 && LastMid(h) == x.midX2 && r.ns < x.ns && Shaped(r, c)
    requires RowTrue(ApplyMidMove(r, x.midX2, x.ns, c), h, x.ns, x.ns - 1, c)
    ensures RowTrue(EagerRow(r, x.ns, x.ns, x.midX2, c), h, x.ns, x.ns, c)
  {
    DueNowRow(ApplyMidMove(r, x.midX2, x.ns, c), h, c);
  }

  lemma {:induction false} DueNowRow(r: Row, h: seq<Sample>, c: Config)
    requires c.Ok() && Rising(h) && LastNs(h) > 0 && RowTrue(r, h, LastNs(h), LastNs(h) - 1, c) && r.ns < LastNs(h)
    ensures RowTrue(Decide(r, LastNs(h), LastMid(h), c), h, LastNs(h), LastNs(h), c)
  {
    DueNowMarkouts(r, h, c);
    DueNowSide(true, r.ns, r.midX2, r.bid, h, c);
    DueNowSide(false, r.ns, r.midX2, r.ask, h, c);
  }

  lemma {:induction false} DueNowMarkouts(r: Row, h: seq<Sample>, c: Config)
    requires Rising(h) && LastNs(h) > 0 && RowTrue(r, h, LastNs(h), LastNs(h) - 1, c) && r.ns < LastNs(h)
    ensures forall k | 0 <= k < |c.markoutNs| ::
              DecideMarkouts(r, LastNs(h), LastMid(h), c)[k] == if Reached(r.ns, r.ns + c.markoutNs[k], LastNs(h), LastNs(h))
              then Some(MidAt(h, r.ns + c.markoutNs[k], |h|) - r.midX2) else None
  {
    MidAtLate(h, LastNs(h));
  }

  lemma {:induction false} DueNowSide(bid: bool, ns: nat, midX2: int, s: SideState, h: seq<Sample>, c: Config)
    requires c.Ok() && Rising(h) && LastNs(h) > 0 && ns < LastNs(h)
    requires SideTrue(bid, ns, midX2, s, h, LastNs(h), LastNs(h) - 1, c)
    ensures SideTrue(bid, ns, midX2, DecideSide(bid, ns, s, LastNs(h), LastMid(h), c), h, LastNs(h), LastNs(h), c)
  {
    MidAtLate(h, LastNs(h));
    var d := DecideSide(bid, ns, s, LastNs(h), LastMid(h), c);
    var past := Reached(ns, ns + c.horizonNs, LastNs(h), LastNs(h));
    forall k | 0 <= k < |c.postfillNs| ensures d.postfill[k] == PostFillTruth(bid, d, h, past, LastNs(h), c.postfillNs[k]) {
      assert s.postfill[k] == PostFillTruth(bid, s, h, Reached(ns, ns + c.horizonNs, LastNs(h), LastNs(h) - 1), LastNs(h) - 1, c.postfillNs[k]);
    }
  }

  function NewSide(quote: int, queue: int, c: Config): SideState {
    SideState(NativeSide(quote, queue, 0, false, false, 0), 0, seq(|c.fillNs|, _ => None), None, Undecided, false, 0,
              seq(|c.postfillNs|, _ => Undone), 0, 0)
  }

  /** emit_sample: a row placed at the grid instant, with its soonest deadline. */
  function NewRow(ns: nat, midX2: int, bidPrice: int, bidQty: int, askPrice: int, askQty: int, c: Config): Row {
    var r := Row(ns, midX2, seq(|c.markoutNs|, _ => None), None, NewSide(bidPrice, bidQty, c), NewSide(askPrice, askQty, c), true, Never);
    r.(nextDeadline := Fresh(r, c))
  }

  /** A row placed on the latest mid starts out true. */
  lemma NewRowIsTrue(ns: nat, h: seq<Sample>, bidPrice: int, bidQty: int, askPrice: int, askQty: int, c: Config)
    requires c.Ok() && Rising(h) && LastNs(h) <= ns
    ensures RowTrue(NewRow(ns, LastMid(h), bidPrice, bidQty, askPrice, askQty, c), h, ns, ns, c)
  {
    MidAtLate(h, ns);
    NewSideIsTrue(true, ns, h, bidPrice, bidQty, c);
    NewSideIsTrue(false, ns, h, askPrice, askQty, c);
    NoMoveBefore(h, ns, ns + c.horizonNs, true, LastMid(h), c.threshold, |h|);
  }

  lemma NewSideIsTrue(bid: bool, ns: nat, h: seq<Sample>, quote: int, queue: int, c: Config)
    requires c.Ok() && Rising(h) && LastNs(h) <= ns
    ensures SideTrue(bid, ns, LastMid(h), NewSide(quote, queue, c), h, ns, ns, c)
  {
    NoMoveBefore(h, ns, ns + c.horizonNs, bid, LastMid(h), c.threshold, |h|);
  }

  lemma NewRowCache(ns: nat, midX2: int, bidPrice: int, bidQty: int, askPrice: int, askQty: int, lastDue: nat, c: Config)
    requires c.Ok()
    ensures var r := NewRow(ns, midX2, bidPrice, bidQty, askPrice, askQty, c);
            CacheOk(r, lastDue, c) && r.nextDeadline.At?
  {
    var r := NewRow(ns, midX2, bidPrice, bidQty, askPrice, askQty, c);
    assert MarkoutHorizons(r, c) == MarkoutHorizons(r.(nextDeadline := Never), c);
    NeverIffDecided(r, c);
  }
}
