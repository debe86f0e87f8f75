/** What the records of a segment say about the rows sampled in it (cpp/replay/event_replayer.cpp:142-315,
    cpp/research/native_dataset_exporter.cpp:272-283, 590-676, 747-767, 980-1017): the mids of the whole
    segment decide every label whose deadline the segment reaches, and no other. */
module NativeSegments {
  import opened Wrappers
  import opened OrderBooks
  import opened NativeRows
  import opened NativeTruth
  import opened NativeTracking
  import opened NativePassives
  import opened NativeLives
  import opened NativeFills
  import opened Replays

  /** The history of a stretch of records: the mid each of them left. */
  ghost function Mids(rs: seq<Record>, first: nat, upto: nat): (h: seq<Sample>)
    requires first <= upto <= |rs|
    ensures |h| == upto - first && forall k | 0 <= k < |h| :: h[k] == Sample(rs[first + k].local, MidOf(rs[first + k].book))
  {
    seq(upto - first, k requires 0 <= k < upto - first => Sample(rs[first + k].local, MidOf(rs[first + k].book)))
  }

  function MidOf(book: Book): int {
    if book.TwoSided() then book.MidX2() else 0
  }

  lemma MidsGrow(rs: seq<Record>, first: nat, upto: nat)
    requires first <= upto < |rs|
    ensures Mids(rs, first, upto + 1) == Mids(rs, first, upto) + [Sample(rs[upto].local, MidOf(rs[upto].book))]
  {
  }

  /** This exporter ends its segment on a refused depth message, and leaves the record that opens a
      segment to the next one. */
  const HABITS: Habits := Habits(true, false)

  /** How far a segment decides labels: up to the last record of the input, or to just before the record
      that ends it. */
  ghost function Reach(rs: seq<Record>, last: nat): nat
    requires 0 < last <= |rs|
  {
    if last < |rs| then Before(rs[last].local) else rs[last - 1].local
  }

  /** Where the segment of a row placed after record from - 1 ends. */
  ghost function EndOf(rs: seq<Record>, from: nat): nat
    requires 0 < from <= |rs|
  {
    LastOf(rs, from, HABITS)
  }

  /** A written row is true to the records. It was placed in a segment that runs from record `first` to where
      the segment of its own record ends, and its orders rest at the touch of the book then shown. Each label
      whose deadline that segment reaches is what the mids of the whole segment say, and no other label is
      decided. Its fills are those of the prints of the segment from then on, and its races what all the
      events from then on make of it alone. */
  ghost predicate TrueTo(r: Row, rs: seq<Record>, first: nat, from: nat, c: Config) {
    && PlacedAfter(r.ns, rs, from)
    && var last := EndOf(rs, from);
       && OneSegment(rs, first, last, HABITS) && rs[first].local <= r.ns
       && RowTrue(r, Mids(rs, first, last), EndStamp(rs, last), Reach(rs, last), c)
       && Rests(r, rs[from - 1].book) && Filled(r, rs, from, Whole(rs, last), c)
       && LivedFrom(Bare(r), rs, from, Whole(rs, last), c)
  }

  ghost predicate TrueRow(r: Row, rs: seq<Record>, c: Config) {
    exists first: nat, from: nat :: TrueTo(r, rs, first, from, c)
  }

  /** Deadline d of a row lies inside the segment it was placed in. */
  ghost predicate Inside(r: Row, d: nat, rs: seq<Record>, from: nat)
    requires 0 < from <= |rs|
  {
    r.ns < EndStamp(rs, EndOf(rs, from)) && d <= Reach(rs, EndOf(rs, from))
  }

  /** The mid in force at t in the segment of a row. */
  ghost function MidAfter(rs: seq<Record>, first: nat, from: nat, t: nat): int
    requires 0 < from <= |rs| && first <= EndOf(rs, from)
  {
    var h := Mids(rs, first, EndOf(rs, from));
    MidAt(h, t, |h|)
  }

  /** So a label of a written row is decided if and only if its deadline lies inside the segment, and then
      a markout is the mid in force at its deadline against the mid the row was placed on. */
  lemma DecidedIffInside(r: Row, rs: seq<Record>, first: nat, from: nat, c: Config)
    requires TrueTo(r, rs, first, from, c)
    ensures MarkoutsInside(r, rs, first, from, c) && SideDecidedInside(r, r.bid, rs, from, c) && SideDecidedInside(r, r.ask, rs, from, c)
  {
    var last := EndOf(rs, from);
    MarkoutsDecided(r, Mids(rs, first, last), rs, first, from, c);
    SideDecidedThere(r, true, r.bid, Mids(rs, first, last), rs, from, c);
    SideDecidedThere(r, false, r.ask, Mids(rs, first, last), rs, from, c);
  }

  ghost predicate MarkoutsInside(r: Row, rs: seq<Record>, first: nat, from: nat, c: Config)
    requires 0 < from <= |rs| && first <= EndOf(rs, from)
  {
    |r.markout| == |c.markoutNs| && forall k | 0 <= k < |c.markoutNs| ::
      && (r.markout[k].Some? <==> Inside(r, r.ns + c.markoutNs[k], rs, from))
      && (r.markout[k].Some? ==> r.markout[k].value == MidAfter(rs, first, from, r.ns + c.markoutNs[k]) - MidAfter(rs, first, from, r.ns))
  }

  lemma MarkoutsDecided(r: Row, h: seq<Sample>, rs: seq<Record>, first: nat, from: nat, c: Config)
    requires 0 < from <= |rs| && first <= EndOf(rs, from) && h == Mids(rs, first, EndOf(rs, from))
    requires RowTrue(r, h, EndStamp(rs, EndOf(rs, from)), Reach(rs, EndOf(rs, from)), c)
    ensures MarkoutsInside(r, rs, first, from, c)
  {
  }

  /** The labels of a side: whether it was filled by each horizon and how much by the widest, which of fill
      and adverse move came first, and the mid some time after the fill. */
  ghost predicate SideDecidedInside(r: Row, s: SideState, rs: seq<Record>, from: nat, c: Config)
    requires 0 < from <= |rs|
  {
    && |s.fillFlag| == |c.fillNs| && (s.filledAtHorizon.Some? <==> Inside(r, r.ns + c.horizonNs, rs, from))
    && (forall k | 0 <= k < |c.fillNs| :: s.fillFlag[k].Some? <==> Inside(r, r.ns + c.fillNs[k], rs, from))
    && (s.race != Undecided <==> s.fill.fullFilled || s.adverse || Inside(r, r.ns + c.horizonNs, rs, from))
    && |s.postfill| == |c.postfillNs| && forall k | 0 <= k < |c.postfillNs| ::
         s.postfill[k] != Undone <==> if s.fill.fullFilled then Inside(r, s.fill.fullNs + c.postfillNs[k], rs, from)
                                      else Inside(r, r.ns + c.horizonNs, rs, from)
  }

  lemma SideDecidedThere(r: Row, bid: bool, s: SideState, h: seq<Sample>, rs: seq<Record>, from: nat, c: Config)
    requires 0 < from <= |rs| && SideTrue(bid, r.ns, r.midX2, s, h, EndStamp(rs, EndOf(rs, from)), Reach(rs, EndOf(rs, from)), c)
    ensures SideDecidedInside(r, s, rs, from, c)
  {
  }

  /** What is due while record `at` is replayed: everything before its stamp, then its stamp as well. */
  ghost function DueAt(rs: seq<Record>, upto: nat, at: nat): nat
    requires at < |rs|
  {
    if upto == at then Before(rs[at].local) else rs[at].local
  }

  /** The segment ends with this record, or the replay does. */
  ghost predicate EndsAt(rs: seq<Record>, upto: nat, at: nat)
    requires at < |rs|
  {
    upto == |rs| || (upto == at && !Survives(rs, at, HABITS))
  }

  /** A row written at record `at`: it has lived through the events told by then, its evidence is the mids
      of the stretch as of that record, and it was cut off only where its segment ends. */
  ghost predicate Drawn(r: Row, a: Option<Audit>, rs: seq<Record>, first: nat, from: nat, upto: nat, at: nat, told: nat, cut: bool, c: Config) {
    && at < |rs| && at <= upto <= at + 1 && at <= told <= at + 1 && OneSegment(rs, first, upto, HABITS) && rs[first].local <= r.ns
    && from <= upto && LivedFrom(Bare(r), rs, from, told, c)
    && a == Some(Audit(Mids(rs, first, upto), rs[at].local, DueAt(rs, upto, at), cut))
    && (cut ==> told == at + 1 && EndsAt(rs, upto, at))
  }

  ghost predicate Grounded(r: Row, a: Option<Audit>, rs: seq<Record>, c: Config) {
    exists first: nat, from: nat, upto: nat, at: nat, told: nat, cut: bool :: Drawn(r, a, rs, first, from, upto, at, told, cut, c)
  }

  lemma {:induction false} MidAtStays(h: seq<Sample>, g: seq<Sample>, t: nat)
    requires h <= g && forall k | |h| <= k < |g| :: t < g[k].ns
    ensures MidAt(g, t, |g|) == MidAt(h, t, |h|)
    decreases |g|
  {
    if |g| > |h| {
      var front := g[..|g| - 1];
      MidAtStays(h, front, t);
      HistoryGrows(front, g[|g| - 1], t, |front|);
      assert front + [g[|g| - 1]] == g;
    } else {
      assert h == g;
    }
  }

  lemma {:induction false} MovesStay(h: seq<Sample>, g: seq<Sample>, ns: nat, cap: nat, bid: bool, midX2: int, threshold: int)
    requires h <= g && forall k | |h| <= k < |g| :: cap < g[k].ns
    ensures FirstMove(g, ns, cap, midX2, |g|) == FirstMove(h, ns, cap, midX2, |h|)
    ensures FirstAdverse(g, ns, cap, bid, midX2, threshold, |g|) == FirstAdverse(h, ns, cap, bid, midX2, threshold, |h|)
    decreases |g|
  {
    if |g| > |h| {
      var front := g[..|g| - 1];
      MovesStay(h, front, ns, cap, bid, midX2, threshold);
      MovesGrow(front, g[|g| - 1], ns, cap, bid, midX2, threshold, |front|);
      assert front + [g[|g| - 1]] == g;
    } else {
      assert h == g;
    }
  }

  /** What comes after everything of a row is decided leaves all of it true. */
  lemma SideStaysTrue(bid: bool, ns: nat, midX2: int, s: SideState, h: seq<Sample>, g: seq<Sample>, now: nat, due: nat,
                      later: nat, reach: nat, c: Config)
    requires SideTrue(bid, ns, midX2, s, h, now, due, c) && SideDecided(s) && now <= later && due <= reach
    requires h <= g && forall k | |h| <= k < |g| :: due < g[k].ns
    ensures SideTrue(bid, ns, midX2, s, g, later, reach, c)
  {
    MovesStay(h, g, ns, ns + c.horizonNs, bid, midX2, c.threshold);
    forall k | 0 <= k < |c.postfillNs|
      ensures s.postfill[k] == PostFillTruth(bid, s, g, Reached(ns, ns + c.horizonNs, later, reach), reach, c.postfillNs[k])
    {
      if s.fill.fullFilled {
        MidAtStays(h, g, s.fill.fullNs + c.postfillNs[k]);
      }
    }
  }

  lemma RowStaysTrue(r: Row, h: seq<Sample>, g: seq<Sample>, now: nat, due: nat, later: nat, reach: nat, c: Config)
    requires RowTrue(r, h, now, due, c) && FullyDecided(r) && now <= later && due <= reach
    requires h <= g && forall k | |h| <= k < |g| :: due < g[k].ns
    ensures RowTrue(r, g, later, reach, c)
  {
    SideStaysTrue(true, r.ns, r.midX2, r.bid, h, g, now, due, later, reach, c);
    SideStaysTrue(false, r.ns, r.midX2, r.ask, h, g, now, due, later, reach, c);
    MidAtStays(h, g, r.ns);
    MovesStay(h, g, r.ns, r.ns + c.horizonNs, true, r.midX2, c.threshold);
    forall k | 0 <= k < |c.markoutNs| ensures MidAt(g, r.ns + c.markoutNs[k], |g|) == MidAt(h, r.ns + c.markoutNs[k], |h|) {
      assert r.markout[k].Some?;
      MidAtStays(h, g, r.ns + c.markoutNs[k]);
    }
  }

  /** A row cut off at the end of its segment carries the truth of the whole segment as it stands. */
  lemma CutIsTrue(r: Row, rs: seq<Record>, first: nat, from: nat, upto: nat, at: nat, c: Config)
    requires at < |rs| && at <= upto <= at + 1 && OneSegment(rs, first, upto, HABITS) && rs[first].local <= r.ns && StampsRise(rs)
    requires from <= upto && LivedFrom(Bare(r), rs, from, at + 1, c) && EndsAt(rs, upto, at)
    requires RowTrue(r, Mids(rs, first, upto), rs[at].local, DueAt(rs, upto, at), c)
    ensures TrueTo(r, rs, first, from, c)
  {
    OwnSegment(r.ns, rs, first, from, upto);
    EndsThere(rs, from, upto, at);
    RowTells(r, rs, from, at + 1, c);
  }

  lemma EndsThere(rs: seq<Record>, from: nat, upto: nat, at: nat)
    requires at < |rs| && at <= upto <= at + 1 && 0 < from <= |rs| && EndOf(rs, from) == upto > 0 && EndsAt(rs, upto, at)
    ensures EndStamp(rs, upto) == rs[at].local && Reach(rs, upto) == DueAt(rs, upto, at) && Whole(rs, upto) == at + 1
  {
  }

  /** A row belongs to the segment its mids are drawn from. */
  lemma OwnSegment(ns: nat, rs: seq<Record>, first: nat, from: nat, upto: nat)
    requires StampsRise(rs) && OneSegment(rs, first, upto, HABITS) && rs[first].local <= ns && PlacedAfter(ns, rs, from) && from <= upto
    ensures first < from && EndOf(rs, from) >= upto && (upto == |rs| || !Survives(rs, upto, HABITS) ==> EndOf(rs, from) == upto)
    ensures OneSegment(rs, first, EndOf(rs, from), HABITS)
  {
    LastIsFirst(rs, from, upto, HABITS);
  }

  /** And one written with nothing left to decide stays true to the end of it. */
  lemma DoneIsTrue(r: Row, rs: seq<Record>, first: nat, from: nat, upto: nat, at: nat, told: nat, c: Config)
    requires at < |rs| && at <= upto <= at + 1 && at <= told <= at + 1 && OneSegment(rs, first, upto, HABITS) && rs[first].local <= r.ns
    requires StampsRise(rs) && from <= upto && LivedFrom(Bare(r), rs, from, told, c) && FullyDecided(r)
    requires RowTrue(r, Mids(rs, first, upto), rs[at].local, DueAt(rs, upto, at), c)
    ensures TrueTo(r, rs, first, from, c)
  {
    OwnSegment(r.ns, rs, first, from, upto);
    HorizonPassed(r, Mids(rs, first, upto), rs[at].local, DueAt(rs, upto, at), c);
    DoneStays(r, rs, first, upto, at, EndOf(rs, from), c);
    LivesToTheEnd(r, rs, from, upto, at, told, EndOf(rs, from), c);
    RowTells(r, rs, from, Whole(rs, EndOf(rs, from)), c);
  }

  lemma HorizonPassed(r: Row, h: seq<Sample>, now: nat, due: nat, c: Config)
    requires RowTrue(r, h, now, due, c) && FullyDecided(r)
    ensures !r.watching && r.ns + c.horizonNs <= due
  {
  }

  lemma DoneStays(r: Row, rs: seq<Record>, first: nat, upto: nat, at: nat, last: nat, c: Config)
    requires StampsRise(rs) && at < |rs| && at <= upto <= at + 1 && first < upto <= last <= |rs| && (last < |rs| || last > at)
    requires RowTrue(r, Mids(rs, first, upto), rs[at].local, DueAt(rs, upto, at), c) && FullyDecided(r)
    ensures RowTrue(r, Mids(rs, first, last), EndStamp(rs, last), Reach(rs, last), c)
  {
    Bounds(rs, first, upto, at, last);
    RowStaysTrue(r, Mids(rs, first, upto), Mids(rs, first, last), rs[at].local, DueAt(rs, upto, at), EndStamp(rs, last), Reach(rs, last), c);
  }

  lemma LivesToTheEnd(r: Row, rs: seq<Record>, from: nat, upto: nat, at: nat, told: nat, last: nat, c: Config)
    requires StampsRise(rs) && at < |rs| && at <= upto <= at + 1 && at <= told <= at + 1 && upto <= last <= |rs|
    requires LivedFrom(Bare(r), rs, from, told, c) && !r.watching && r.ns + c.horizonNs <= DueAt(rs, upto, at)
    ensures LivedFrom(Bare(r), rs, from, Whole(rs, last), c)
  {
    LivesLonger(r, rs, from, told, Whole(rs, last), c);
  }

  lemma Bounds(rs: seq<Record>, first: nat, upto: nat, at: nat, last: nat)
    requires StampsRise(rs) && at < |rs| && at <= upto <= at + 1 && first < upto <= last <= |rs|
    requires last < |rs| || last > at
    ensures rs[at].local <= EndStamp(rs, last) && DueAt(rs, upto, at) <= Reach(rs, last)
    ensures Mids(rs, first, upto) <= Mids(rs, first, last)
    ensures forall k | upto <= k < last :: DueAt(rs, upto, at) < rs[k].local
  {
    assert rs[upto - 1].local <= rs[at].local;
    forall k | upto <= k < last ensures DueAt(rs, upto, at) < rs[k].local {
      assert rs[at].local <= rs[k].local && rs[upto - 1].local < rs[k].local;
    }
  }

  lemma DrawnIsTrue(r: Row, a: Option<Audit>, rs: seq<Record>, first: nat, from: nat, upto: nat, at: nat, told: nat, cut: bool, c: Config)
    requires StampsRise(rs) && AuditHolds(r, a, c) && Drawn(r, a, rs, first, from, upto, at, told, cut, c)
    ensures TrueTo(r, rs, first, from, c)
  {
    if cut {
      CutIsTrue(r, rs, first, from, upto, at, c);
    } else {
      DoneIsTrue(r, rs, first, from, upto, at, told, c);
    }
  }

  lemma GroundedIsTrue(r: Row, a: Option<Audit>, rs: seq<Record>, c: Config)
    requires StampsRise(rs) && AuditHolds(r, a, c) && Grounded(r, a, rs, c)
    ensures TrueRow(r, rs, c)
  {
    var first: nat, from: nat, upto: nat, at: nat, told: nat, cut: bool :| Drawn(r, a, rs, first, from, upto, at, told, cut, c);
    DrawnIsTrue(r, a, rs, first, from, upto, at, told, cut, c);
  }
}
