/** What the level observer's samples are to the records of a replay (cpp/research/level_lifecycle.cpp:
    214-275, 300-362, cpp/replay/event_replayer.cpp:142-315): which level each was taken of, when it left,
    and which prints it was held to. */
module LevelSampling {
  import opened Wrappers
  import opened OrderBooks
  import opened LevelEpisodes
  import opened LevelRows
  import opened LevelStretches
  import opened Replays

  ghost predicate Clean(rs: seq<Record>) {
    Sound(rs) && StampsOrdered(rs)
  }

  /** The prints a segment has seen before record `upto`: those of the records after the one that opened
      it. */
  ghost function Prints(rs: seq<Record>, first: nat, upto: nat): seq<Print>
    requires first < upto <= |rs|
    decreases upto
  {
    if upto == first + 1 then [] else Prints(rs, first, upto - 1) + if rs[upto - 1].event.Trade? then [PrintOf(rs[upto - 1])] else []
  }

  /** A sample taken between record from - 1 and the next: of the episode then current on its side, at the
      best price the book then showed there. */
  ghost predicate SampledAt(p: Pending, rs: seq<Record>, from: nat) {
    && 0 < from <= |rs| && Open(rs, from) && p.level == EpisodeAt(rs, from, p.bid)
    && Best(p.bid, rs[from - 1].book).Level? && p.price == Best(p.bid, rs[from - 1].book).price
    && rs[from - 1].local <= p.ns && (p.ns == rs[from - 1].local || (from < |rs| && p.ns < rs[from].local))
  }

  /** The levels after n records. */
  ghost function LevelsAt(rs: seq<Record>, n: nat): (ls: seq<Episode>)
    requires 0 < n <= |rs|
    ensures |ls| == 2
  {
    [EpisodeAt(rs, n, true), EpisodeAt(rs, n, false)]
  }

  /** A sample waiting between two records: only one taken with the last of them can have its widest horizon
      behind it. */
  ghost predicate Carried(p: Pending, rs: seq<Record>, start: nat, from: nat, i: nat, widest: nat)
    requires 0 < i <= |rs|
  {
    && start < from <= i && SampledAt(p, rs, from)
    && (rs[i - 1].local < p.ns + widest || from == i) && (from == i ==> p.ns == rs[i - 1].local)
  }

  /** And while record i is replayed: only one taken in the gap before it. */
  ghost predicate Waits(p: Pending, rs: seq<Record>, start: nat, from: nat, i: nat, widest: nat)
    requires 0 < i < |rs|
  {
    start < from <= i && SampledAt(p, rs, from) && (rs[i].local < p.ns + widest || (from == i && p.ns > rs[i - 1].local))
  }

  ghost predicate IsCarried(p: Pending, rs: seq<Record>, start: nat, i: nat, widest: nat)
    requires 0 < i <= |rs|
  {
    exists from: nat :: Carried(p, rs, start, from, i, widest)
  }

  ghost predicate IsWaiting(p: Pending, rs: seq<Record>, start: nat, i: nat, widest: nat)
    requires 0 < i < |rs|
  {
    exists from: nat :: Waits(p, rs, start, from, i, widest)
  }

  ghost predicate AllCarried(ps: seq<Pending>, rs: seq<Record>, start: nat, i: nat, widest: nat)
    requires 0 < i <= |rs|
  {
    forall k | 0 <= k < |ps| :: IsCarried(ps[k], rs, start, i, widest)
  }

  ghost predicate AllWait(ps: seq<Pending>, rs: seq<Record>, start: nat, i: nat, widest: nat)
    requires 0 < i < |rs|
  {
    forall k | 0 <= k < |ps| :: IsWaiting(ps[k], rs, start, i, widest)
  }

  /** Samples wait in the order they were taken. */
  ghost predicate InOrder(ps: seq<Pending>, last: nat) {
    (forall j, k | 0 <= j < k < |ps| :: ps[j].ns <= ps[k].ns) && forall k | 0 <= k < |ps| :: ps[k].ns <= last
  }

  /** How a row left: its widest horizon had passed by the stamp of the record being announced, or, taken in
      that very announcement, of the one just concluded; or its segment ended with a record, or with the
      input, before that was noticed. */
  ghost predicate Departed(r: Row, rs: seq<Record>, from: nat, end: nat, upto: nat, widest: nat)
    requires 0 < from <= end <= |rs|
  {
    var ns, over := r.pending.ns, r.pending.ns + widest;
    || (upto == end && r.edge == 0 && end < |rs| && rs[end].local >= over
        && (if from < end then rs[end - 1].local < over else ns == rs[end - 1].local))
    || (upto == end && r.edge == 0 && rs[end - 1].local >= over && from == end - 1 && ns > rs[from - 1].local)
    || (upto == end + 1 && end < |rs| && !Survives(rs, end, HABITS) && r.edge == rs[end].local
        && (rs[end].local < over || (from == end && ns > rs[end - 1].local)))
    || (upto == end == |rs| && r.edge == rs[end - 1].local && (rs[end - 1].local < over || from == end))
  }

  /** The prints a row was held to when it left are those of its segment up to then. */
  ghost predicate HeldTo(r: Row, a: Option<seq<Print>>, rs: seq<Record>, first: nat, from: nat, end: nat, upto: nat, widest: nat) {
    && OneSegment(rs, first, end, HABITS) && first < from <= end && SampledAt(r.pending, rs, from)
    && end <= upto <= |rs| && a == Some(Prints(rs, first, upto)) && Departed(r, rs, from, end, upto, widest)
  }

  ghost predicate Held(r: Row, a: Option<seq<Print>>, rs: seq<Record>, widest: nat) {
    exists first: nat, from: nat, end: nat, upto: nat :: HeldTo(r, a, rs, first, from, end, upto, widest)
  }

  ghost predicate AllHeld(rows: seq<Row>, evidence: seq<Option<seq<Print>>>, rs: seq<Record>, widest: nat) {
    |rows| == |evidence|
    && forall k {:trigger Held(rows[k], evidence[k], rs, widest)} | 0 <= k < |rows| :: Held(rows[k], evidence[k], rs, widest)
  }

  /** Samples due: in order, within the stretch of time, each of the level of its side. */
  ghost predicate NewSamples(ps: seq<Pending>, levels: seq<Episode>, lo: nat, hi: nat)
    requires |levels| == 2
  {
    (forall k | 0 <= k < |ps| :: NewSample(ps[k], levels, lo, hi)) && forall j, k | 0 <= j < k < |ps| :: ps[j].ns <= ps[k].ns
  }

  ghost predicate NewSample(p: Pending, levels: seq<Episode>, lo: nat, hi: nat)
    requires |levels| == 2
  {
    lo <= p.ns <= hi && p.level == levels[if p.bid then BID else ASK] && p.price == p.level.price
  }

  lemma {:induction false} DueAreNew(levels: seq<Episode>, next: nat, local: nat, inclusive: bool, step: nat, horizons: seq<nat>)
    requires step > 0 && |levels| == 2 && (inclusive || local > 0)
    ensures NewSamples(DueSamples(levels, next, local, inclusive, step, horizons), levels, next, if inclusive then local else local - 1)
    decreases local + 1 - next
  {
    if next < local || (inclusive && next == local) {
      var rest := DueSamples(levels, next + step, local, inclusive, step, horizons);
      DueAreNew(levels, next + step, local, inclusive, step, horizons);
      NewJoin(SamplesAt(levels, next, horizons), rest, levels, next, next + step, if inclusive then local else local - 1);
    }
  }

  lemma NewJoin(a: seq<Pending>, b: seq<Pending>, levels: seq<Episode>, lo: nat, mid: nat, hi: nat)
    requires |levels| == 2 && lo <= mid && lo <= hi && NewSamples(a, levels, lo, lo) && NewSamples(b, levels, mid, hi)
    ensures NewSamples(a + b, levels, lo, hi)
  {
    forall k | 0 <= k < |a + b| ensures NewSample((a + b)[k], levels, lo, hi) {
      if k < |a| {
        assert NewSample(a[k], levels, lo, lo);
      } else {
        assert NewSample(b[k - |a|], levels, mid, hi);
      }
    }
    forall j, k | 0 <= j < k < |a + b| ensures (a + b)[j].ns <= (a + b)[k].ns {
      assert j < |a| ==> NewSample(a[j], levels, lo, lo);
      assert k >= |a| ==> NewSample(b[k - |a|], levels, mid, hi);
    }
  }

  /** In order, the run of passed samples at the front is all of them. */
  lemma {:induction false} PassedIsAll(ps: seq<Pending>, widest: nat, local: nat, n: nat, last: nat)
    requires n <= |ps| && InOrder(ps, last)
    ensures var k := Passed(ps, widest, local, n);
            && (forall j | n <= j < k :: local >= ps[j].ns + widest) && forall j | k <= j < |ps| :: local < ps[j].ns + widest
    decreases |ps| - n
  {
    if n < |ps| && local >= ps[n].ns + widest {
      PassedIsAll(ps, widest, local, n + 1, last);
    }
  }

  /** A sample of the current levels, while their segment is open. */
  lemma NewIsSampled(p: Pending, rs: seq<Record>, from: nat, lo: nat, hi: nat)
    requires Clean(rs) && 0 < from <= |rs| && Open(rs, from) && NewSample(p, LevelsAt(rs, from), lo, hi)
    requires rs[from - 1].local <= lo && (hi == rs[from - 1].local || (from < |rs| && hi < rs[from].local))
    ensures SampledAt(p, rs, from)
  {
    EpisodeShows(rs, from, p.bid);
  }

  /** A sample that leaves when record i is announced is held to the prints so far; one that does not goes on
      waiting. */
  lemma PassedNow(p: Pending, rs: seq<Record>, start: nat, i: nat, widest: nat)
    requires 0 < i < |rs| && OneSegment(rs, start, i, HABITS) && IsCarried(p, rs, start, i, widest)
    ensures rs[i].local >= p.ns + widest ==> Held(Row(p, 0), Some(Prints(rs, start, i)), rs, widest)
    ensures rs[i].local < p.ns + widest ==> IsWaiting(p, rs, start, i, widest)
  {
    var from: nat :| Carried(p, rs, start, from, i, widest);
    if rs[i].local >= p.ns + widest {
      assert HeldTo(Row(p, 0), Some(Prints(rs, start, i)), rs, start, from, i, i, widest);
    } else {
      assert Waits(p, rs, start, from, i, widest);
    }
  }

  /** The same when a record is concluded that its segment outlives, */
  lemma PassedThen(p: Pending, rs: seq<Record>, start: nat, i: nat, widest: nat)
    requires 0 < i < |rs| && OneSegment(rs, start, i + 1, HABITS) && IsWaiting(p, rs, start, i, widest)
    ensures rs[i].local >= p.ns + widest ==> Held(Row(p, 0), Some(Prints(rs, start, i + 1)), rs, widest)
    ensures rs[i].local < p.ns + widest ==> IsCarried(p, rs, start, i + 1, widest)
  {
    var from: nat :| Waits(p, rs, start, from, i, widest);
    if rs[i].local >= p.ns + widest {
      assert HeldTo(Row(p, 0), Some(Prints(rs, start, i + 1)), rs, start, from, i + 1, i + 1, widest);
    } else {
      assert Carried(p, rs, start, from, i + 1, widest);
    }
  }

  /** when its segment ends with the record, */
  lemma CutThen(p: Pending, rs: seq<Record>, start: nat, i: nat, widest: nat)
    requires 0 < i < |rs| && OneSegment(rs, start, i, HABITS) && !Survives(rs, i, HABITS) && IsWaiting(p, rs, start, i, widest)
    ensures Held(Row(p, rs[i].local), Some(Prints(rs, start, i + 1)), rs, widest)
  {
    var from: nat :| Waits(p, rs, start, from, i, widest);
    assert HeldTo(Row(p, rs[i].local), Some(Prints(rs, start, i + 1)), rs, start, from, i, i + 1, widest);
  }

  /** and when the input ends. */
  lemma CutLast(p: Pending, rs: seq<Record>, start: nat, widest: nat)
    requires OneSegment(rs, start, |rs|, HABITS) && IsCarried(p, rs, start, |rs|, widest)
    ensures Held(Row(p, rs[|rs| - 1].local), Some(Prints(rs, start, |rs|)), rs, widest)
  {
    var from: nat :| Carried(p, rs, start, from, |rs|, widest);
    assert HeldTo(Row(p, rs[|rs| - 1].local), Some(Prints(rs, start, |rs|)), rs, start, from, |rs|, |rs|, widest);
  }

  /** What leaves joins the rows held to their prints. */
  lemma LeavingHeld(s: Samples, k: nat, edge: nat, prints: seq<Print>, rs: seq<Record>, widest: nat)
    requires k <= |s.pending| && AllHeld(s.rows, s.evidence, rs, widest)
    requires forall j | 0 <= j < k :: Held(Row(s.pending[j], edge), Some(prints), rs, widest)
    ensures var l := Left(s, k, edge, true, prints); AllHeld(l.rows, l.evidence, rs, widest)
  {
    var l := Left(s, k, edge, true, prints);
    forall j | 0 <= j < |l.rows| ensures Held(l.rows[j], l.evidence[j], rs, widest) {
      if j < |s.rows| {
        assert Held(s.rows[j], s.evidence[j], rs, widest);
      } else {
        assert l.rows[j] == Row(s.pending[j - |s.rows|], edge) && l.evidence[j] == Some(prints);
      }
    }
  }

  /** Announcing record i: what leaves is held to the prints so far, and what stays waits. */
  lemma AnnounceLeaves(s: Samples, k: nat, rs: seq<Record>, start: nat, i: nat, widest: nat)
    requires 0 < i < |rs| && OneSegment(rs, start, i, HABITS) && AllCarried(s.pending, rs, start, i, widest)
    requires InOrder(s.pending, rs[i - 1].local) && AllHeld(s.rows, s.evidence, rs, widest) && k == Passed(s.pending, widest, rs[i].local, 0)
    ensures var l := Left(s, k, 0, true, Prints(rs, start, i));
            AllHeld(l.rows, l.evidence, rs, widest) && AllWait(l.pending, rs, start, i, widest) && InOrder(l.pending, rs[i - 1].local)
  {
    PassedIsAll(s.pending, widest, rs[i].local, 0, rs[i - 1].local);
    forall j | 0 <= j < |s.pending|
      ensures if j < k then Held(Row(s.pending[j], 0), Some(Prints(rs, start, i)), rs, widest) else IsWaiting(s.pending[j], rs, start, i, widest)
    {
      PassedNow(s.pending[j], rs, start, i, widest);
    }
    LeavingHeld(s, k, 0, Prints(rs, start, i), rs, widest);
  }

  lemma AnnounceSamples(ps: seq<Pending>, due: seq<Pending>, rs: seq<Record>, start: nat, i: nat, widest: nat, next: nat)
    requires Clean(rs) && 0 < i < |rs| && OneSegment(rs, start, i, HABITS) && Open(rs, i) && next > rs[i - 1].local
    requires AllWait(ps, rs, start, i, widest) && InOrder(ps, rs[i - 1].local)
    requires if rs[i].local == 0 then due == [] else NewSamples(due, LevelsAt(rs, i), next, rs[i].local - 1)
    ensures AllWait(ps + due, rs, start, i, widest) && InOrder(ps + due, rs[i].local)
  {
    forall k | 0 <= k < |ps + due| ensures IsWaiting((ps + due)[k], rs, start, i, widest) {
      if k < |ps| {
        assert (ps + due)[k] == ps[k];
      } else {
        assert NewSample(due[k - |ps|], LevelsAt(rs, i), next, rs[i].local - 1);
        NewIsSampled(due[k - |ps|], rs, i, next, rs[i].local - 1);
        assert Waits((ps + due)[k], rs, start, i, i, widest);
      }
    }
    JoinInOrder(ps, due, rs[i - 1].local, rs[i].local);
  }

  lemma JoinInOrder(ps: seq<Pending>, due: seq<Pending>, mid: nat, last: nat)
    requires InOrder(ps, mid) && mid <= last && forall k | 0 <= k < |due| :: mid <= due[k].ns <= last
    requires forall j, k | 0 <= j < k < |due| :: due[j].ns <= due[k].ns
    ensures InOrder(ps + due, last)
  {
  }

  /** Concluding a record the segment outlives. */
  lemma ConcludeLeaves(s: Samples, k: nat, rs: seq<Record>, start: nat, i: nat, widest: nat)
    requires 0 < i < |rs| && OneSegment(rs, start, i + 1, HABITS) && AllWait(s.pending, rs, start, i, widest)
    requires InOrder(s.pending, rs[i].local) && AllHeld(s.rows, s.evidence, rs, widest) && k == Passed(s.pending, widest, rs[i].local, 0)
    ensures var l := Left(s, k, 0, true, Prints(rs, start, i + 1));
            AllHeld(l.rows, l.evidence, rs, widest) && AllCarried(l.pending, rs, start, i + 1, widest) && InOrder(l.pending, rs[i].local)
  {
    PassedIsAll(s.pending, widest, rs[i].local, 0, rs[i].local);
    forall j | 0 <= j < |s.pending|
      ensures if j < k then Held(Row(s.pending[j], 0), Some(Prints(rs, start, i + 1)), rs, widest)
              else IsCarried(s.pending[j], rs, start, i + 1, widest)
    {
      PassedThen(s.pending[j], rs, start, i, widest);
    }
    LeavingHeld(s, k, 0, Prints(rs, start, i + 1), rs, widest);
  }

  /** What a record that leaves a segment open, old or new, is sampled for. */
  lemma ConcludeSamples(ps: seq<Pending>, due: seq<Pending>, rs: seq<Record>, start: nat, i: nat, widest: nat, next: nat)
    requires Clean(rs) && i < |rs| && start <= i && Open(rs, i + 1) && next >= rs[i].local
    requires AllCarried(ps, rs, start, i + 1, widest) && InOrder(ps, rs[i].local) && NewSamples(due, LevelsAt(rs, i + 1), next, rs[i].local)
    ensures AllCarried(ps + due, rs, start, i + 1, widest) && InOrder(ps + due, rs[i].local)
  {
    forall k | 0 <= k < |ps + due| ensures IsCarried((ps + due)[k], rs, start, i + 1, widest) {
      if k < |ps| {
        assert (ps + due)[k] == ps[k];
      } else {
        assert NewSample(due[k - |ps|], LevelsAt(rs, i + 1), next, rs[i].local);
        NewIsSampled(due[k - |ps|], rs, i + 1, rs[i].local, rs[i].local);
        assert Carried((ps + due)[k], rs, start, i + 1, i + 1, widest);
      }
    }
    JoinInOrder(ps, due, rs[i].local, rs[i].local);
  }

  /** A segment that ends with record i. */
  lemma CutHeld(s: Samples, rs: seq<Record>, start: nat, i: nat, widest: nat)
    requires 0 < i < |rs| && OneSegment(rs, start, i, HABITS) && !Survives(rs, i, HABITS)
    requires AllWait(s.pending, rs, start, i, widest) && AllHeld(s.rows, s.evidence, rs, widest)
    ensures var l := Cut(s, true, Prints(rs, start, i + 1), rs[i].local); AllHeld(l.rows, l.evidence, rs, widest)
  {
    forall j | 0 <= j < |s.pending| ensures Held(Row(s.pending[j], rs[i].local), Some(Prints(rs, start, i + 1)), rs, widest) {
      CutThen(s.pending[j], rs, start, i, widest);
    }
    LeavingHeld(s, |s.pending|, rs[i].local, Prints(rs, start, i + 1), rs, widest);
  }

  /** And one that ends with the input. */
  lemma LastHeld(s: Samples, rs: seq<Record>, start: nat, widest: nat)
    requires OneSegment(rs, start, |rs|, HABITS)
    requires AllCarried(s.pending, rs, start, |rs|, widest) && AllHeld(s.rows, s.evidence, rs, widest)
    ensures var l := Cut(s, true, Prints(rs, start, |rs|), rs[|rs| - 1].local); AllHeld(l.rows, l.evidence, rs, widest)
  {
    forall j | 0 <= j < |s.pending| ensures Held(Row(s.pending[j], rs[|rs| - 1].local), Some(Prints(rs, start, |rs|)), rs, widest) {
      CutLast(s.pending[j], rs, start, widest);
    }
    LeavingHeld(s, |s.pending|, rs[|rs| - 1].local, Prints(rs, start, |rs|), rs, widest);
  }

  /** What an event does to waiting samples: at most their labels change. */
  ghost predicate SameSample(p: Pending, q: Pending) {
    q.ns == p.ns && q.bid == p.bid && q.price == p.price && q.level == p.level
  }

  lemma TellWaits(ps: seq<Pending>, qs: seq<Pending>, rs: seq<Record>, start: nat, i: nat, widest: nat)
    requires 0 < i < |rs| && AllWait(ps, rs, start, i, widest) && InOrder(ps, rs[i].local)
    requires |qs| == |ps| && forall k | 0 <= k < |ps| :: SameSample(ps[k], qs[k])
    ensures AllWait(qs, rs, start, i, widest) && InOrder(qs, rs[i].local)
  {
    forall k | 0 <= k < |qs| ensures IsWaiting(qs[k], rs, start, i, widest) {
      assert SameSample(ps[k], qs[k]) && IsWaiting(ps[k], rs, start, i, widest);
      var from: nat :| Waits(ps[k], rs, start, from, i, widest);
      assert Waits(qs[k], rs, start, from, i, widest);
    }
    forall j, k | 0 <= j < k < |qs| ensures qs[j].ns <= qs[k].ns {
      assert SameSample(ps[j], qs[j]) && SameSample(ps[k], qs[k]);
    }
  }

  /** The edge a row is marked with: the stamp its segment ends on, if its widest horizon lies beyond that, or
      if it was sampled too late for anything but the end to take it out; else none. */
  ghost function EdgeOf(ns: nat, rs: seq<Record>, from: nat, widest: nat): nat
    requires 0 < from <= |rs|
  {
    var last := LastOf(rs, from, HABITS);
    if EndStamp(rs, last) < ns + widest || (from == last && (last == |rs| || ns > rs[last - 1].local)) then EndStamp(rs, last) else 0
  }

  /** How many records a sample taken before record `from` has lived through when it leaves: it goes when a
      record that reaches its widest horizon is announced or, taken in that very announcement, concluded; or
      with its segment. */
  ghost function LeavesBy(ns: nat, rs: seq<Record>, from: nat, i: nat, widest: nat): (upto: nat)
    requires 0 < from <= i <= |rs|
    ensures i <= upto <= |rs|
    decreases |rs| - i
  {
    if i == |rs| then i
    else if rs[i].local >= ns + widest && (from < i || ns == rs[i - 1].local) then i
    else if rs[i].local >= ns + widest || !Survives(rs, i, HABITS) then i + 1
    else LeavesBy(ns, rs, from, i + 1, widest)
  }

  /** What is told after that comes when the widest horizon is over. */
  lemma {:induction false} LeavesLate(ns: nat, rs: seq<Record>, from: nat, i: nat, widest: nat)
    requires StampsOrdered(rs) && 0 < from <= i <= |rs|
    ensures var u, whole := LeavesBy(ns, rs, from, i, widest), Whole(rs, LastOf(rs, i, HABITS));
            u <= whole && (u < whole ==> rs[u].local >= ns + widest)
    decreases |rs| - i
  {
    if i < |rs| && rs[i].local < ns + widest && Survives(rs, i, HABITS) {
      LeavesLate(ns, rs, from, i + 1, widest);
    }
  }

  lemma {:induction false} DepartsThen(r: Row, rs: seq<Record>, from: nat, i: nat, end: nat, upto: nat, widest: nat)
    requires StampsOrdered(rs) && 0 < from <= i <= end <= |rs| && Departed(r, rs, from, end, upto, widest)
    requires (forall j | from <= j < end :: Survives(rs, j, HABITS)) && (i == from || rs[i - 1].local < r.pending.ns + widest)
    ensures LeavesBy(r.pending.ns, rs, from, i, widest) == upto
    decreases end - i
  {
    if i < end && rs[i].local < r.pending.ns + widest {
      DepartsThen(r, rs, from, i + 1, end, upto, widest);
    }
  }

  /** The prints of its segment a sample hears. */
  ghost function Heard(ns: nat, rs: seq<Record>, first: nat, from: nat, widest: nat): seq<Print>
    requires first < from <= |rs|
  {
    Prints(rs, first, LeavesBy(ns, rs, from, from, widest))
  }

  /** A row is true to its records: taken of the episode then current on its side, marked with the edge of
      its segment when that censors it, and with labels exact for the prints it heard. */
  ghost predicate Sees(r: Row, rs: seq<Record>, first: nat, from: nat, horizons: seq<nat>, widest: nat) {
    && SampledAt(r.pending, rs, from) && r.edge == EdgeOf(r.pending.ns, rs, from, widest)
    && first < from && OneSegment(rs, first, LastOf(rs, from, HABITS), HABITS)
    && Labelled(r.pending, Heard(r.pending.ns, rs, first, from, widest), horizons)
  }

  /** A label is left blank exactly when its segment ended, at a stamp other than zero, before its horizon
      was over. */
  lemma CensoredIff(r: Row, rs: seq<Record>, first: nat, from: nat, horizons: seq<nat>, widest: nat, horizon: nat)
    requires Sees(r, rs, first, from, horizons, widest) && horizon <= widest
    ensures Censored(r, horizon) <==> 0 < EndStamp(rs, LastOf(rs, from, HABITS)) < r.pending.ns + horizon
  {
  }

  ghost predicate SeesSegment(r: Row, rs: seq<Record>, horizons: seq<nat>, widest: nat) {
    exists first: nat, from: nat :: Sees(r, rs, first, from, horizons, widest)
  }

  /** All prints of the segment of a sample. */
  ghost function SegmentPrints(rs: seq<Record>, first: nat, from: nat): seq<Print>
    requires first < from <= |rs|
  {
    Prints(rs, first, Whole(rs, LastOf(rs, from, HABITS)))
  }

  lemma HeardFirst(p: Pending, rs: seq<Record>, first: nat, from: nat, widest: nat)
    requires StampsOrdered(rs) && first < from <= |rs|
    ensures var few, all := Heard(p.ns, rs, first, from, widest), SegmentPrints(rs, first, from);
            few <= all && Late(all[|few|..], p, widest)
  {
    LeavesLate(p.ns, rs, from, from, widest);
    PrintsGrow(rs, first, LeavesBy(p.ns, rs, from, from, widest), Whole(rs, LastOf(rs, from, HABITS)));
  }

  lemma {:induction false} PrintsGrow(rs: seq<Record>, first: nat, upto: nat, whole: nat)
    requires first < upto <= whole <= |rs| && StampsOrdered(rs)
    ensures var few, all := Prints(rs, first, upto), Prints(rs, first, whole);
            && few <= all && forall k | |few| <= k < |all| :: upto < |rs| && all[k].ns >= rs[upto].local
    decreases whole - upto
  {
    if upto < whole {
      PrintsGrow(rs, first, upto, whole - 1);
    }
  }

  lemma EdgeIs(r: Row, rs: seq<Record>, first: nat, from: nat, end: nat, upto: nat, widest: nat)
    requires Clean(rs) && OneSegment(rs, first, end, HABITS) && first < from <= end && end <= upto <= |rs|
    requires Departed(r, rs, from, end, upto, widest)
    ensures LastOf(rs, from, HABITS) >= end && upto <= Whole(rs, LastOf(rs, from, HABITS))
    ensures r.edge == EdgeOf(r.pending.ns, rs, from, widest)
  {
    LastIsFirst(rs, from, end, HABITS);
  }

  lemma HeldSees(r: Row, a: Option<seq<Print>>, rs: seq<Record>, horizons: seq<nat>, widest: nat)
    requires Clean(rs) && RowLabelled(r, a, horizons) && Held(r, a, rs, widest)
    ensures SeesSegment(r, rs, horizons, widest)
  {
    var first: nat, from: nat, end: nat, upto: nat :| HeldTo(r, a, rs, first, from, end, upto, widest);
    EdgeIs(r, rs, first, from, end, upto, widest);
    DepartsThen(r, rs, from, from, end, upto, widest);
    assert Sees(r, rs, first, from, horizons, widest);
  }

  /** What a row's labels are over all prints of its segment: exact for every horizon narrower than the
      widest; and for the widest one exact if and only if no print its label would count was stamped at its
      last instant after the row had left. */
  lemma SeesExactly(r: Row, rs: seq<Record>, first: nat, from: nat, horizons: seq<nat>, widest: nat, i: nat)
    requires Clean(rs) && Sees(r, rs, first, from, horizons, widest) && i < |horizons| && horizons[i] <= widest
    ensures Heard(r.pending.ns, rs, first, from, widest) <= SegmentPrints(rs, first, from)
    ensures var p, all := r.pending, SegmentPrints(rs, first, from);
            var missed := all[|Heard(p.ns, rs, first, from, widest)|..];
            && (p.atQuote[i] == AtQuote(all, p, horizons[i], |all|)
                <==> horizons[i] < widest || forall k | 0 <= k < |missed| ::
                       LastInstant(missed[k], p, widest) && missed[k].price == p.price ==> missed[k].qty == 0)
            && (p.through[i] == Through(all, p, horizons[i], |all|)
                <==> horizons[i] < widest || forall k | 0 <= k < |missed| ::
                       LastInstant(missed[k], p, widest) && Ahead(p.bid, p.price, missed[k].price) ==> missed[k].qty == 0)
            && (p.crossed[i] == CrossedBy(all, p, horizons[i], |all|)
                <==> horizons[i] < widest || p.crossed[i] || forall k {:trigger missed[k]} | 0 <= k < |missed| ::
                       !(LastInstant(missed[k], p, widest) && Ahead(p.bid, p.price, missed[k].price)))
  {
    var p, few, all := r.pending, Heard(r.pending.ns, rs, first, from, widest), SegmentPrints(rs, first, from);
    var n := |few|;
    HeardFirst(p, rs, first, from, widest);
    assert all == few + all[n..];
    LabelsJoin(few, all[n..], p, horizons[i]);
    PrintsReadable(rs, first, Whole(rs, LastOf(rs, from, HABITS)));
    if horizons[i] < widest {
      LatePrintsDoNotCount(all[n..], p, horizons[i], widest, |all| - n);
    } else {
      WidestHorizonMissesItsLastInstant(all[n..], p, widest, |all| - n);
    }
  }

  lemma {:induction false} PrintsReadable(rs: seq<Record>, first: nat, upto: nat)
    requires first < upto <= |rs| && AllReadable(rs)
    ensures forall k | 0 <= k < |Prints(rs, first, upto)| :: Prints(rs, first, upto)[k].qty >= 0
    decreases upto
  {
    if upto > first + 1 {
      PrintsReadable(rs, first, upto - 1);
      assert Readable(rs[upto - 1]);
    }
  }
}
