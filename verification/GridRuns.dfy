/** What a run of records makes of a sampling grid (the advance loops of native_dataset_exporter.cpp:
    272-283, level_lifecycle.cpp:240-255, queue_sensitivity.cpp:129-140 under the callback order of
    cpp/replay/event_replayer.cpp:142-315): the instants sampled are exactly those at which a segment is
    open, each once. */
module GridRuns {
  import opened Grids
  import opened Replays

  /** Record i brings grid instant t: a segment is open from the record before it on and t comes before
      its stamp, or t is its stamp and it leaves the segment open. */
  ghost predicate Covers(rs: seq<Record>, i: nat, t: nat, h: Habits)
    requires i < |rs|
  {
    Precedes(rs, i, t) || (t == rs[i].local && Kept(rs, i, h))
  }

  ghost predicate Precedes(rs: seq<Record>, i: nat, t: nat)
    requires i < |rs|
  {
    i > 0 && Open(rs, i) && rs[i - 1].local <= t < rs[i].local
  }

  ghost predicate Kept(rs: seq<Record>, i: nat, h: Habits)
    requires i < |rs|
  {
    Survives(rs, i, h) || (h.samplesOpening && Open(rs, i + 1))
  }

  /** The instants the first n records call for. */
  ghost predicate Due(rs: seq<Record>, n: nat, t: nat, step: nat, h: Habits)
    requires n <= |rs|
  {
    OnGrid(t, step) && exists i {:trigger Covers(rs, i, t, h)} | 0 <= i < n :: Covers(rs, i, t, h)
  }

  ghost predicate PlacedDue(placed: seq<nat>, rs: seq<Record>, n: nat, step: nat, h: Habits)
    requires n <= |rs|
  {
    forall t: nat {:trigger Due(rs, n, t, step, h)} {:trigger t in placed} :: t in placed <==> Due(rs, n, t, step, h)
  }

  /** The same while record n is replayed: the instants before its stamp have joined. */
  ghost predicate PlacedWithin(placed: seq<nat>, rs: seq<Record>, n: nat, step: nat, h: Habits)
    requires n < |rs|
  {
    forall t: nat {:trigger t in placed} :: t in placed <==> Due(rs, n, t, step, h) || (OnGrid(t, step) && Precedes(rs, n, t))
  }

  lemma DueGrows(rs: seq<Record>, n: nat, t: nat, step: nat, h: Habits)
    requires n < |rs|
    ensures Due(rs, n + 1, t, step, h) <==> Due(rs, n, t, step, h) || (OnGrid(t, step) && Covers(rs, n, t, h))
  {
  }

  /** Where an open segment goes on sampling: nothing from `since` on has been left out. */
  ghost predicate Ready(placed: seq<nat>, since: nat, next: nat, step: nat) {
    && OnGrid(next, step) && next >= since
    && forall t: nat {:trigger OnGrid(t, step)} | since <= t < next && OnGrid(t, step) :: t in placed
  }

  /** And where it stands while a record is replayed: at the first instant from `since` on. */
  ghost predicate FirstFrom(since: nat, next: nat, step: nat) {
    OnGrid(next, step) && next >= since && forall t: nat {:trigger OnGrid(t, step)} | OnGrid(t, step) && t >= since :: t >= next
  }

  /** The samples between two records. */
  ghost predicate GridSettled(placed: seq<nat>, next: nat, rs: seq<Record>, i: nat, step: nat, h: Habits)
    requires i <= |rs|
  {
    && Ascending(placed) && PlacedDue(placed, rs, i, step, h)
    && (if i == 0 then placed == [] else Below(placed, rs[i - 1].local + 1))
    && (Open(rs, i) ==> Below(placed, next) && Ready(placed, rs[i - 1].local, next, step))
  }

  /** And while a record is replayed. */
  ghost predicate GridReplaying(placed: seq<nat>, next: nat, rs: seq<Record>, i: nat, open: bool, step: nat, h: Habits)
    requires i < |rs|
  {
    && Ascending(placed) && PlacedWithin(placed, rs, i, step, h) && Below(placed, rs[i].local)
    && (open ==> FirstFrom(rs[i].local, next, step))
  }

  /** Announcing a record to an open segment brings the instants before its stamp. */
  lemma AnnounceGrid(was: seq<nat>, placed: seq<nat>, rs: seq<Record>, n: nat, first: nat, next: nat, step: nat, h: Habits)
    requires step > 0 && n < |rs| && StampsRise(rs) && GridSettled(was, first, rs, n, step, h)
    requires placed == was + if Open(rs, n) then Instants(first, rs[n].local, false, step) else []
    requires Open(rs, n) ==> next == NextFrom(first, rs[n].local, false, step)
    ensures GridReplaying(placed, next, rs, n, Open(rs, n), step, h)
  {
    var local := rs[n].local;
    if Open(rs, n) {
      AdvanceAscends(was, first, local, false, step);
      NextFromOnGrid(first, local, false, step);
    }
    forall t: nat
      ensures t in placed <==> Due(rs, n, t, step, h) || (OnGrid(t, step) && Precedes(rs, n, t))
    {
      assert t in was <==> Due(rs, n, t, step, h);
      if Open(rs, n) {
        InstantsAreGrid(first, local, false, step, t);
      }
    }
    if Open(rs, n) {
      forall t: nat | OnGrid(t, step) && t >= local
        ensures t >= next
      {
        StandsFirst(first, local, false, step, t);
      }
    }
  }

  /** Concluding a record that leaves its segment open brings its own stamp, when that is an instant. */
  lemma ConcludeGrid(was: seq<nat>, placed: seq<nat>, rs: seq<Record>, n: nat, first: nat, next: nat, step: nat, h: Habits)
    requires step > 0 && n < |rs| && StampsRise(rs) && GridReplaying(was, first, rs, n, Open(rs, n + 1), step, h)
    requires placed == was + if Kept(rs, n, h) then Instants(first, rs[n].local, true, step) else []
    requires next == if Kept(rs, n, h) then NextFrom(first, rs[n].local, true, step) else first
    ensures GridSettled(placed, next, rs, n + 1, step, h)
  {
    var local := rs[n].local;
    forall t: nat
      ensures t in placed <==> Due(rs, n + 1, t, step, h)
    {
      DueGrows(rs, n, t, step, h);
      assert t in was <==> Due(rs, n, t, step, h) || (OnGrid(t, step) && Precedes(rs, n, t));
      if Kept(rs, n, h) {
        InstantsAreGrid(first, local, true, step, t);
      }
    }
    if Kept(rs, n, h) {
      AdvanceAscends(was, first, local, true, step);
      NextFromOnGrid(first, local, true, step);
      forall t: nat | local <= t < next && OnGrid(t, step)
        ensures t in placed
      {
        InstantsReach(first, local, true, step, t);
      }
    }
  }

  /** A new segment starts on the first instant from its record on. */
  lemma OpensFirst(local: nat, step: nat)
    requires step > 0
    ensures FirstFrom(local, NextInstant(local, step), step)
  {
    GridInstant(local, step);
    forall t: nat | OnGrid(t, step) && t >= local
      ensures t >= NextInstant(local, step)
    {
      NextInstantIsFirst(local, step, t);
    }
  }

  /** Where the grid of an open segment stands after n records: at the first instant after the last of
      them, or from it on when that record opened the segment and was left to the next one. */
  ghost function Next(rs: seq<Record>, n: nat, step: nat, h: Habits): (next: nat)
    requires step > 0 && 0 < n <= |rs|
    ensures rs[n - 1].local <= next <= rs[n - 1].local + step
  {
    if Opens(rs, n - 1, h) && !h.samplesOpening then NextInstant(rs[n - 1].local, step) else NextAfter(rs[n - 1].local, step)
  }

  lemma NextIsOnGrid(rs: seq<Record>, n: nat, step: nat, h: Habits)
    requires step > 0 && 0 < n <= |rs|
    ensures OnGrid(Next(rs, n, step, h), step)
  {
    GridInstant(rs[n - 1].local, step);
    NextAfterOnGrid(rs[n - 1].local, step);
  }

  /** The instants announcing record i brings: those of an open segment before its stamp. */
  ghost function Heralded(rs: seq<Record>, i: nat, step: nat, h: Habits): seq<nat>
    requires step > 0 && i < |rs|
  {
    if i > 0 && Open(rs, i) then Instants(Next(rs, i, step, h), rs[i].local, false, step) else []
  }

  /** And those concluding it brings: its own stamp, in a segment it leaves open. */
  ghost function Closing(rs: seq<Record>, i: nat, step: nat, h: Habits): seq<nat>
    requires step > 0 && i < |rs|
  {
    if i > 0 && Survives(rs, i, h) then Instants(NextFrom(Next(rs, i, step, h), rs[i].local, false, step), rs[i].local, true, step)
    else if Opens(rs, i, h) && h.samplesOpening then Instants(NextInstant(rs[i].local, step), rs[i].local, true, step)
    else []
  }

  /** All instants the first n records bring, in order. */
  ghost function AllDue(rs: seq<Record>, n: nat, step: nat, h: Habits): seq<nat>
    requires step > 0 && n <= |rs|
  {
    if n == 0 then [] else AllDue(rs, n - 1, step, h) + Heralded(rs, n - 1, step, h) + Closing(rs, n - 1, step, h)
  }

  /** In a segment that goes on the grid stands where the next record expects it. */
  lemma NextMoves(rs: seq<Record>, i: nat, step: nat, h: Habits)
    requires step > 0 && 0 < i < |rs| && rs[i - 1].local <= rs[i].local && Survives(rs, i, h)
    ensures NextFrom(NextFrom(Next(rs, i, step, h), rs[i].local, false, step), rs[i].local, true, step) == Next(rs, i + 1, step, h)
  {
    NextIsOnGrid(rs, i, step, h);
    CaughtUp(Next(rs, i, step, h), rs[i - 1].local, rs[i].local, step);
  }

  /** What the instants are, stamp by stamp, when stamps never go back: before a record, the grid instants
      since the record before it, that record's own stamp only if it opened the segment and left it. */
  lemma HeraldedIff(rs: seq<Record>, i: nat, step: nat, h: Habits, t: nat)
    requires step > 0 && i < |rs|
    ensures t in Heralded(rs, i, step, h)
       <==> && i > 0 && Open(rs, i) && OnGrid(t, step) && t < rs[i].local
            && (rs[i - 1].local < t || (rs[i - 1].local == t && Opens(rs, i - 1, h) && !h.samplesOpening))
  {
    if i > 0 && Open(rs, i) {
      NextIsOnGrid(rs, i, step, h);
      InstantsAreGrid(Next(rs, i, step, h), rs[i].local, false, step, t);
      if OnGrid(t, step) {
        NextBounds(rs, i, step, h, t);
      }
    }
  }

  lemma NextBounds(rs: seq<Record>, i: nat, step: nat, h: Habits, t: nat)
    requires step > 0 && 0 < i <= |rs| && OnGrid(t, step)
    ensures Next(rs, i, step, h) <= t
       <==> rs[i - 1].local < t || (rs[i - 1].local == t && Opens(rs, i - 1, h) && !h.samplesOpening)
  {
    var was := rs[i - 1].local;
    if t >= was {
      NextInstantIsFirst(was, step, t);
      if t > was {
        StandsFirst(NextInstant(was, step), was, true, step, t);
      }
    }
  }

  /** With a record, its own stamp: on the grid, in a segment it leaves open, and not sampled before by a
      record of the same stamp in that segment. */
  lemma ClosingIff(rs: seq<Record>, i: nat, step: nat, h: Habits, t: nat)
    requires step > 0 && i < |rs| && (i > 0 ==> rs[i - 1].local <= rs[i].local)
    ensures t in Closing(rs, i, step, h)
       <==> && t == rs[i].local && OnGrid(t, step)
            && ((Opens(rs, i, h) && h.samplesOpening)
                || (i > 0 && Survives(rs, i, h) && (rs[i - 1].local < t || (Opens(rs, i - 1, h) && !h.samplesOpening))))
  {
    if i > 0 && Survives(rs, i, h) {
      NextIsOnGrid(rs, i, step, h);
      OwnStampIff(Next(rs, i, step, h), rs[i].local, step, t);
      if t == rs[i].local && OnGrid(t, step) {
        NextBounds(rs, i, step, h, t);
      }
    } else {
      FirstStampIff(rs[i].local, step, t);
    }
  }

  /** A grid that has caught up with a stamp passes it exactly if it is an instant still ahead. */
  lemma OwnStampIff(next: nat, local: nat, step: nat, t: nat)
    requires step > 0 && OnGrid(next, step)
    ensures t in Instants(NextFrom(next, local, false, step), local, true, step) <==> t == local && OnGrid(t, step) && next <= t
  {
    NextFromOnGrid(next, local, false, step);
    InstantsAreGrid(NextFrom(next, local, false, step), local, true, step, t);
    if t == local && OnGrid(t, step) && next <= t {
      StandsFirst(next, local, false, step, t);
    }
  }

  lemma FirstStampIff(local: nat, step: nat, t: nat)
    requires step > 0
    ensures t in Instants(NextInstant(local, step), local, true, step) <==> t == local && OnGrid(t, step)
  {
    GridInstant(local, step);
    InstantsAreGrid(NextInstant(local, step), local, true, step, t);
    if t == local && OnGrid(t, step) {
      NextInstantIsFirst(local, step, t);
    }
  }

  /** When stamps rise strictly they are, in strict order, exactly the instants at which a segment is
      open. */
  lemma AllDueExact(rs: seq<Record>, step: nat, h: Habits)
    requires step > 0 && StampsRise(rs)
    ensures Ascending(AllDue(rs, |rs|, step, h)) && PlacedDue(AllDue(rs, |rs|, step, h), rs, |rs|, step, h)
  {
    DueSettles(rs, |rs|, step, h);
  }

  ghost function StandsAt(rs: seq<Record>, n: nat, step: nat, h: Habits): nat
    requires step > 0 && n <= |rs|
  {
    if n == 0 then 0 else Next(rs, n, step, h)
  }

  lemma {:induction false} DueSettles(rs: seq<Record>, n: nat, step: nat, h: Habits)
    requires step > 0 && StampsRise(rs) && n <= |rs|
    ensures GridSettled(AllDue(rs, n, step, h), StandsAt(rs, n, step, h), rs, n, step, h)
  {
    if n > 0 {
      DueSettles(rs, n - 1, step, h);
      DueStep(rs, n - 1, step, h);
    }
  }

  lemma DueStep(rs: seq<Record>, i: nat, step: nat, h: Habits)
    requires step > 0 && StampsRise(rs) && i < |rs| && GridSettled(AllDue(rs, i, step, h), StandsAt(rs, i, step, h), rs, i, step, h)
    ensures GridSettled(AllDue(rs, i + 1, step, h), StandsAt(rs, i + 1, step, h), rs, i + 1, step, h)
  {
    var was, next := AllDue(rs, i, step, h), StandsAt(rs, i, step, h);
    var during := was + Heralded(rs, i, step, h);
    var now := if Open(rs, i) then NextFrom(next, rs[i].local, false, step) else next;
    AnnounceGrid(was, during, rs, i, next, now, step, h);
    if Survives(rs, i, h) {
      NextMoves(rs, i, step, h);
      ConcludeGrid(during, AllDue(rs, i + 1, step, h), rs, i, now, Next(rs, i + 1, step, h), step, h);
    } else {
      DueOpens(during, rs, i, now, step, h);
    }
  }

  lemma DueOpens(during: seq<nat>, rs: seq<Record>, i: nat, now: nat, step: nat, h: Habits)
    requires step > 0 && StampsRise(rs) && i < |rs| && !Survives(rs, i, h) && GridReplaying(during, now, rs, i, Open(rs, i), step, h)
    ensures GridSettled(during + Closing(rs, i, step, h), Next(rs, i + 1, step, h), rs, i + 1, step, h)
  {
    var first := NextInstant(rs[i].local, step);
    OpensFirst(rs[i].local, step);
    var next := if Kept(rs, i, h) then NextFrom(first, rs[i].local, true, step) else first;
    ConcludeGrid(during, during + Closing(rs, i, step, h), rs, i, first, next, step, h);
  }
}
