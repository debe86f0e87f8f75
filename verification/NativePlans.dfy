/** Which samples a replay calls for (cpp/research/native_dataset_exporter.cpp:272-283, 747-767, 980-1017
    under the callback order of cpp/replay/event_replayer.cpp:142-315), record by record, for any input
    whatever; and where stamps never go back and a live book is usable, in closed form. */
module NativePlans {
  import opened NativePassives
  import opened NativeSegments
  import opened Replays
  import opened Grids
  import opened GridRuns

  /** Whether a segment is open, where its grid stands, and what has been sampled. */
  datatype Plan = Plan(open: bool, next: nat, placed: seq<nat>)

  /** Announcing a record samples the instants before its stamp, on the book the one before it left. */
  ghost function Announced(p: Plan, rs: seq<Record>, i: nat, step: nat): Plan
    requires step > 0 && i < |rs|
  {
    if p.open then
      p.(next := NextFrom(p.next, rs[i].local, false, step),
         placed := p.placed + SamplesOn(BookBefore(rs, i), p.next, rs[i].local, false, step))
    else p
  }

  ghost function Told(p: Plan, rs: seq<Record>, i: nat): Plan
    requires i < |rs|
  {
    p.(open := p.open && !Cuts(rs[i].event, HABITS))
  }

  /** Concluding it samples its own stamp inside a segment, ends the segment or opens one. */
  ghost function Concluded(p: Plan, rs: seq<Record>, i: nat, step: nat): Plan
    requires step > 0 && i < |rs|
  {
    if p.open && Open(rs, i + 1) then
      p.(next := NextFrom(p.next, rs[i].local, true, step),
         placed := p.placed + SamplesOn(rs[i].book, p.next, rs[i].local, true, step))
    else if !p.open && Open(rs, i + 1) && rs[i].book.valid then
      Plan(true, NextInstant(rs[i].local, step), p.placed)
    else p.(open := false)
  }

  ghost function PlanAt(rs: seq<Record>, n: nat, step: nat): Plan
    requires step > 0 && n <= |rs|
  {
    if n == 0 then Plan(false, 0, [])
    else Concluded(Told(Announced(PlanAt(rs, n - 1, step), rs, n - 1, step), rs, n - 1), rs, n - 1, step)
  }

  /** A segment is open only while both streams are usable. */
  lemma PlanIsUsable(rs: seq<Record>, n: nat, step: nat)
    requires step > 0 && n <= |rs|
    ensures PlanAt(rs, n, step).open ==> n > 0 && Open(rs, n)
  {
  }

  /** Stamps that never go back and a live book that is usable: a segment is open exactly while both
      streams are, and what is sampled is, record by record, the instants each of them brings. */
  lemma {:induction false} PlanIsAllDue(rs: seq<Record>, n: nat, step: nat)
    requires step > 0 && n <= |rs| && StampsOrdered(rs) && LiveShows(rs) && AllReadable(rs)
    ensures var p := PlanAt(rs, n, step);
            p.open == Open(rs, n) && (p.open ==> p.next == Next(rs, n, step, HABITS)) && p.placed == AllDue(rs, n, step, HABITS)
  {
    if n > 0 {
      var i := n - 1;
      PlanIsAllDue(rs, i, step);
      assert Readable(rs[i]) && (i > 0 ==> Readable(rs[i - 1]));
      if i > 0 && Survives(rs, i, HABITS) {
        NextMoves(rs, i, step, HABITS);
      }
    }
  }
}
