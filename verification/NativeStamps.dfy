/** The race stamps of a written row over the depth events of its own segment
    (cpp/research/native_dataset_exporter.cpp:475-526, 911-978, cpp/replay/event_replayer.cpp:142-315). */
module NativeStamps {
  import opened OrderBooks
  import opened NativeRows
  import opened NativeEvents
  import opened NativeRaces
  import opened NativePassives
  import opened NativeLives
  import opened NativeFills
  import opened NativeSegments
  import opened Replays

  /** Record j is a depth event the races look at. */
  predicate Seen(rs: seq<Record>, j: nat)
    requires j < |rs|
  {
    rs[j].event.Depth? && rs[j].event.outcome.Applied? && BookBefore(rs, j).valid && rs[j].book.TwoSided()
  }

  /** The depth events among records from..n. */
  ghost function EventsOf(rs: seq<Record>, from: nat, n: nat): (es: seq<NativeRaces.Event>)
    requires 0 < from <= n <= |rs|
    ensures StampsRise(rs) ==> Sane(es)
    decreases n
  {
    if n == from then []
    else
      assert StampsRise(rs) ==> rs[0].local < rs[n - 1].local;
      EventsOf(rs, from, n - 1) + if Seen(rs, n - 1) then [NativeRaces.Event.Event(rs[n - 1].local, rs[n - 1].book)] else []
  }

  ghost predicate SameSide(a: SideState, b: SideState) {
    a.fill.quote == b.fill.quote && a.bestAdverseNs == b.bestAdverseNs && a.quoteGoneNs == b.quoteGoneNs
  }

  /** Rows that stand alike in their races, whatever their fills. */
  ghost predicate SameRaces(a: Row, b: Row) {
    a.ns == b.ns && a.watching == b.watching && SameSide(a.bid, b.bid) && SameSide(a.ask, b.ask)
  }

  lemma WatchKeepsSame(a: Row, b: Row, local: nat, book: Book, c: Config)
    requires book.TwoSided() && SameRaces(a, b)
    ensures SameRaces(WatchRow(a, local, book, c), WatchRow(b, local, book, c))
  {
  }

  /** A record that is no such event leaves the races where they were. */
  lemma QuietKeepsRaces(p: Row, rs: seq<Record>, j: nat, c: Config)
    requires j < |rs| && !Seen(rs, j)
    ensures SameRaces(Touched(p, rs[j], BookBefore(rs, j), c), p)
  {
  }

  lemma {:induction false} WatchedFront(r: Row, es: seq<NativeRaces.Event>, x: NativeRaces.Event, n: nat, c: Config)
    requires n <= |es| && Sane(es) && Sane(es + [x])
    ensures Watched(r, es + [x], n, c) == Watched(r, es, n, c)
  {
    if n > 0 {
      WatchedFront(r, es, x, n - 1, c);
    }
  }

  /** A row's races follow the depth events of the records it lives through. */
  lemma {:induction false} RacesFollow(p: Row, rs: seq<Record>, from: nat, n: nat, c: Config)
    requires StampsRise(rs) && 0 < from <= n <= |rs|
    ensures var es := EventsOf(rs, from, n); SameRaces(Lived(p, rs, from, n, c), Watched(p, es, |es|, c))
    decreases n
  {
    if n > from {
      RacesFollow(p, rs, from, n - 1, c);
      var l, es := Lived(p, rs, from, n - 1, c), EventsOf(rs, from, n - 1);
      if Seen(rs, n - 1) {
        var x := NativeRaces.Event.Event(rs[n - 1].local, rs[n - 1].book);
        assert EventsOf(rs, from, n) == es + [x];
        WatchedFront(p, es, x, |es|, c);
        WatchKeepsSame(l, Watched(p, es, |es|, c), x.local, x.book, c);
      } else {
        QuietKeepsRaces(l, rs, n - 1, c);
        assert EventsOf(rs, from, n) == es;
      }
    }
  }

  /** What settles a race depends on the quotes alone. */
  lemma {:induction false} SameShown(a: Row, b: Row, race: NativeRaces.Race, es: seq<NativeRaces.Event>, n: nat)
    requires n <= |es| && Sane(es) && a.bid.fill.quote == b.bid.fill.quote && a.ask.fill.quote == b.ask.fill.quote
    ensures FirstShown(a, race, es, n) == FirstShown(b, race, es, n)
  {
    if n > 0 {
      SameShown(a, b, race, es, n - 1);
    }
  }

  lemma BornStamps(r: Row, race: NativeRaces.Race, rs: seq<Record>, from: nat, n: nat, c: Config)
    requires StampsRise(rs) && n <= |rs| && LivedFrom(Bare(r), rs, from, n, c)
    ensures var es := EventsOf(rs, from, n);
            Stamp(r, race) == FirstShown(Born(r.ns, rs[from - 1].book, c), race, es, Heard(es, r.ns + c.horizonNs, |es|))
  {
    var p, es := Born(r.ns, rs[from - 1].book, c), EventsOf(rs, from, n);
    RacesFollow(p, rs, from, n, c);
    StampIsFirst(p, race, es, |es|, c);
    SameStamp(Bare(r), Watched(p, es, |es|, c), race);
  }

  lemma LivedStamps(r: Row, race: NativeRaces.Race, rs: seq<Record>, from: nat, n: nat, c: Config)
    requires StampsRise(rs) && n <= |rs| && LivedFrom(Bare(r), rs, from, n, c)
    ensures var es := EventsOf(rs, from, n);
            && Stamp(r, race) == FirstShown(r, race, es, Heard(es, r.ns + c.horizonNs, |es|))
            && (Stamp(r, race) <= r.ns + c.horizonNs <==> EndsInside(r, race, es, r.ns + c.horizonNs, |es|))
  {
    var p, es := Born(r.ns, rs[from - 1].book, c), EventsOf(rs, from, n);
    BornStamps(r, race, rs, from, n, c);
    RowTells(r, rs, from, n, c);
    BornRests(r.ns, rs[from - 1].book, c);
    SameShown(p, r, race, es, Heard(es, r.ns + c.horizonNs, |es|));
    LastHeardDecides(r, race, es, r.ns + c.horizonNs, |es|);
  }

  /** So a race stamp of a written row is that of the first depth event of its segment that settles the race,
      among those up to and including the first at or past the end of its window; and it lies inside the
      window exactly when that last one does, or does not settle the race, or an earlier one had. */
  lemma WrittenStamps(r: Row, race: NativeRaces.Race, rs: seq<Record>, first: nat, from: nat, c: Config)
    requires StampsRise(rs) && TrueTo(r, rs, first, from, c)
    ensures var es := EventsOf(rs, from, Whole(rs, EndOf(rs, from)));
            && Stamp(r, race) == FirstShown(r, race, es, Heard(es, r.ns + c.horizonNs, |es|))
            && (Stamp(r, race) <= r.ns + c.horizonNs <==> EndsInside(r, race, es, r.ns + c.horizonNs, |es|))
  {
    LivedStamps(r, race, rs, from, Whole(rs, EndOf(rs, from)), c);
  }

  lemma SameStamp(a: Row, b: Row, race: NativeRaces.Race)
    requires SameRaces(a, b)
    ensures Stamp(a, race) == Stamp(b, race)
  {
  }
}
