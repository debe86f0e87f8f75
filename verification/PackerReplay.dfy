/** What the packed stream is for (pyresearch/historical/l2.py:632-832, cpp/exchange/binance/depth_sync.cpp,
    cpp/replay/event_replayer.cpp:142-315): replayed record by record it drives the live synchroniser through
    exactly the states the packer went through. */
module PackerReplay {
  import opened Wrappers
  import opened OrderBooks
  import opened DepthSync
  import opened DepthRecords
  import P = Packer
  import opened PackerRun

  /** The quotes a record carries; the packer passes them on unread. */
  datatype Levels = Levels(bids: seq<Quote>, asks: seq<Quote>)

  /** Ids are unsigned on the wire. */
  function Id(x: int): nat {
    if x < 0 then 0 else x
  }

  function EventOf(u: P.Update, levels: P.Record -> Levels): DepthEvent {
    var l := levels(P.Upd(u.received, u));
    DepthEvent(Id(u.first), Id(u.final), Id(u.prev), l.bids, l.asks)
  }

  /** A record as the replay reads it. */
  function MessageOf(r: P.Record, levels: P.Record -> Levels): DepthRecords.Message {
    match r
    case Info(_) => DepthRecords.Unrelated
    case Open(_) => DepthRecords.Open(DepthStream)
    case Close(_) => DepthRecords.Close(DepthStream)
    case Snap(_, id) => DepthRecords.Snapshotted(Some(DepthSnapshot(Id(id), levels(r).bids, levels(r).asks)))
    case Upd(_, u) => DepthRecords.Updated(Some(EventOf(u, levels)))
  }

  /** Where a replay stands: whether the stream is up, and the synchroniser. */
  datatype Ear = Ear(up: bool, at: Standing)

  const SILENT := Ear(false, Standing(Disconnected, [], 0, 0))

  ghost function Hears(e: Ear, r: P.Record, levels: P.Record -> Levels): Ear {
    Ear(UpAfter(MessageOf(r, levels), e.up), Heard(e.at, MessageOf(r, levels), e.up))
  }

  ghost function HearsAll(e: Ear, rs: seq<P.Record>, levels: P.Record -> Levels): Ear {
    if rs == [] then e else Hears(HearsAll(e, rs[..|rs| - 1], levels), rs[|rs| - 1], levels)
  }

  /** The replay would call its book live. */
  ghost predicate IsLive(e: Ear) {
    e.up && e.at.state == Live
  }

  lemma HearsOne(e: Ear, rs: seq<P.Record>, r: P.Record, levels: P.Record -> Levels)
    ensures HearsAll(e, rs + [r], levels) == Hears(HearsAll(e, rs, levels), r, levels)
  {
    assert (rs + [r])[..|rs|] == rs;
  }

  lemma {:induction false} HearsJoin(e: Ear, a: seq<P.Record>, b: seq<P.Record>, levels: P.Record -> Levels)
    ensures HearsAll(e, a + b, levels) == HearsAll(HearsAll(e, a, levels), b, levels)
    decreases |b|
  {
    if b == [] {
      assert a + b == a;
    } else {
      var front := b[..|b| - 1];
      HearsJoin(e, a, front, levels);
      assert a + b == (a + front) + [b[|b| - 1]];
      HearsOne(e, a + front, b[|b| - 1], levels);
    }
  }

  ghost predicate Unsigned(u: P.Update) {
    u.first >= 0 && u.final >= 0 && u.prev >= 0
  }

  function Events(us: seq<P.Update>, levels: P.Record -> Levels): (es: seq<DepthEvent>)
    ensures |es| == |us| && forall k | 0 <= k < |us| :: es[k] == EventOf(us[k], levels)
  {
    seq(|us|, k requires 0 <= k < |us| => EventOf(us[k], levels))
  }

  ghost predicate AllUnsigned(us: seq<P.Update>) {
    forall k {:trigger us[k]} | 0 <= k < |us| :: Unsigned(us[k])
  }

  /** Updates that lead a live book from one id to another, each naming the one before. */
  ghost predicate Leads(us: seq<P.Update>, from: int, to: int) {
    if us == [] then from == to else us[0].prev == from < us[0].final && Leads(us[1..], us[0].final, to)
  }

  lemma {:induction false} LeadsOn(us: seq<P.Update>, from: int, to: int, m: P.Update)
    requires Leads(us, from, to) && m.prev == to < m.final
    ensures Leads(us + [m], from, m.final)
  {
    if us == [] {
      assert us + [m] == [m];
    } else {
      LeadsOn(us[1..], us[0].final, to, m);
      assert (us + [m])[1..] == us[1..] + [m];
    }
  }

  /** A live replay takes them all. */
  lemma {:induction false} TakesAll(e: Ear, us: seq<P.Update>, to: int, levels: P.Record -> Levels)
    requires IsLive(e) && AllUnsigned(us) && Leads(us, e.at.last, to)
    ensures to >= 0 && HearsAll(e, P.Records(us), levels) == Ear(true, e.at.(last := to))
    decreases |us|
  {
    if us != [] {
      var now := Hears(e, P.Upd(us[0].received, us[0]), levels);
      assert Unsigned(us[0]);
      TakesAll(now, us[1..], to, levels);
      assert P.Records(us) == [P.Upd(us[0].received, us[0])] + P.Records(us[1..]);
      HearsJoin(e, [P.Upd(us[0].received, us[0])], P.Records(us[1..]), levels);
      HearsOne(e, [], P.Upd(us[0].received, us[0]), levels);
      assert [] + [P.Upd(us[0].received, us[0])] == [P.Upd(us[0].received, us[0])];
    }
  }

  /** The replay of what has been written stands where the packer does: waiting for the first event of the same
      snapshot, or with the same events waiting, or live, and as far as the packer once what is deferred is
      written too. */
  ghost predicate Mirrors(e: Ear, s: P.Sync, t: P.Tape, levels: P.Record -> Levels) {
    && e.up && AllUnsigned(s.buffered) && AllUnsigned(t.deferred) && s.anchor >= 0 && s.previousU >= 0
    && (s.held.Some? ==> s.mode == P.Live && s.previousU < s.held.value.lastId) && (t.deferred != [] ==> s.held.Some?)
    && (s.mode != P.Invalid ==> s.buffered == [])
    && match s.mode
       case Awaiting => e.at == Standing(Syncing, [], s.anchor, 0)
       case Live => e.at.state == Live && e.at.waiting == [] && e.at.base == 0 && Leads(t.deferred, e.at.last, s.previousU)
       case Invalid => (e.at.state == GapDetected || e.at.state == Resyncing) && e.at.waiting == Events(s.buffered, levels)
  }

  ghost function Replayed(t: P.Tape, levels: P.Record -> Levels): Ear {
    HearsAll(SILENT, t.out, levels)
  }

  lemma FlushMirrors(s: P.Sync, t: P.Tape, levels: P.Record -> Levels)
    requires Mirrors(Replayed(t, levels), s, t, levels) && s.mode == P.Live
    ensures var f := Replayed(P.Flushed(t), levels);
            f.up && f.at.state == Live && f.at.waiting == [] && f.at.base == 0 && f.at.last == s.previousU
  {
    TakesAll(Replayed(t, levels), t.deferred, s.previousU, levels);
    HearsJoin(SILENT, t.out, P.Records(t.deferred), levels);
  }

  lemma EmitHears(t: P.Tape, m: P.Update, levels: P.Record -> Levels)
    ensures Replayed(P.Emitted(t, m), levels) == Hears(Replayed(t, levels), P.Upd(m.received, m), levels)
  {
    HearsOne(SILENT, t.out, P.Upd(m.received, m), levels);
  }

  /** A bridge starts the replay over from the snapshot held back, and the update takes it live again. */
  lemma BridgeHears(t: P.Tape, m: P.Update, id: int, levels: P.Record -> Levels)
    requires Unsigned(m) && m.first <= id <= m.final
    ensures HearsAll(SILENT, t.out + P.Bridge(t.last, m, id), levels) == Ear(true, Standing(Live, [], 0, m.final))
  {
    var rs := P.Bridge(t.last, m, id);
    var e := Replayed(t, levels);
    HearsJoin(SILENT, t.out, rs, levels);
    HearsOne(e, [], rs[0], levels);
    HearsOne(e, [rs[0]], rs[1], levels);
    HearsOne(e, [rs[0], rs[1]], rs[2], levels);
    HearsOne(e, [rs[0], rs[1], rs[2]], rs[3], levels);
    assert [] + [rs[0]] == [rs[0]] && [rs[0]] + [rs[1]] == [rs[0], rs[1]];
    assert [rs[0], rs[1]] + [rs[2]] == [rs[0], rs[1], rs[2]] && rs == [rs[0], rs[1], rs[2]] + [rs[3]];
  }

  /** An update keeps the two together, */
  lemma PutMirrors(s: P.Sync, t: P.Tape, m: P.Update, levels: P.Record -> Levels)
    requires Mirrors(Replayed(t, levels), s, t, levels) && Unsigned(m)
    ensures Mirrors(Replayed(P.Put(t, s, m), levels), P.OnUpdate(s, m), P.Put(t, s, m), levels)
  {
    if P.Stale(s.mode, s.anchor, s.previousU, m) {
    } else if s.mode != P.Live {
      EmitHears(t, m, levels);
      WaitsToo(s, m, levels);
    } else {
      PutLive(s, t, m, levels);
    }
  }

  lemma WaitsToo(s: P.Sync, m: P.Update, levels: P.Record -> Levels)
    requires Unsigned(m) && AllUnsigned(s.buffered)
    ensures Events(s.buffered + [m], levels) == Events(s.buffered, levels) + [EventOf(m, levels)] && AllUnsigned(s.buffered + [m])
    ensures Events([m], levels) == [EventOf(m, levels)]
  {
  }

  lemma PutLive(s: P.Sync, t: P.Tape, m: P.Update, levels: P.Record -> Levels)
    requires Mirrors(Replayed(t, levels), s, t, levels) && Unsigned(m) && s.mode == P.Live && m.final > s.previousU
    ensures Mirrors(Replayed(P.Put(t, s, m), levels), P.OnUpdate(s, m), P.Put(t, s, m), levels)
  {
    if m.prev == s.previousU {
      LeadsOn(t.deferred, Replayed(t, levels).at.last, s.previousU, m);
      if s.held.None? {
        EmitHears(t, m, levels);
      } else if m.final >= s.held.value.lastId {
        var d := t.(deferred := t.deferred + [m]);
        TakesAll(Replayed(t, levels), d.deferred, m.final, levels);
        HearsJoin(SILENT, t.out, P.Records(d.deferred), levels);
      }
    } else if s.held.Some? && P.Brackets(m, s.held.value.lastId) {
      BridgeHears(P.Flushed(t), m, s.held.value.lastId, levels);
    } else {
      FlushMirrors(s, t, levels);
      EmitHears(P.Flushed(t), m, levels);
      WaitsToo(s, m, levels);
    }
  }

  /** What a snapshot leaves waiting, */
  lemma {:induction false} WaitingIs(us: seq<P.Update>, id: int, k: nat, levels: P.Record -> Levels)
    requires k <= |us| && AllUnsigned(us) && id >= 0
    ensures Waiting(Events(us[k..], levels), id) == Events(us[P.LeadingStale(us, id, k)..], levels)
    decreases |us| - k
  {
    if k < |us| {
      assert Unsigned(us[k]);
      var es := Events(us[k..], levels);
      assert es[0] == EventOf(us[k], levels);
      if us[k].final < id {
        WaitingIs(us, id, k + 1, levels);
        assert es[1..] == Events(us[k + 1..], levels);
      }
    }
  }

  /** and how far the rest takes a book that stands at `last`. */
  lemma {:induction false} DrainedIs(us: seq<P.Update>, k: nat, last: int, levels: P.Record -> Levels)
    requires k <= |us| && AllUnsigned(us) && last >= 0
    ensures P.Standing(us, k, last) >= 0
    ensures Drained(Events(us[k..], levels), last)
         == if P.FirstBreak(us, k, last) == |us| then Standing(Live, [], 0, P.Standing(us, k, last))
            else Standing(Resyncing, Events([us[P.FirstBreak(us, k, last)]], levels), 0, 0)
    decreases |us| - k
  {
    if k < |us| {
      assert Unsigned(us[k]) && us[k..][0] == us[k];
      assert Events(us[k..], levels)[1..] == Events(us[k + 1..], levels);
      if us[k].final <= last {
        DrainedIs(us, k + 1, last, levels);
      } else if us[k].prev == last {
        DrainedIs(us, k + 1, us[k].final, levels);
      } else {
        assert Events([us[k]], levels) == [Events(us[k..], levels)[0]];
      }
    }
  }

  /** What remains of the waiting events and a snapshot. */
  ghost predicate Matches(at: Standing, s: P.Sync, levels: P.Record -> Levels) {
    match s.mode
    case Awaiting => at == Standing(Syncing, [], Id(s.anchor), 0)
    case Live => at == Standing(Live, [], 0, Id(s.previousU))
    case Invalid => at == Standing(Resyncing, Events(s.buffered, levels), 0, 0)
  }

  lemma ResolvedMatches(t: Standing, us: seq<P.Update>, id: int, levels: P.Record -> Levels)
    requires AllUnsigned(us) && id >= 0 && t.state != Disconnected && t.waiting == Events(us, levels)
    ensures var s := P.Resolved(us[P.LeadingStale(us, id, 0)..], id);
            && Matches(OnBase(t, id), s, levels) && AllUnsigned(s.buffered) && s.anchor == id && s.previousU >= 0 && s.held.None?
            && (s.mode != P.Invalid ==> s.buffered == [])
  {
    WaitingIs(us, id, 0, levels);
    assert us[0..] == us;
    var kept := us[P.LeadingStale(us, id, 0)..];
    KeptUnsigned(us, P.LeadingStale(us, id, 0));
    if kept != [] {
      assert Unsigned(kept[0]) && kept[0].final >= id;
      assert Events(kept, levels)[1..] == Events(kept[1..], levels);
      DrainedIs(kept, 1, kept[0].final, levels);
      assert Events([kept[0]], levels) == [Events(kept, levels)[0]];
    }
  }

  lemma KeptUnsigned(us: seq<P.Update>, k: nat)
    requires k <= |us| && AllUnsigned(us)
    ensures AllUnsigned(us[k..]) && forall j {:trigger us[j]} | k <= j < |us| :: AllUnsigned([us[j]])
  {
  }

  /** and a snapshot does. */
  lemma ShelveMirrors(s: P.Sync, t: P.Tape, b: P.Snapshot, levels: P.Record -> Levels)
    requires Mirrors(Replayed(t, levels), s, t, levels) && b.lastId >= 0
    ensures Mirrors(Replayed(P.Shelve(t, s, b), levels), P.OnSnapshot(s, b), P.Shelve(t, s, b), levels)
  {
    if s.mode == P.Live {
      FlushMirrors(s, t, levels);
    } else if !(s.mode == P.Awaiting && s.buffered == [] && b.lastId == s.anchor) {
      HearsOne(SILENT, t.out, P.Snap(b.received, b.lastId), levels);
      assert Events([], levels) == [];
      ResolvedMatches(Replayed(t, levels).at, s.buffered, b.lastId, levels);
    }
  }

  /** Ids are unsigned in the input. */
  ghost predicate InputUnsigned(messages: seq<P.Message>, start: P.Snapshot) {
    && start.lastId >= 0
    && forall k {:trigger messages[k]} | 0 <= k < |messages| ::
         (messages[k].Delta? ==> Unsigned(messages[k].update)) && (messages[k].Book? ==> messages[k].snapshot.lastId >= 0)
  }

  /** So after every message of the input the replay of what is written by then stands where the packer does. */
  lemma {:induction false} RunMirrors(messages: seq<P.Message>, start: P.Snapshot, endNs: int, researchStart: Option<int>, n: nat,
                                      levels: P.Record -> Levels)
    requires n <= |messages| && InputUnsigned(messages, start)
    ensures var t := TapeAt(messages, start, endNs, researchStart, n);
            Mirrors(Replayed(t, levels), Arrival(messages, start, endNs, n), t, levels)
  {
    if n == 0 {
      StartMirrors(start, researchStart, levels);
    } else {
      var i := n - 1;
      RunMirrors(messages, start, endNs, researchStart, i, levels);
      NextMirrors(messages, start, endNs, researchStart, i, n, levels);
    }
  }

  lemma NextMirrors(messages: seq<P.Message>, start: P.Snapshot, endNs: int, researchStart: Option<int>, m: nat, n: nat,
                    levels: P.Record -> Levels)
    requires n == m + 1 <= |messages| && InputUnsigned(messages, start)
    requires var t := TapeAt(messages, start, endNs, researchStart, m);
             Mirrors(Replayed(t, levels), Arrival(messages, start, endNs, m), t, levels)
    ensures var t := TapeAt(messages, start, endNs, researchStart, n);
            Mirrors(Replayed(t, levels), Arrival(messages, start, endNs, n), t, levels)
  {
    var s, t := Arrival(messages, start, endNs, m), TapeAt(messages, start, endNs, researchStart, m);
    assert n - 1 == m;
    assert Arrival(messages, start, endNs, n) == Next(s, messages[m], start, endNs);
    assert TapeAt(messages, start, endNs, researchStart, n) == Taken(t, s, messages[m], start, endNs);
    StepMirrors(s, t, messages[m], start, endNs, levels);
  }

  lemma StartMirrors(start: P.Snapshot, researchStart: Option<int>, levels: P.Record -> Levels)
    requires start.lastId >= 0
    ensures var base := P.BaseNs(start, researchStart);
            var t := P.Tape([P.Info(base), P.Open(base + 1), P.Snap(start.received, start.lastId)], [], None);
            Mirrors(Replayed(t, levels), P.Sync(P.Awaiting, start.lastId, start.lastId, [], None), t, levels)
  {
    var base := P.BaseNs(start, researchStart);
    var rs := [P.Info(base), P.Open(base + 1), P.Snap(start.received, start.lastId)];
    assert rs[..2] == [rs[0], rs[1]] && rs[..2][..1] == [rs[0]] && [rs[0]][..0] == [];
    assert HearsAll(SILENT, [rs[0]], levels) == SILENT;
    assert HearsAll(SILENT, rs[..2], levels) == Ear(true, Standing(Buffering, [], 0, 0));
  }

  lemma StepMirrors(s: P.Sync, t: P.Tape, m: P.Message, start: P.Snapshot, endNs: int, levels: P.Record -> Levels)
    requires Mirrors(Replayed(t, levels), s, t, levels)
    requires (m.Delta? ==> Unsigned(m.update)) && (m.Book? ==> m.snapshot.lastId >= 0)
    ensures Mirrors(Replayed(Taken(t, s, m, start, endNs), levels), Next(s, m, start, endNs), Taken(t, s, m, start, endNs), levels)
  {
    match m
    case Delta(u, complete) => PutMirrors(s, t, u, levels);
    case Book(b, usable) => ShelveMirrors(s, t, b, levels);
    case Other =>
  }

  /** In particular it is live exactly when the packer's book is, and it stands as far exactly when nothing is
      deferred; writing what is deferred takes it there. */
  ghost predicate Together(s: P.Sync, t: P.Tape, levels: P.Record -> Levels) {
    && (IsLive(Replayed(t, levels)) <==> s.mode == P.Live)
    && (s.mode == P.Live ==> (Replayed(t, levels).at.last == s.previousU <==> t.deferred == []))
    && (s.mode == P.Live ==> HearsAll(SILENT, P.Flushed(t).out, levels) == Ear(true, Standing(Live, [], 0, Id(s.previousU))))
  }

  lemma MirrorsTogether(s: P.Sync, t: P.Tape, levels: P.Record -> Levels)
    requires Mirrors(Replayed(t, levels), s, t, levels)
    ensures Together(s, t, levels)
  {
    if s.mode == P.Live {
      LeadsUp(t.deferred, Replayed(t, levels).at.last, s.previousU);
      TakesAll(Replayed(t, levels), t.deferred, s.previousU, levels);
      HearsJoin(SILENT, t.out, P.Records(t.deferred), levels);
    }
  }

  lemma LiveTogether(messages: seq<P.Message>, start: P.Snapshot, endNs: int, researchStart: Option<int>, n: nat, levels: P.Record -> Levels)
    requires n <= |messages| && InputUnsigned(messages, start)
    ensures Together(Arrival(messages, start, endNs, n), TapeAt(messages, start, endNs, researchStart, n), levels)
  {
    RunMirrors(messages, start, endNs, researchStart, n, levels);
    MirrorsTogether(Arrival(messages, start, endNs, n), TapeAt(messages, start, endNs, researchStart, n), levels);
  }

  lemma {:induction false} LeadsUp(us: seq<P.Update>, from: int, to: int)
    requires Leads(us, from, to)
    ensures from <= to && (from == to <==> us == [])
  {
    if us != [] {
      LeadsUp(us[1..], us[0].final, to);
    }
  }

  /** What is written stays written. */
  lemma TakenGrows(t: P.Tape, s: P.Sync, m: P.Message, start: P.Snapshot, endNs: int)
    ensures t.out <= Taken(t, s, m, start, endNs).out
  {
  }

  lemma {:induction false} TapeGrows(messages: seq<P.Message>, start: P.Snapshot, endNs: int, researchStart: Option<int>, m: nat, n: nat)
    requires m <= n <= |messages|
    ensures TapeAt(messages, start, endNs, researchStart, m).out <= TapeAt(messages, start, endNs, researchStart, n).out
    decreases n
  {
    if m < n {
      var i := n - 1;
      TapeGrows(messages, start, endNs, researchStart, m, i);
      TapeGrowsOnce(messages, start, endNs, researchStart, i, n, TapeAt(messages, start, endNs, researchStart, m).out);
    }
  }

  lemma TapeGrowsOnce(messages: seq<P.Message>, start: P.Snapshot, endNs: int, researchStart: Option<int>, m: nat, n: nat, was: seq<P.Record>)
    requires n == m + 1 <= |messages| && was <= TapeAt(messages, start, endNs, researchStart, m).out
    ensures was <= TapeAt(messages, start, endNs, researchStart, n).out
  {
    TakenGrows(TapeAt(messages, start, endNs, researchStart, m), Arrival(messages, start, endNs, m), messages[m], start, endNs);
  }

  lemma {:induction false} StaysConnected(rs: seq<P.Record>, n: nat, levels: P.Record -> Levels)
    requires 2 <= n <= |rs| && rs[1].Open?
    ensures HearsAll(SILENT, rs[..n], levels).at.state != Disconnected
    decreases n
  {
    assert rs[..n][..n - 1] == rs[..n - 1];
    if n > 2 {
      StaysConnected(rs, n - 1, levels);
      NeverDisconnects(HearsAll(SILENT, rs[..n - 1], levels), rs[n - 1], levels);
    }
  }

  lemma NeverDisconnects(e: Ear, r: P.Record, levels: P.Record -> Levels)
    requires e.at.state != Disconnected
    ensures Hears(e, r, levels).at.state != Disconnected
  {
    if r.Snap? {
      DrainedIsUp(Waiting(e.at.waiting, Id(r.id)));
    }
  }

  lemma DrainedIsUp(w: seq<DepthEvent>)
    ensures w != [] ==> Drained(w[1..], w[0].final).state != Disconnected
  {
    if w != [] {
      DrainedStates(w[1..], w[0].final);
    }
  }

  lemma {:induction false} DrainedStates(es: seq<DepthEvent>, last: nat)
    ensures Drained(es, last).state == Live || Drained(es, last).state == Resyncing
  {
    if es != [] {
      DrainedStates(es[1..], last);
      DrainedStates(es[1..], es[0].final);
    }
  }

  /** No snapshot of the packed stream is ignored: the synchroniser is connected whenever one comes, so it loads
      it, and takes what waits from there. */
  lemma SnapshotsLoad(messages: seq<P.Message>, start: P.Snapshot, endNs: int, researchStart: Option<int>, k: nat, levels: P.Record -> Levels)
    requires var out := Output(messages, start, endNs, researchStart); k < |out| && out[k].Snap?
    ensures var out := Output(messages, start, endNs, researchStart);
            HearsAll(SILENT, out[..k], levels).at.state != Disconnected
  {
    var out, first := Output(messages, start, endNs, researchStart), TapeAt(messages, start, endNs, researchStart, 0).out;
    TapeGrows(messages, start, endNs, researchStart, 0, |messages|);
    assert first <= out;
    StaysConnected(out, k, levels);
  }

  /** Replaying a stream through the synchroniser itself: the flag after each record, and whether every book on
      the way came out usable and the buffer had room. Then the flags are those the ids alone imply. */
  method Play(rs: seq<P.Record>, levels: P.Record -> Levels, limit: nat) returns (lives: seq<bool>, sound: bool)
    ensures |lives| == |rs|
    ensures sound ==> forall k {:trigger lives[k]} | 0 <= k < |rs| :: lives[k] <==> IsLive(HearsAll(SILENT, rs[..k + 1], levels))
  {
    var replayer := new EventReplayer(limit);
    lives, sound := [], true;
    for k := 0 to |rs|
      invariant fresh(replayer) && fresh(replayer.sync) && fresh(replayer.sync.book) && replayer.Valid() && |lives| == k
      invariant sound ==> Ear(replayer.depthConnected, replayer.sync.View()) == HearsAll(SILENT, rs[..k], levels)
      invariant sound ==> forall j {:trigger lives[j]} | 0 <= j < k :: lives[j] <==> IsLive(HearsAll(SILENT, rs[..j + 1], levels))
    {
      var _ := replayer.Deliver(MessageOf(rs[k], levels));
      if replayer.sync.state == SyncState.Invalid {
        sound := false;
      }
      HearsOne(SILENT, rs[..k], rs[k], levels);
      assert rs[..k] + [rs[k]] == rs[..k + 1];
      lives := lives + [replayer.Live()];
    }
  }

  /** So packing a history and replaying the result goes live and loses its book exactly when the packer says
      so: after each message the last record written by then shows the packer's mode. */
  method PackAndPlay(messages: seq<P.Message>, start: Option<P.Snapshot>, usable: bool, endNs: int, researchStart: Option<int>,
                     levels: P.Record -> Levels, limit: nat)
    returns (r: Option<seq<P.Record>>, lives: seq<bool>, sound: bool)
    requires start.Some? ==> InputUnsigned(messages, start.value)
    ensures r.None? <==> (start.None? || !usable || exists i :: 0 <= i < |messages| && LacksIds(messages[i], start.value, endNs))
    ensures r.Some? ==> r.value == Output(messages, start.value, endNs, researchStart) && |lives| == |r.value|
    ensures r.Some? && sound ==> forall n | 0 <= n <= |messages| ::
              var t := TapeAt(messages, start.value, endNs, researchStart, n);
              && 0 < |t.out| <= |lives| && t.out <= r.value
              && (lives[|t.out| - 1] <==> Arrival(messages, start.value, endNs, n).mode == P.Live)
  {
    r := Pack(messages, start, usable, endNs, researchStart);
    lives, sound := [], false;
    if r.Some? {
      lives, sound := Play(r.value, levels, limit);
      forall n | 0 <= n <= |messages|
        ensures var t := TapeAt(messages, start.value, endNs, researchStart, n);
                && 0 < |t.out| <= |r.value| && t.out <= r.value && t.out == r.value[..|t.out|]
                && (IsLive(Replayed(t, levels)) <==> Arrival(messages, start.value, endNs, n).mode == P.Live)
      {
        TapeGrows(messages, start.value, endNs, researchStart, 0, n);
        TapeGrows(messages, start.value, endNs, researchStart, n, |messages|);
        LiveTogether(messages, start.value, endNs, researchStart, n, levels);
      }
    }
  }
}
