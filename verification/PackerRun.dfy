/** A whole run of the historical packer (pyresearch/historical/l2.py:632-832) over its ordered input. */
module PackerRun {
  import opened Wrappers
  import opened P = Packer

  ghost predicate LacksIds(m: Message, start: Snapshot, endNs: int) {
    m.Delta? && InRange(m.update, start, endNs) && !m.complete
  }

  /** None of the first n messages does. */
  ghost predicate Complete(messages: seq<Message>, start: Snapshot, endNs: int, n: nat)
    requires n <= |messages|
  {
    n > 0 ==> Complete(messages, start, endNs, n - 1) && !LacksIds(messages[n - 1], start, endNs)
  }

  lemma {:induction false} StaysIncomplete(messages: seq<Message>, start: Snapshot, endNs: int, i: nat, n: nat)
    requires i <= n <= |messages| && !Complete(messages, start, endNs, i)
    ensures !Complete(messages, start, endNs, n)
    decreases n - i
  {
    if i < n {
      StaysIncomplete(messages, start, endNs, i + 1, n);
    }
  }

  lemma {:induction false} CompleteIff(messages: seq<Message>, start: Snapshot, endNs: int, n: nat)
    requires n <= |messages|
    ensures Complete(messages, start, endNs, n) <==> forall i | 0 <= i < n :: !LacksIds(messages[i], start, endNs)
  {
    if n > 0 {
      CompleteIff(messages, start, endNs, n - 1);
    }
  }

  function Next(s: Sync, m: Message, start: Snapshot, endNs: int): Sync {
    match m
    case Delta(u, complete) => if complete && InRange(u, start, endNs) then OnUpdate(s, u) else s
    case Book(b, usable) => if usable && SnapshotInRange(b, start, endNs) then OnSnapshot(s, b) else s
    case Other => s
  }

  /** The state in which the n-th message arrives. */
  function Arrival(messages: seq<Message>, start: Snapshot, endNs: int, n: nat): Sync
    requires n <= |messages|
  {
    if n == 0 then Sync(Awaiting, start.lastId, start.lastId, [], None)
    else Next(Arrival(messages, start, endNs, n - 1), messages[n - 1], start, endNs)
  }

  /** The i-th message is an update the book needs when it arrives. */
  predicate Needed(messages: seq<Message>, start: Snapshot, endNs: int, i: nat)
    requires i < |messages|
  {
    && messages[i].Delta? && messages[i].complete && InRange(messages[i].update, start, endNs)
    && var s := Arrival(messages, start, endNs, i); !Stale(s.mode, s.anchor, s.previousU, messages[i].update)
  }

  /** The needed updates of the first n messages, each once, in input order. */
  ghost function NeededUpdates(messages: seq<Message>, start: Snapshot, endNs: int, n: nat): seq<Update>
    requires n <= |messages|
  {
    if n == 0 then []
    else NeededUpdates(messages, start, endNs, n - 1)
         + if Needed(messages, start, endNs, n - 1) then [messages[n - 1].update] else []
  }

  /** The tape once the first n messages are taken. */
  function TapeAt(messages: seq<Message>, start: Snapshot, endNs: int, researchStart: Option<int>, n: nat): Tape
    requires n <= |messages|
  {
    if n == 0 then
      var base := BaseNs(start, researchStart);
      Tape([Info(base), Open(base + 1), Snap(start.received, start.lastId)], [], None)
    else
      Taken(TapeAt(messages, start, endNs, researchStart, n - 1), Arrival(messages, start, endNs, n - 1), messages[n - 1], start, endNs)
  }

  function Taken(t: Tape, s: Sync, m: Message, start: Snapshot, endNs: int): Tape {
    match m
    case Delta(u, complete) => if complete && InRange(u, start, endNs) then Put(t, s, u) else t
    case Book(b, usable) => if usable && SnapshotInRange(b, start, endNs) then Shelve(t, s, b) else t
    case Other => t
  }

  /** Everything written in the end. */
  function Output(messages: seq<Message>, start: Snapshot, endNs: int, researchStart: Option<int>): seq<Record> {
    Flushed(TapeAt(messages, start, endNs, researchStart, |messages|)).out
  }

  /** The records of a stream that are not updates. */
  ghost function Others(out: seq<Record>, n: nat): seq<Record>
    requires n <= |out|
  {
    if n == 0 then [] else Others(out, n - 1) + if out[n - 1].Upd? then [] else [out[n - 1]]
  }

  /** The stamp a gap is closed at: just behind the last update needed before it, but not past its own. */
  ghost function GateNs(needed: seq<Update>, m: Update): int {
    var last := if needed == [] || needed[|needed| - 1].received == 0 then m.received else needed[|needed| - 1].received;
    if last + 1 < m.received then last + 1 else m.received
  }

  /** What message i calls for besides its update: a snapshot the book can use at once; and where an update
      leaves a gap in a live book that the snapshot held back covers, the gap closed and that snapshot. */
  ghost function Calls(messages: seq<Message>, start: Snapshot, endNs: int, i: nat): seq<Record>
    requires i < |messages|
  {
    var s := Arrival(messages, start, endNs, i);
    match messages[i]
    case Delta(u, complete) =>
      if Needed(messages, start, endNs, i) && s.mode == Live && u.prev != s.previousU && s.held.Some?
         && u.first <= s.held.value.lastId <= u.final
      then [Close(GateNs(NeededUpdates(messages, start, endNs, i), u)), Open(u.received), Snap(u.received, s.held.value.lastId)] else []
    case Book(b, usable) =>
      if usable && SnapshotInRange(b, start, endNs) && s.mode != Live && !(s.mode == Awaiting && b.lastId == s.anchor)
      then [Snap(b.received, b.lastId)] else []
    case Other => []
  }

  ghost function AllCalls(messages: seq<Message>, start: Snapshot, endNs: int, researchStart: Option<int>, n: nat): seq<Record>
    requires n <= |messages|
  {
    if n == 0 then
      var base := BaseNs(start, researchStart);
      [Info(base), Open(base + 1), Snap(start.received, start.lastId)]
    else AllCalls(messages, start, endNs, researchStart, n - 1) + Calls(messages, start, endNs, n - 1)
  }

  lemma {:induction false} OthersJoin(a: seq<Record>, b: seq<Record>)
    ensures Others(a + b, |a + b|) == Others(a, |a|) + Others(b, |b|)
    ensures UpdatesOf(a + b, |a + b|) == UpdatesOf(a, |a|) + UpdatesOf(b, |b|)
    decreases |b|
  {
    if b == [] {
      assert a + b == a;
    } else {
      var front := b[..|b| - 1];
      OthersJoin(a, front);
      assert a + b == (a + front) + [b[|b| - 1]] && b == front + [b[|b| - 1]];
      OthersFront(a + front, b[|b| - 1], |a + front|);
      OthersFront(front, b[|b| - 1], |front|);
    }
  }

  lemma {:induction false} OthersFront(out: seq<Record>, r: Record, n: nat)
    requires n <= |out|
    ensures Others(out + [r], n) == Others(out, n) && UpdatesOf(out + [r], n) == UpdatesOf(out, n)
  {
    if n > 0 {
      OthersFront(out, r, n - 1);
    }
  }

  lemma {:induction false} WrittenUpdates(us: seq<Update>)
    ensures Others(P.Records(us), |us|) == [] && UpdatesOf(P.Records(us), |us|) == us
  {
    if us != [] {
      var front := us[..|us| - 1];
      WrittenUpdates(front);
      assert P.Records(us) == P.Records(front) + [Upd(us[|us| - 1].received, us[|us| - 1])];
      OthersFront(P.Records(front), Upd(us[|us| - 1].received, us[|us| - 1]), |front|);
      assert front + [us[|us| - 1]] == us;
    }
  }

  lemma {:induction false} NoUpdates(rs: seq<Record>, n: nat)
    requires n <= |rs| && forall k | 0 <= k < n :: !rs[k].Upd?
    ensures Others(rs, n) == rs[..n] && UpdatesOf(rs, n) == []
  {
    if n > 0 {
      NoUpdates(rs, n - 1);
    }
  }

  /** A tape accounts for updates and other records: once what it defers is written it holds these updates, in
      order, and these others. */
  ghost predicate Holds(t: Tape, updates: seq<Update>, others: seq<Record>) {
    && UpdatesOf(t.out, |t.out|) + t.deferred == updates && Others(t.out, |t.out|) == others
    && LastStamp(t.last, t.deferred) == LastStamp(None, updates)
  }

  lemma FlushHolds(t: Tape, updates: seq<Update>, others: seq<Record>)
    requires Holds(t, updates, others)
    ensures Holds(Flushed(t), updates, others) && Flushed(t).deferred == []
  {
    OthersJoin(t.out, P.Records(t.deferred));
    WrittenUpdates(t.deferred);
  }

  lemma EmitHolds(t: Tape, m: Update, updates: seq<Update>, others: seq<Record>)
    requires Holds(t, updates, others) && t.deferred == []
    ensures Holds(Emitted(t, m), updates + [m], others)
  {
    OthersJoin(t.out, [Upd(m.received, m)]);
    WrittenUpdates([m]);
    assert P.Records([m]) == [Upd(m.received, m)];
  }

  lemma DeferHolds(t: Tape, m: Update, updates: seq<Update>, others: seq<Record>)
    requires Holds(t, updates, others)
    ensures Holds(t.(deferred := t.deferred + [m]), updates + [m], others)
  {
  }

  lemma WriteHolds(t: Tape, rs: seq<Record>, updates: seq<Update>, others: seq<Record>)
    requires Holds(t, updates, others) && t.deferred == [] && UpdatesOf(rs, |rs|) == [] && Others(rs, |rs|) == rs
    ensures Holds(t.(out := t.out + rs), updates, others + rs)
  {
    OthersJoin(t.out, rs);
  }

  /** A gap that is bridged. */
  lemma BridgeHolds(t: Tape, m: Update, id: int, updates: seq<Update>, others: seq<Record>)
    requires Holds(t, updates, others) && t.deferred == []
    ensures Holds(Tape(t.out + Bridge(t.last, m, id), [], Some(m.received)), updates + [m],
                  others + [Close(GateNs(updates, m)), Open(m.received), Snap(m.received, id)])
  {
    var rs := [Close(GateNs(updates, m)), Open(m.received), Snap(m.received, id)];
    NoUpdates(rs, 3);
    WriteHolds(t, rs, updates, others);
    EmitHolds(t.(out := t.out + rs), m, updates, others + rs);
    assert t.out + rs + [Upd(m.received, m)] == t.out + Bridge(t.last, m, id);
  }

  /** Nothing is deferred unless a snapshot is held by a live book. */
  ghost predicate Deferring(t: Tape, s: Sync) {
    (t.deferred != [] ==> s.mode == Live && s.held.Some?) && (s.mode != Live ==> s.held.None?)
    && (s.mode == Invalid <==> s.buffered != [])
  }

  lemma PutHolds(t: Tape, s: Sync, m: Update, updates: seq<Update>, others: seq<Record>)
    requires Holds(t, updates, others) && Deferring(t, s)
    ensures var gap := s.mode == Live && m.prev != s.previousU && s.held.Some? && m.first <= s.held.value.lastId <= m.final;
            var stale := Stale(s.mode, s.anchor, s.previousU, m);
            Holds(Put(t, s, m), updates + (if stale then [] else [m]),
                  others + if !stale && gap then [Close(GateNs(updates, m)), Open(m.received), Snap(m.received, s.held.value.lastId)] else [])
  {
    FlushHolds(t, updates, others);
    if Stale(s.mode, s.anchor, s.previousU, m) {
    } else if s.mode != Live {
      EmitHolds(t, m, updates, others);
    } else if m.prev == s.previousU {
      DeferHolds(t, m, updates, others);
      FlushHolds(t.(deferred := t.deferred + [m]), updates + [m], others);
      if s.held.None? {
        EmitHolds(t, m, updates, others);
      }
    } else if s.held.Some? && m.first <= s.held.value.lastId <= m.final {
      BridgeHolds(Flushed(t), m, s.held.value.lastId, updates, others);
    } else {
      EmitHolds(Flushed(t), m, updates, others);
    }
    assert updates + [] == updates && others + [] == others;
  }

  lemma ShelveHolds(t: Tape, s: Sync, b: Snapshot, updates: seq<Update>, others: seq<Record>)
    requires Holds(t, updates, others) && Deferring(t, s)
    ensures var rs := if s.mode != Live && !(s.mode == Awaiting && b.lastId == s.anchor) then [Snap(b.received, b.lastId)] else [];
            Holds(Shelve(t, s, b), updates, others + rs)
  {
    FlushHolds(t, updates, others);
    assert others + [] == others;
    if s.mode != Live {
      var rs := [Snap(b.received, b.lastId)];
      NoUpdates(rs, 1);
      WriteHolds(t, rs, updates, others);
    }
  }

  /** Some needed update among the first n messages has this final id. */
  ghost predicate Brought(messages: seq<Message>, start: Snapshot, endNs: int, n: nat, u: int)
    requires n <= |messages|
  {
    exists j: nat :: j < n && Needed(messages, start, endNs, j) && messages[j].update.final == u
  }

  /** A usable snapshot among the first n messages, or the initial one, has this id. */
  ghost predicate Anchored(messages: seq<Message>, start: Snapshot, endNs: int, n: nat, id: int)
    requires n <= |messages|
  {
    id == start.lastId
    || exists j: nat :: j < n && messages[j].Book? && messages[j].usable && SnapshotInRange(messages[j].snapshot, start, endNs)
                        && messages[j].snapshot.lastId == id
  }

  /** Every id the state rests on has come in by then. */
  ghost predicate Traced(messages: seq<Message>, start: Snapshot, endNs: int, n: nat, s: Sync)
    requires n <= |messages|
  {
    && Anchored(messages, start, endNs, n, s.anchor)
    && (s.mode == Live ==> Brought(messages, start, endNs, n, s.previousU))
    && forall k | 0 <= k < |s.buffered| :: Brought(messages, start, endNs, n, s.buffered[k].final)
  }

  lemma Later(messages: seq<Message>, start: Snapshot, endNs: int, n: nat, s: Sync)
    requires n < |messages| && Traced(messages, start, endNs, n, s)
    ensures Traced(messages, start, endNs, n + 1, s)
  {
  }

  lemma {:induction false} StandingIn(buffer: seq<Update>, k: nat, lastU: int)
    requires k <= |buffer|
    ensures Standing(buffer, k, lastU) == lastU || exists i :: k <= i < |buffer| && buffer[i].final == Standing(buffer, k, lastU)
    decreases |buffer| - k
  {
    if k < |buffer| {
      StandingIn(buffer, k + 1, lastU);
      StandingIn(buffer, k + 1, buffer[k].final);
    }
  }

  lemma ResolvedTraced(messages: seq<Message>, start: Snapshot, endNs: int, n: nat, kept: seq<Update>, id: int)
    requires n <= |messages| && Anchored(messages, start, endNs, n, id)
    requires forall k | 0 <= k < |kept| :: Brought(messages, start, endNs, n, kept[k].final)
    ensures Traced(messages, start, endNs, n, Resolved(kept, id))
  {
    if kept != [] {
      StandingIn(kept, 1, kept[0].final);
    }
  }

  lemma {:induction false} ArrivalTraced(messages: seq<Message>, start: Snapshot, endNs: int, n: nat)
    requires n <= |messages|
    ensures Traced(messages, start, endNs, n, Arrival(messages, start, endNs, n))
  {
    if n > 0 {
      ArrivalTraced(messages, start, endNs, n - 1);
      StepTraced(messages, start, endNs, n - 1, Arrival(messages, start, endNs, n - 1));
    }
  }

  lemma UpdateTraced(messages: seq<Message>, start: Snapshot, endNs: int, n: nat, s: Sync, u: Update)
    requires n <= |messages| && Traced(messages, start, endNs, n, s)
    requires !Stale(s.mode, s.anchor, s.previousU, u) ==> Brought(messages, start, endNs, n, u.final)
    ensures Traced(messages, start, endNs, n, OnUpdate(s, u))
  {
  }

  lemma SnapshotTraced(messages: seq<Message>, start: Snapshot, endNs: int, n: nat, s: Sync, b: Snapshot)
    requires n <= |messages| && Traced(messages, start, endNs, n, s) && Anchored(messages, start, endNs, n, b.lastId)
    ensures Traced(messages, start, endNs, n, OnSnapshot(s, b))
  {
    if s.mode != Live {
      ResolvedTraced(messages, start, endNs, n, s.buffered[LeadingStale(s.buffered, b.lastId, 0)..], b.lastId);
    }
  }

  lemma StepTraced(messages: seq<Message>, start: Snapshot, endNs: int, n: nat, s: Sync)
    requires n < |messages| && s == Arrival(messages, start, endNs, n) && Traced(messages, start, endNs, n, s)
    ensures Traced(messages, start, endNs, n + 1, Next(s, messages[n], start, endNs))
  {
    Later(messages, start, endNs, n, s);
    match messages[n]
    case Delta(u, complete) =>
      if complete && InRange(u, start, endNs) {
        UpdateTraced(messages, start, endNs, n + 1, s, u);
      }
    case Book(b, usable) =>
      if usable && SnapshotInRange(b, start, endNs) {
        SnapshotTraced(messages, start, endNs, n + 1, s, b);
      }
    case Other =>
  }

  /** An update that is not written was already contained when it arrived: an earlier snapshot is past it,
      or an earlier update that was written reaches it. */
  lemma UnneededIsContained(messages: seq<Message>, start: Snapshot, endNs: int, i: nat)
    requires i < |messages| && messages[i].Delta? && messages[i].complete && InRange(messages[i].update, start, endNs)
    requires !Needed(messages, start, endNs, i)
    ensures (exists id :: Anchored(messages, start, endNs, i, id) && messages[i].update.final < id)
         || (exists u :: Brought(messages, start, endNs, i, u) && messages[i].update.final <= u)
  {
    ArrivalTraced(messages, start, endNs, i);
  }

  lemma DeferringStays(t: Tape, s: Sync, m: Message, start: Snapshot, endNs: int)
    requires Deferring(t, s)
    ensures Deferring(Taken(t, s, m, start, endNs), Next(s, m, start, endNs))
  {
  }

  lemma {:induction false} AlwaysDeferring(messages: seq<Message>, start: Snapshot, endNs: int, researchStart: Option<int>, n: nat)
    requires n <= |messages|
    ensures Deferring(TapeAt(messages, start, endNs, researchStart, n), Arrival(messages, start, endNs, n))
  {
    if n > 0 {
      AlwaysDeferring(messages, start, endNs, researchStart, n - 1);
      DeferringStays(TapeAt(messages, start, endNs, researchStart, n - 1), Arrival(messages, start, endNs, n - 1), messages[n - 1], start, endNs);
    }
  }

  /** So the tape holds exactly the needed updates, and exactly the other records the messages call for. */
  lemma {:induction false} TapeHolds(messages: seq<Message>, start: Snapshot, endNs: int, researchStart: Option<int>, n: nat)
    requires n <= |messages|
    ensures Holds(TapeAt(messages, start, endNs, researchStart, n), NeededUpdates(messages, start, endNs, n),
                  AllCalls(messages, start, endNs, researchStart, n))
  {
    if n == 0 {
      var rs := AllCalls(messages, start, endNs, researchStart, 0);
      NoUpdates(rs, 3);
    } else {
      var i := n - 1;
      TapeHolds(messages, start, endNs, researchStart, i);
      AlwaysDeferring(messages, start, endNs, researchStart, i);
      TapeStep(messages, start, endNs, researchStart, i);
    }
  }

  lemma TapeStep(messages: seq<Message>, start: Snapshot, endNs: int, researchStart: Option<int>, i: nat)
    requires i < |messages|
    requires Holds(TapeAt(messages, start, endNs, researchStart, i), NeededUpdates(messages, start, endNs, i),
                   AllCalls(messages, start, endNs, researchStart, i))
    requires Deferring(TapeAt(messages, start, endNs, researchStart, i), Arrival(messages, start, endNs, i))
    ensures Holds(TapeAt(messages, start, endNs, researchStart, i + 1), NeededUpdates(messages, start, endNs, i + 1),
                  AllCalls(messages, start, endNs, researchStart, i + 1))
  {
    var t, s := TapeAt(messages, start, endNs, researchStart, i), Arrival(messages, start, endNs, i);
    var updates, others := NeededUpdates(messages, start, endNs, i), AllCalls(messages, start, endNs, researchStart, i);
    assert updates + [] == updates && others + [] == others;
    match messages[i]
    case Delta(u, complete) =>
      if complete && InRange(u, start, endNs) {
        PutHolds(t, s, u, updates, others);
      }
    case Book(b, usable) =>
      if usable && SnapshotInRange(b, start, endNs) {
        ShelveHolds(t, s, b, updates, others);
      }
    case Other =>
  }

  /** One message of the input; false when an update lacks its ids. */
  method Feed(p: Packer, m: Message) returns (ok: bool)
    requires p.Valid()
    modifies p
    ensures p.Valid() && (ok <==> !LacksIds(m, p.start, p.endNs))
    ensures ok ==> p.View() == Next(old(p.View()), m, p.start, p.endNs)
    ensures ok ==> p.Taped() == Taken(old(p.Taped()), old(p.View()), m, p.start, p.endNs)
    ensures var s := old(p.View());
            p.accepted == old(p.accepted)
                          + if m.Delta? && m.complete && InRange(m.update, p.start, p.endNs) && !Stale(s.mode, s.anchor, s.previousU, m.update)
                            then [m.update] else []
  {
    match m
    case Delta(update, complete) =>
      if !InRange(update, p.start, p.endNs) {
        return true;
      }
      if !complete {
        return false;
      }
      p.FeedUpdate(update);
      ok := true;
    case Book(snapshot, usable) =>
      if usable && SnapshotInRange(snapshot, p.start, p.endNs) {
        p.FeedSnapshot(snapshot);
      }
      ok := true;
    case Other =>
      ok := true;
  }

  /** Where the packer stands once the first n messages are taken. */
  ghost predicate Took(p: Packer, messages: seq<Message>, researchStart: Option<int>, n: nat)
    requires n <= |messages|
    reads p
  {
    && p.Valid() && p.View() == Arrival(messages, p.start, p.endNs, n) && p.accepted == NeededUpdates(messages, p.start, p.endNs, n)
    && p.Taped() == TapeAt(messages, p.start, p.endNs, researchStart, n)
  }

  method FeedNext(p: Packer, messages: seq<Message>, ghost researchStart: Option<int>, i: nat) returns (ok: bool)
    requires i < |messages| && Took(p, messages, researchStart, i) && Complete(messages, p.start, p.endNs, i)
    modifies p
    ensures p.Valid() && (ok <==> Complete(messages, p.start, p.endNs, i + 1)) && (ok ==> Took(p, messages, researchStart, i + 1))
  {
    ok := Feed(p, messages[i]);
  }

  method FeedAll(p: Packer, messages: seq<Message>, ghost researchStart: Option<int>) returns (ok: bool)
    requires Took(p, messages, researchStart, 0)
    modifies p
    ensures p.Valid() && (ok <==> Complete(messages, p.start, p.endNs, |messages|))
    ensures ok ==> Took(p, messages, researchStart, |messages|)
  {
    ok := true;
    var i := 0;
    while ok && i < |messages|
      invariant 0 <= i <= |messages| && p.Valid() && (ok <==> Complete(messages, p.start, p.endNs, i))
      invariant ok ==> Took(p, messages, researchStart, i)
    {
      ok := FeedNext(p, messages, researchStart, i);
      i := i + 1;
    }
    if !ok {
      StaysIncomplete(messages, p.start, p.endNs, i, |messages|);
    }
  }

  /** The whole run: it fails exactly without a usable snapshot or on an update without ids; otherwise the
      updates written are exactly those needed when they arrived, each once, in input order, and the snapshots
      and connections between them exactly those the messages call for. */
  method Pack(messages: seq<Message>, start: Option<Snapshot>, usable: bool, endNs: int, researchStart: Option<int>)
    returns (r: Option<seq<Record>>)
    ensures r.None? <==> (start.None? || !usable || exists i :: 0 <= i < |messages| && LacksIds(messages[i], start.value, endNs))
    ensures r.Some? ==> UpdatesOf(r.value, |r.value|) == NeededUpdates(messages, start.value, endNs, |messages|)
    ensures r.Some? ==> Others(r.value, |r.value|) == AllCalls(messages, start.value, endNs, researchStart, |messages|)
    ensures r.Some? ==> r.value == Output(messages, start.value, endNs, researchStart)
  {
    if start.None? || !usable {
      return None;
    }
    var p := new Packer(start.value, endNs, researchStart);
    var ok := FeedAll(p, messages, researchStart);
    CompleteIff(messages, start.value, endNs, |messages|);
    if !ok {
      return None;
    }
    var written := p.Finish();
    TapeHolds(messages, start.value, endNs, researchStart, |messages|);
    FlushHolds(TapeAt(messages, start.value, endNs, researchStart, |messages|), NeededUpdates(messages, start.value, endNs, |messages|),
               AllCalls(messages, start.value, endNs, researchStart, |messages|));
    r := Some(p.out);
  }
}
