/** The historical packer (pyresearch/historical/l2.py:632-832): it turns ordered depth messages into the
    record stream of the live pipeline, deferring live updates while a newer snapshot is held back. */
module Packer {
  import opened Wrappers

  /** A depth message; an update without its three ids is an error, and other event types are ignored. */
  datatype Update = Update(received: int, first: int, final: int, prev: int, ordinal: int)
  datatype Snapshot = Snapshot(received: int, lastId: int, ordinal: int)
  datatype Message = Delta(update: Update, complete: bool) | Book(snapshot: Snapshot, usable: bool) | Other

  datatype Mode = Awaiting | Live | Invalid

  datatype Record = Info(ns: int) | Open(ns: int) | Close(ns: int) | Snap(ns: int, id: int) | Upd(ns: int, update: Update)

  function OrMinusOne(x: int): int { if x == 0 then -1 else x }

  function UpdateKey(m: Update): seq<int> {
    [m.received, OrMinusOne(m.final), 1, OrMinusOne(m.first), OrMinusOne(m.prev), m.ordinal]
  }

  function SnapshotKey(s: Snapshot): seq<int> {
    [s.received, OrMinusOne(s.lastId), 0, -1, -1, s.ordinal]
  }

  /** Tuples compare by their first difference. */
  predicate KeyAtMost(a: seq<int>, b: seq<int>, i: nat)
    requires i <= |a| == |b|
    decreases |a| - i
  {
    i == |a| || a[i] < b[i] || (a[i] == b[i] && KeyAtMost(a, b, i + 1))
  }

  /** The updates of the first n records, and the id of the last snapshot among them. */
  ghost function UpdatesOf(out: seq<Record>, n: nat): seq<Update>
    requires n <= |out|
  {
    if n == 0 then [] else UpdatesOf(out, n - 1) + if out[n - 1].Upd? then [out[n - 1].update] else []
  }

  ghost function LastSnap(out: seq<Record>, n: nat): Option<int>
    requires n <= |out|
  {
    if n == 0 then None else if out[n - 1].Snap? then Some(out[n - 1].id) else LastSnap(out, n - 1)
  }

  lemma {:induction false} OutPrefix(out: seq<Record>, r: Record, n: nat)
    requires n <= |out|
    ensures UpdatesOf(out + [r], n) == UpdatesOf(out, n) && LastSnap(out + [r], n) == LastSnap(out, n)
  {
    if n > 0 {
      OutPrefix(out, r, n - 1);
    }
  }

  lemma Written(out: seq<Record>, r: Record)
    ensures UpdatesOf(out + [r], |out| + 1) == UpdatesOf(out, |out|) + if r.Upd? then [r.update] else []
    ensures LastSnap(out + [r], |out| + 1) == if r.Snap? then Some(r.id) else LastSnap(out, |out|)
  {
    OutPrefix(out, r, |out|);
  }

  predicate Brackets(m: Update, id: int) {
    m.first <= id <= m.final
  }

  /** Ascending positions in the accepted updates. */
  ghost predicate Ascending(at: seq<nat>, n: nat) {
    (forall i | 0 <= i < |at| :: at[i] < n) && (forall i, j | 0 <= i < j < |at| :: at[i] < at[j])
  }

  /** A live book: the first link brackets the snapshot, each next update names the one before it as
      its predecessor, and the last one is where the book stands. */
  ghost predicate Chain(accepted: seq<Update>, links: seq<nat>, id: int, lastU: int) {
    && Ascending(links, |accepted|) && links != []
    && Brackets(accepted[links[0]], id)
    && (forall i | 0 < i < |links| :: accepted[links[i]].prev == accepted[links[i - 1]].final < accepted[links[i]].final)
    && accepted[links[|links| - 1]].final == lastU
  }

  /** The buffer holds accepted updates, in order. */
  ghost predicate Slots(accepted: seq<Update>, slots: seq<nat>, buffered: seq<Update>) {
    && Ascending(slots, |accepted|) && |slots| == |buffered|
    && forall i | 0 <= i < |slots| :: accepted[slots[i]] == buffered[i]
  }

  lemma ChainGrows(accepted: seq<Update>, links: seq<nat>, id: int, lastU: int, m: Update)
    requires Chain(accepted, links, id, lastU)
    ensures Chain(accepted + [m], links, id, lastU)
    ensures m.prev == lastU < m.final ==> Chain(accepted + [m], links + [|accepted|], id, m.final)
  {
  }

  lemma SlotsGrow(accepted: seq<Update>, slots: seq<nat>, buffered: seq<Update>, m: Update)
    requires Slots(accepted, slots, buffered)
    ensures Slots(accepted + [m], slots, buffered)
    ensures Slots(accepted + [m], slots + [|accepted|], buffered + [m])
  {
  }

  /** An update the packer does not need: the book already contains it. */
  predicate Stale(mode: Mode, anchor: int, previousU: int, m: Update) {
    (mode == Awaiting && m.final < anchor) || (mode == Live && m.final <= previousU)
  }

  /** How many updates at the front a snapshot already contains. */
  function LeadingStale(buffer: seq<Update>, id: int, k: nat): (n: nat)
    requires k <= |buffer|
    ensures k <= n <= |buffer| && (n < |buffer| ==> buffer[n].final >= id)
    decreases |buffer| - k
  {
    if k < |buffer| && buffer[k].final < id then LeadingStale(buffer, id, k + 1) else k
  }

  /** The first buffered update that does not continue a book standing at lastU, repeats aside. */
  function FirstBreak(buffer: seq<Update>, k: nat, lastU: int): (n: nat)
    requires k <= |buffer|
    ensures k <= n <= |buffer|
    decreases |buffer| - k
  {
    if k == |buffer| then k
    else if buffer[k].final <= lastU then FirstBreak(buffer, k + 1, lastU)
    else if buffer[k].prev == lastU then FirstBreak(buffer, k + 1, buffer[k].final)
    else k
  }

  /** Which buffered update keeps the book from going live on a snapshot: none when the first brackets it
      and the rest continue it. */
  function Offender(buffer: seq<Update>, id: int): (n: nat)
    ensures n <= |buffer|
  {
    if buffer == [] then 0 else if !Brackets(buffer[0], id) then 0 else FirstBreak(buffer, 1, buffer[0].final)
  }

  /** Updates as written. */
  function Records(us: seq<Update>): (rs: seq<Record>)
    ensures |rs| == |us| && forall i | 0 <= i < |us| :: rs[i] == Upd(us[i].received, us[i])
  {
    seq(|us|, i requires 0 <= i < |us| => Upd(us[i].received, us[i]))
  }

  function LastStamp(was: Option<int>, us: seq<Update>): Option<int> {
    if us == [] then was else Some(us[|us| - 1].received)
  }

  /** The stream around a covered gap: gate it, reconnect, and start over from the held snapshot. */
  function Bridge(last: Option<int>, m: Update, id: int): seq<Record> {
    var from := if last.Some? && last.value != 0 then last.value else m.received;
    [Close(if from + 1 < m.received then from + 1 else m.received), Open(m.received), Snap(m.received, id), Upd(m.received, m)]
  }

  lemma SlotsDrop(accepted: seq<Update>, slots: seq<nat>, buffered: seq<Update>)
    requires Slots(accepted, slots, buffered) && buffered != []
    ensures Slots(accepted, slots[1..], buffered[1..]) && Slots(accepted, [slots[0]], [buffered[0]])
  {
  }

  lemma OneSlot(accepted: seq<Update>, slots: seq<nat>, buffered: seq<Update>, k: nat)
    requires Slots(accepted, slots, buffered) && k < |buffered|
    ensures Slots(accepted, [slots[k]], [buffered[k]])
  {
  }

  /** The chain takes in the k-th buffered update. */
  lemma ChainTakes(accepted: seq<Update>, links: seq<nat>, id: int, lastU: int, slots: seq<nat>, buffered: seq<Update>, k: nat)
    requires Chain(accepted, links, id, lastU) && Slots(accepted, slots, buffered) && k < |buffered|
    requires links[|links| - 1] < slots[k] && buffered[k].prev == lastU < buffered[k].final
    ensures Chain(accepted, links + [slots[k]], id, buffered[k].final)
  {
  }

  /** Messages at or before the initial snapshot, or past the end, are ignored. */
  predicate InRange(m: Update, start: Snapshot, endNs: int) {
    !KeyAtMost(UpdateKey(m), SnapshotKey(start), 0) && m.received < endNs
  }

  predicate SnapshotInRange(s: Snapshot, start: Snapshot, endNs: int) {
    !KeyAtMost(SnapshotKey(s), SnapshotKey(start), 0) && s.received < endNs
  }

  /** In the input's order, an update comes after the initial snapshot when it is received later, or at the same
      time with an id at least as high; and a snapshot when it is received later, or at the same time with a
      higher id, or with the same id further on in its file. Id zero orders like none. */
  lemma AfterTheStart(m: Update, b: Snapshot, start: Snapshot, endNs: int)
    ensures var id, from := if m.final == 0 then -1 else m.final, if start.lastId == 0 then -1 else start.lastId;
            InRange(m, start, endNs) <==> m.received < endNs && (m.received > start.received || (m.received == start.received && id >= from))
    ensures var id, from := if b.lastId == 0 then -1 else b.lastId, if start.lastId == 0 then -1 else start.lastId;
            (SnapshotInRange(b, start, endNs)
             <==> b.received < endNs
                  && (b.received > start.received || (b.received == start.received && (id > from || (id == from && b.ordinal > start.ordinal)))))
  {
    var u, k, f := UpdateKey(m), SnapshotKey(b), SnapshotKey(start);
    assert KeyAtMost(u, f, 0) <==> u[0] < f[0] || (u[0] == f[0] && KeyAtMost(u, f, 1));
    assert KeyAtMost(u, f, 1) <==> u[1] < f[1] || (u[1] == f[1] && KeyAtMost(u, f, 2));
    assert !KeyAtMost(u, f, 2);
    assert KeyAtMost(k, f, 0) <==> k[0] < f[0] || (k[0] == f[0] && KeyAtMost(k, f, 1));
    assert KeyAtMost(k, f, 1) <==> k[1] < f[1] || (k[1] == f[1] && KeyAtMost(k, f, 2));
    assert KeyAtMost(k, f, 2) <==> KeyAtMost(k, f, 3);
    assert KeyAtMost(k, f, 3) <==> KeyAtMost(k, f, 4);
    assert KeyAtMost(k, f, 4) <==> KeyAtMost(k, f, 5);
    assert KeyAtMost(k, f, 5) <==> k[5] < f[5] || (k[5] == f[5] && KeyAtMost(k, f, 6));
  }

  /** Where the book of a buffer stands once its updates are taken as far as they continue. */
  function Standing(buffer: seq<Update>, k: nat, lastU: int): int
    requires k <= |buffer|
    decreases |buffer| - k
  {
    if k == |buffer| then lastU
    else if buffer[k].final <= lastU then Standing(buffer, k + 1, lastU)
    else if buffer[k].prev == lastU then Standing(buffer, k + 1, buffer[k].final)
    else lastU
  }

  /** What decides the fate of the next message. */
  datatype Sync = Sync(mode: Mode, anchor: int, previousU: int, buffered: seq<Update>, held: Option<Snapshot>)

  /** The state an update leaves. */
  function OnUpdate(s: Sync, m: Update): Sync {
    if Stale(s.mode, s.anchor, s.previousU, m) then s
    else match s.mode
      case Awaiting =>
        if Brackets(m, s.anchor) then s.(mode := Live, previousU := m.final)
        else s.(mode := Invalid, previousU := m.final, buffered := [m])
      case Invalid => s.(buffered := s.buffered + [m])
      case Live =>
        if m.prev == s.previousU then
          s.(previousU := m.final, held := if s.held.Some? && m.final < s.held.value.lastId then s.held else None)
        else if s.held.Some? && Brackets(m, s.held.value.lastId) then s.(previousU := m.final, held := None)
        else s.(mode := Invalid, previousU := m.final, buffered := [m], held := None)
  }

  /** The state a usable snapshot leaves. */
  function OnSnapshot(s: Sync, b: Snapshot): Sync {
    if s.mode == Live then
      if b.lastId <= s.previousU || (s.held.Some? && s.held.value.lastId == b.lastId) then s else s.(held := Some(b))
    else if s.mode == Awaiting && s.buffered == [] && b.lastId == s.anchor then s
    else Resolved(s.buffered[LeadingStale(s.buffered, b.lastId, 0)..], b.lastId)
  }

  /** Outside a live book: what the updates a snapshot does not contain make of it. */
  function Resolved(kept: seq<Update>, id: int): Sync {
    if kept == [] then Sync(Awaiting, id, id, [], None)
    else if !Brackets(kept[0], id) then Sync(Invalid, id, id, [kept[0]], None)
    else
      var n, u := FirstBreak(kept, 1, kept[0].final), Standing(kept, 1, kept[0].final);
      if n == |kept| then Sync(Live, id, u, [], None) else Sync(Invalid, id, u, [kept[n]], None)
  }

  /** Where the stream is anchored: at the research start when that leaves room before the snapshot. */
  function BaseNs(start: Snapshot, researchStart: Option<int>): (base: int)
    ensures base + 1 < start.received || base == 0 || base == start.received - 2
  {
    if researchStart.Some? && researchStart.value + 1 < start.received then researchStart.value
    else if start.received - 2 > 0 then start.received - 2 else 0
  }

  /** What has been written, what waits to be, and the stamp of the last update written. */
  datatype Tape = Tape(out: seq<Record>, deferred: seq<Update>, last: Option<int>)

  function Emitted(t: Tape, m: Update): Tape {
    t.(out := t.out + [Upd(m.received, m)], last := Some(m.received))
  }

  function Flushed(t: Tape): Tape {
    Tape(t.out + Records(t.deferred), [], LastStamp(t.last, t.deferred))
  }

  /** The tape an update leaves: written at once, or behind what was deferred, or deferred itself while a
      newer snapshot is held; and around a gap the held snapshot covers, a bridge. */
  function Put(t: Tape, s: Sync, m: Update): Tape {
    if Stale(s.mode, s.anchor, s.previousU, m) then t
    else if s.mode != Live then Emitted(t, m)
    else if m.prev == s.previousU then
      if s.held.None? then Emitted(t, m)
      else if m.final < s.held.value.lastId then t.(deferred := t.deferred + [m])
      else Flushed(t.(deferred := t.deferred + [m]))
    else if s.held.Some? && Brackets(m, s.held.value.lastId) then
      Tape(Flushed(t).out + Bridge(Flushed(t).last, m, s.held.value.lastId), [], Some(m.received))
    else Emitted(Flushed(t), m)
  }

  /** And a usable snapshot: written at once unless the book is live or already waits for just that id. */
  function Shelve(t: Tape, s: Sync, b: Snapshot): Tape {
    if s.mode == Live then
      if s.held.None? || b.lastId <= s.previousU || b.lastId == s.held.value.lastId then t else Flushed(t)
    else if s.mode == Awaiting && s.buffered == [] && b.lastId == s.anchor then t
    else t.(out := t.out + [Snap(b.received, b.lastId)])
  }

  class Packer {
    const start: Snapshot
    const endNs: int
    var out: seq<Record>
    var mode: Mode
    var previousU: int
    var anchor: int
    var buffered: seq<Update>
    var held: Option<Snapshot>
    var deferred: seq<Update>
    var lastUpdateNs: Option<int>
    /** Every update not stale when it arrived; the ones the live book is made of; the buffered ones. */
    ghost var accepted: seq<Update>
    ghost var links: seq<nat>
    ghost var slots: seq<nat>

    ghost predicate Valid()
      reads this
    {
      && UpdatesOf(out, |out|) + deferred == accepted
      && LastSnap(out, |out|).Some?
      && (mode == Awaiting ==> anchor == LastSnap(out, |out|).value)
      && (mode == Live ==> Chain(accepted, links, LastSnap(out, |out|).value, previousU))
      && (buffered != [] <==> mode == Invalid)
      && Slots(accepted, slots, buffered)
      && (held.Some? ==> mode == Live && held.value.lastId > previousU)
      && (deferred != [] ==> held.Some?)
    }

    function View(): Sync
      reads `mode, `anchor, `previousU, `buffered, `held
    {
      Sync(mode, anchor, previousU, buffered, held)
    }

    function Taped(): Tape
      reads `out, `deferred, `lastUpdateNs
    {
      Tape(out, deferred, lastUpdateNs)
    }

    /** A raw stream starts with the instrument, a connection and the initial snapshot. */
    constructor (start: Snapshot, endNs: int, researchStart: Option<int>)
      ensures Valid() && accepted == [] && this.start == start && this.endNs == endNs
      ensures View() == Sync(Awaiting, start.lastId, start.lastId, [], None)
      ensures var base := BaseNs(start, researchStart);
              Taped() == Tape([Info(base), Open(base + 1), Snap(start.received, start.lastId)], [], None)
    {
      this.start, this.endNs := start, endNs;
      var base := BaseNs(start, researchStart);
      out := [];
      mode, previousU, anchor := Awaiting, start.lastId, start.lastId;
      buffered, held, deferred, lastUpdateNs := [], None, [], None;
      accepted, links, slots := [], [], [];
      new;
      Write(Info(base));
      Write(Open(base + 1));
      Write(Snap(start.received, start.lastId));
    }

    /** One record that is not an update. */
    method Write(r: Record)
      requires !r.Upd?
      modifies `out
      ensures out == old(out) + [r] && UpdatesOf(out, |out|) == UpdatesOf(old(out), |old(out)|)
      ensures LastSnap(out, |out|) == if r.Snap? then Some(r.id) else LastSnap(old(out), |old(out)|)
    {
      Written(out, r);
      out := out + [r];
    }

    method EmitUpdate(m: Update)
      modifies `out, `lastUpdateNs
      ensures Taped() == Emitted(old(Taped()), m) && UpdatesOf(out, |out|) == UpdatesOf(old(out), |old(out)|) + [m]
      ensures LastSnap(out, |out|) == LastSnap(old(out), |old(out)|)
    {
      Written(out, Upd(m.received, m));
      out := out + [Upd(m.received, m)];
      lastUpdateNs := Some(m.received);
    }

    /** Deferred updates are written in the order they arrived. */
    method FlushDeferred()
      modifies `out, `deferred, `lastUpdateNs
      ensures deferred == [] && UpdatesOf(out, |out|) == UpdatesOf(old(out), |old(out)|) + old(deferred)
      ensures LastSnap(out, |out|) == LastSnap(old(out), |old(out)|)
      ensures Taped() == Flushed(old(Taped()))
    {
      var i := 0;
      while i < |deferred|
        invariant 0 <= i <= |deferred| && deferred == old(deferred)
        invariant out == old(out) + Records(deferred[..i]) && lastUpdateNs == LastStamp(old(lastUpdateNs), deferred[..i])
        invariant UpdatesOf(out, |out|) == UpdatesOf(old(out), |old(out)|) + deferred[..i]
        invariant LastSnap(out, |out|) == LastSnap(old(out), |old(out)|)
      {
        EmitUpdate(deferred[i]);
        assert Records(deferred[..i + 1]) == Records(deferred[..i]) + [Upd(deferred[i].received, deferred[i])];
        i := i + 1;
      }
      assert deferred[..i] == deferred;
      deferred := [];
    }

    /** While a snapshot is awaited, the next update it does not already contain decides. */
    method AwaitedUpdate(m: Update)
      requires Valid() && mode == Awaiting && m.final >= anchor
      modifies this
      ensures Valid() && accepted == old(accepted) + [m] && previousU == m.final && out == old(out) + Records([m])
      ensures Taped() == Emitted(old(Taped()), m)
      ensures mode == Invalid ==> buffered == [m]
      ensures mode == (if Brackets(m, anchor) then Live else Invalid) && View() == OnUpdate(old(View()), m)
    {
      SlotsGrow(accepted, slots, buffered, m);
      EmitUpdate(m);
      accepted := accepted + [m];
      previousU := m.final;
      if Brackets(m, anchor) {
        mode := Live;
        links := [|accepted| - 1];
      } else {
        mode := Invalid;
        slots := [|accepted| - 1];
        buffered := [m];
      }
    }

    method InvalidUpdate(m: Update)
      requires Valid() && mode == Invalid
      modifies this
      ensures Valid() && accepted == old(accepted) + [m] && mode == Invalid
      ensures out == old(out) + Records([m]) && View() == OnUpdate(old(View()), m) && Taped() == Emitted(old(Taped()), m)
    {
      SlotsGrow(accepted, slots, buffered, m);
      EmitUpdate(m);
      slots := slots + [|accepted|];
      accepted := accepted + [m];
      buffered := buffered + [m];
    }

    /** A contiguous update is written at once, or deferred while a newer snapshot is held. */
    method Deliver(m: Update)
      requires deferred != [] ==> held.Some?
      modifies `out, `deferred, `held, `lastUpdateNs
      ensures UpdatesOf(out, |out|) + deferred == UpdatesOf(old(out), |old(out)|) + old(deferred) + [m]
      ensures LastSnap(out, |out|) == LastSnap(old(out), |old(out)|)
      ensures deferred != [] ==> held.Some?
      ensures Delivered(old(out), old(deferred), old(held), m)
      ensures Taped() == if old(held).None? then Emitted(old(Taped()), m)
                           else if m.final < old(held).value.lastId then old(Taped()).(deferred := old(deferred) + [m])
                           else Flushed(old(Taped()).(deferred := old(deferred) + [m]))
      ensures held == if old(held).Some? && m.final < old(held).value.lastId then old(held) else None
    {
      if held.None? {
        EmitUpdate(m);
      } else {
        deferred := deferred + [m];
        if m.final >= held.value.lastId {
          FlushDeferred();
          held := None;
        }
      }
    }

    /** Where a contiguous update goes: straight out, to the deferred ones, or out behind them once the
        held snapshot is no longer ahead. */
    ghost predicate Delivered(was: seq<Record>, waiting: seq<Update>, snapshot: Option<Snapshot>, m: Update)
      reads `out, `deferred
    {
      if snapshot.None? then out == was + Records([m]) && deferred == waiting
      else if m.final < snapshot.value.lastId then out == was && deferred == waiting + [m]
      else out == was + Records(waiting + [m]) && deferred == []
    }

    /** The next link of a live book. */
    method ContiguousUpdate(m: Update)
      requires Valid() && mode == Live && m.final > previousU && m.prev == previousU
      modifies this
      ensures Valid() && accepted == old(accepted) + [m] && mode == Live && previousU == m.final
      ensures Delivered(old(out), old(deferred), old(held), m) && View() == OnUpdate(old(View()), m)
      ensures Taped() == Put(old(Taped()), old(View()), m)
    {
      Deliver(m);
      Link(m, LastSnap(out, |out|).value);
    }

    /** The chain of the live book grows by one. */
    method Link(m: Update, ghost id: int)
      requires Chain(accepted, links, id, previousU) && Slots(accepted, slots, buffered) && m.prev == previousU < m.final
      modifies `links, `accepted, `previousU
      ensures Chain(accepted, links, id, previousU) && Slots(accepted, slots, buffered)
      ensures accepted == old(accepted) + [m] && previousU == m.final
    {
      ChainGrows(accepted, links, id, previousU, m);
      SlotsGrow(accepted, slots, buffered, m);
      links, accepted, previousU := links + [|accepted|], accepted + [m], m.final;
    }

    predicate Covered(m: Update)
      reads this
    {
      held.Some? && Brackets(m, held.value.lastId)
    }

    /** Gate the unobserved interval and start over from the held snapshot. */
    method Restart(m: Update)
      requires held.Some?
      modifies `out, `deferred, `held, `lastUpdateNs
      ensures UpdatesOf(out, |out|) == UpdatesOf(old(out), |old(out)|) + old(deferred) + [m]
      ensures LastSnap(out, |out|) == Some(old(held).value.lastId) && deferred == [] && held == None && lastUpdateNs == Some(m.received)
      ensures out == old(out) + Records(old(deferred)) + Bridge(LastStamp(old(lastUpdateNs), old(deferred)), m, old(held).value.lastId)
    {
      FlushDeferred();
      var last := if lastUpdateNs.Some? && lastUpdateNs.value != 0 then lastUpdateNs.value else m.received;
      Write(Close(if last + 1 < m.received then last + 1 else m.received));
      Write(Open(m.received));
      Write(Snap(m.received, held.value.lastId));
      EmitUpdate(m);
      held := None;
    }

    /** A gap the held snapshot covers: the book goes on from the snapshot and this update. */
    method BridgedUpdate(m: Update)
      requires Valid() && mode == Live && m.prev != previousU && m.final > previousU && Covered(m)
      modifies this
      ensures View() == OnUpdate(old(View()), m) && Taped() == Put(old(Taped()), old(View()), m)
      ensures Valid() && accepted == old(accepted) + [m] && mode == Live && previousU == m.final && held == None
      ensures out == old(out) + Records(old(deferred)) + Bridge(LastStamp(old(lastUpdateNs), old(deferred)), m, old(held).value.lastId)
    {
      SlotsGrow(accepted, slots, buffered, m);
      Restart(m);
      links := [|accepted|];
      accepted := accepted + [m];
      previousU := m.final;
    }

    /** Everything deferred is written, and the update behind it. */
    method Spill(m: Update)
      modifies `out, `deferred, `held, `lastUpdateNs
      ensures Taped() == Emitted(Flushed(old(Taped())), m) && held == None
      ensures out == old(out) + Records(old(deferred)) + Records([m])
      ensures UpdatesOf(out, |out|) == UpdatesOf(old(out), |old(out)|) + old(deferred) + [m]
      ensures LastSnap(out, |out|) == LastSnap(old(out), |old(out)|)
    {
      FlushDeferred();
      held := None;
      EmitUpdate(m);
    }

    /** A gap nothing covers: the book is invalid from this update on. */
    method BrokenUpdate(m: Update)
      requires Valid() && mode == Live && m.prev != previousU && m.final > previousU && !Covered(m)
      modifies this
      ensures View() == OnUpdate(old(View()), m) && Taped() == Put(old(Taped()), old(View()), m)
      ensures Valid() && accepted == old(accepted) + [m] && mode == Invalid && buffered == [m] && held == None
      ensures out == old(out) + Records(old(deferred)) + Records([m])
    {
      SlotsGrow(accepted, slots, buffered, m);
      Spill(m);
      slots := [|accepted|];
      accepted := accepted + [m];
      mode := Invalid;
      buffered := [m];
      previousU := m.final;
    }

    /** Every update that is not stale is accepted, once, in input order. */
    method FeedUpdate(m: Update)
      requires Valid()
      modifies this
      ensures Valid() && old(out) <= out
      ensures accepted == old(accepted) + if Stale(old(mode), old(anchor), old(previousU), m) then [] else [m]
      ensures View() == OnUpdate(old(View()), m) && Taped() == Put(old(Taped()), old(View()), m)
      ensures Stale(old(mode), old(anchor), old(previousU), m) ==> out == old(out)
      ensures old(mode) != Live && !Stale(old(mode), old(anchor), old(previousU), m) ==>
                out == old(out) + Records([m]) && (mode == Invalid ==> buffered == old(buffered) + [m])
      ensures old(mode) == Live && m.final > old(previousU) && m.prev == old(previousU) ==> Delivered(old(out), old(deferred), old(held), m)
      ensures old(mode) == Live && m.final > old(previousU) && m.prev != old(previousU) ==>
                (var gap := if old(Covered(m)) then Bridge(LastStamp(old(lastUpdateNs), old(deferred)), m, old(held).value.lastId) else Records([m]);
                 deferred == [] && held == None && out == old(out) + Records(old(deferred)) + gap)
    {
      if Stale(mode, anchor, previousU, m) {
        return;
      }
      if mode == Awaiting {
        AwaitedUpdate(m);
      } else if mode == Invalid {
        InvalidUpdate(m);
      } else if m.prev == previousU {
        ContiguousUpdate(m);
      } else if Covered(m) {
        BridgedUpdate(m);
      } else {
        BrokenUpdate(m);
      }
    }

    /** Buffered updates the new snapshot contains are dropped. */
    method DropContained(id: int)
      requires Slots(accepted, slots, buffered)
      modifies `buffered, `slots
      ensures Slots(accepted, slots, buffered)
      ensures buffered == old(buffered)[LeadingStale(old(buffered), id, 0)..]
    {
      ghost var k := 0;
      while buffered != [] && buffered[0].final < id
        invariant k <= |old(buffered)| && buffered == old(buffered)[k..] && Slots(accepted, slots, buffered)
        invariant LeadingStale(old(buffered), id, 0) == LeadingStale(old(buffered), id, k)
        decreases |buffered|
      {
        SlotsDrop(accepted, slots, buffered);
        buffered := buffered[1..];
        slots := slots[1..];
        k := k + 1;
      }
    }

    /** The buffer against the snapshot just written: the book is live exactly when its first update
        brackets the snapshot and the rest continue it; otherwise only the offending update stays. */
    method ResolveBuffered(id: int)
      requires Slots(accepted, slots, buffered) && buffered != []
      modifies `buffered, `slots, `links, `mode, `previousU
      ensures Slots(accepted, slots, buffered)
      ensures var n := Offender(old(buffered), id);
              if n == |old(buffered)| then mode == Live && buffered == [] && Chain(accepted, links, id, previousU)
              else mode == Invalid && buffered == [old(buffered)[n]]
      ensures previousU == if Brackets(old(buffered)[0], id) then Standing(old(buffered), 1, old(buffered)[0].final) else old(previousU)
    {
      if !Brackets(buffered[0], id) {
        SlotsDrop(accepted, slots, buffered);
        buffered := [buffered[0]];
        slots := [slots[0]];
        mode := Invalid;
        return;
      }
      previousU := buffered[0].final;
      links := [slots[0]];
      var k := 1;
      while k < |buffered|
        invariant 1 <= k <= |buffered| && buffered == old(buffered) && slots == old(slots)
        invariant Chain(accepted, links, id, previousU) && links[|links| - 1] <= slots[k - 1]
        invariant FirstBreak(buffered, 1, buffered[0].final) == FirstBreak(buffered, k, previousU)
        invariant Standing(buffered, 1, buffered[0].final) == Standing(buffered, k, previousU)
      {
        if buffered[k].final > previousU {
          if buffered[k].prev != previousU {
            OneSlot(accepted, slots, buffered, k);
            slots := [slots[k]];
            buffered := [buffered[k]];
            mode := Invalid;
            return;
          }
          ChainTakes(accepted, links, id, previousU, slots, buffered, k);
          links := links + [slots[k]];
          previousU := buffered[k].final;
        }
        k := k + 1;
      }
      buffered := [];
      slots := [];
      mode := Live;
    }

    /** A snapshot while the book is live is only held back; it never interrupts a sound book. */
    method HoldSnapshot(s: Snapshot)
      requires Valid() && mode == Live
      modifies `held, `out, `deferred, `lastUpdateNs
      ensures Valid() && accepted == old(accepted) && previousU == old(previousU)
      ensures if held != old(held) && old(held).Some? then out == old(out) + Records(old(deferred)) && deferred == []
              else out == old(out) && deferred == old(deferred)
      ensures View() == OnSnapshot(old(View()), s) && Taped() == Shelve(old(Taped()), old(View()), s)
    {
      if s.lastId <= previousU {
        return;
      }
      if held.Some? {
        if s.lastId == held.value.lastId {
          return;
        }
        FlushDeferred();
      }
      held := Some(s);
    }

    /** Outside a live book a snapshot is written at once and the buffer is resolved against it. */
    method UseSnapshot(s: Snapshot)
      requires Valid() && mode != Live
      modifies this
      ensures Valid() && accepted == old(accepted) && anchor == s.lastId && out == old(out) + [Snap(s.received, s.lastId)]
      ensures View() == Resolved(old(buffered)[LeadingStale(old(buffered), s.lastId, 0)..], s.lastId)
      ensures deferred == old(deferred) && lastUpdateNs == old(lastUpdateNs)
    {
      Write(Snap(s.received, s.lastId));
      anchor := s.lastId;
      previousU := s.lastId;
      DropContained(s.lastId);
      if buffered == [] {
        mode := Awaiting;
      } else {
        ResolveBuffered(s.lastId);
      }
    }

    method FeedSnapshot(s: Snapshot)
      requires Valid()
      modifies this
      ensures Valid() && accepted == old(accepted) && old(out) <= out
      ensures View() == OnSnapshot(old(View()), s) && Taped() == Shelve(old(Taped()), old(View()), s)
      ensures old(mode) == Live ==> mode == Live && previousU == old(previousU)
      ensures old(mode) == Awaiting ==> mode == Awaiting && out == old(out) + if s.lastId == old(anchor) then [] else [Snap(s.received, s.lastId)]
      ensures old(mode) == Invalid ==> out == old(out) + [Snap(s.received, s.lastId)]
    {
      if mode == Live {
        HoldSnapshot(s);
      } else if mode == Awaiting && buffered == [] && s.lastId == anchor {
        return;
      } else {
        UseSnapshot(s);
      }
    }

    /** At the end nothing stays deferred: every accepted update has been written once, in input order. */
    method Finish() returns (written: nat)
      requires Valid()
      modifies `out, `deferred, `lastUpdateNs
      ensures deferred == [] && UpdatesOf(out, |out|) == accepted && written == |out|
      ensures old(out) <= out && accepted == old(accepted) && Taped() == Flushed(old(Taped()))
    {
      if mode == Live && deferred != [] {
        FlushDeferred();
      }
      written := |out|;
    }
  }
}
