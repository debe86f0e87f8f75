/** The records of a replay as the loop makes them (cpp/replay/event_replayer.cpp:142-315): raw messages go
    through the connection flag and the depth synchroniser, and every one leaves a book and a live flag. What
    the whole-replay theorems take for granted of records holds of these, whatever the messages. */
module DepthRecords {
  import opened Wrappers
  import opened OrderBooks
  import opened DepthSync
  import opened Replays
  import QueueGrid

  datatype Stream = DepthStream | TradeStream | OtherStream

  /** A message that cannot be parsed carries nothing. */
  datatype Message =
    Open(stream: Stream) | Close(stream: Stream) | Snapshotted(snapshot: Option<DepthSnapshot>) | Updated(event: Option<DepthEvent>)
    | Traded(trade: Option<QueueGrid.Print>) | Unrelated

  datatype Stamped = Stamped(local: nat, message: Message)

  /** The parser refuses negative quantities of prints. */
  ghost predicate Parsed(m: Message) {
    m.Traded? && m.trade.Some? ==> m.trade.value.qty >= 0
  }

  /** Whether the depth stream is up after a message, and where the synchroniser then stands. */
  function UpAfter(m: Message, up: bool): bool {
    if m.Open? && m.stream.DepthStream? then true else if m.Close? && m.stream.DepthStream? then false else up
  }

  ghost function Heard(t: Standing, m: Message, up: bool): Standing {
    match m
    case Open(stream) => if stream.DepthStream? then Standing(Buffering, [], 0, 0) else t
    case Snapshotted(snapshot) => if snapshot.Some? then OnBase(t, snapshot.value.updateId) else t
    case Updated(event) =>
      if !up then t else if event.Some? then OnEvent(t, event.value) else Standing(Resyncing, t.waiting, 0, 0)
    case _ => t
  }

  class EventReplayer {
    const sync: DepthSynchronizer
    var depthConnected: bool

    ghost predicate Valid()
      reads this, sync, sync.book
    {
      sync.Valid()
    }

    predicate Live()
      reads this, sync, sync.book
    {
      depthConnected && sync.IsLive()
    }

    constructor (limit: nat)
      ensures Valid() && !depthConnected && !Live() && fresh(sync) && fresh(sync.book) && sync.book.View() == Book(false, Empty, Empty, 0)
      ensures sync.View() == Standing(Disconnected, [], 0, 0)
    {
      sync := new DepthSynchronizer(limit);
      depthConnected := false;
    }

    /** What the message is to an observer, and what it does to the book. */
    method Deliver(m: Message) returns (e: Event)
      requires Valid()
      modifies this, sync, sync.book
      ensures Valid() && (Parsed(m) && e.Trade? ==> e.trade.qty >= 0)
      ensures depthConnected == UpAfter(m, old(depthConnected))
      ensures sync.state != Invalid ==> sync.View() == Heard(old(sync.View()), m, old(depthConnected))
      ensures e.Depth? && e.outcome.Applied? ==> Live()
      ensures old(Live()) && Live() && !e.Snapshot? && !(e.Depth? && e.outcome.Applied?) ==> sync.book.View() == old(sync.book.View())
    {
      match m {
        case Open(stream) => e := Opened(stream);
        case Close(stream) => e := Closed(stream);
        case Snapshotted(snapshot) => e := TakeSnapshot(snapshot);
        case Updated(event) => e := TakeEvent(event);
        case Traded(trade) => e := if trade.Some? then Event.Trade(trade.value) else Event.Other;
        case Unrelated => e := Event.Other;
      }
    }

    /** A depth connection starts over with an empty book. */
    method Opened(stream: Stream) returns (e: Event)
      requires Valid()
      modifies this, sync, sync.book
      ensures Valid() && e == Connection(stream.TradeStream?, true) && depthConnected == (stream.DepthStream? || old(depthConnected))
      ensures sync.View() == if stream.DepthStream? then Standing(Buffering, [], 0, 0) else old(sync.View())
      ensures if stream.DepthStream? then !Live() else Live() == old(Live()) && sync.book.View() == old(sync.book.View())
    {
      if stream.DepthStream? {
        depthConnected := true;
        sync.OnConnected();
      }
      e := Connection(stream.TradeStream?, true);
    }

    /** A closed one keeps its book, which is not live. */
    method Closed(stream: Stream) returns (e: Event)
      requires Valid()
      modifies this
      ensures Valid() && e == Connection(stream.TradeStream?, false) && depthConnected == (!stream.DepthStream? && old(depthConnected))
      ensures if stream.DepthStream? then !Live() else Live() == old(Live())
    {
      if stream.DepthStream? {
        depthConnected := false;
      }
      e := Connection(stream.TradeStream?, false);
    }

    method TakeSnapshot(snapshot: Option<DepthSnapshot>) returns (e: Event)
      requires Valid()
      modifies sync, sync.book
      ensures Valid() && e == if snapshot.Some? then Event.Snapshot else Event.Other
      ensures snapshot.None? ==> Live() == old(Live()) && sync.book.View() == old(sync.book.View())
      ensures sync.state != Invalid ==> sync.View() == if snapshot.Some? then OnBase(old(sync.View()), snapshot.value.updateId) else old(sync.View())
    {
      if snapshot.None? {
        return Event.Other;
      }
      var _ := sync.OnSnapshot(snapshot.value);
      e := Event.Snapshot;
    }

    /** An event that comes while the stream is down is not looked at; one that cannot be parsed costs the
        book. */
    method TakeEvent(event: Option<DepthEvent>) returns (e: Event)
      requires Valid()
      modifies sync, sync.book
      ensures Valid() && (e.Other? || e.Depth?)
      ensures e.Depth? && e.outcome.Applied? ==> Live()
      ensures !(e.Depth? && e.outcome.Applied?) && Live() ==> old(Live()) && sync.book.View() == old(sync.book.View())
      ensures sync.state != Invalid ==> sync.View() == Heard(old(sync.View()), Updated(event), depthConnected)
    {
      if !depthConnected {
        return Event.Other;
      }
      if event.None? {
        sync.BeginResync();
        return Event.Other;
      }
      var r := sync.OnDepth(event.value);
      e := Event.Depth(if r == SyncResult.Applied then Outcome.Applied else Outcome.Refused);
    }
  }

  /** A record is what its message is to an observer, with the book and the flag it leaves behind. */
  ghost predicate Recorded(r: Record, was: Book, wasLive: bool) {
    && Readable(r) && (r.live ==> r.book.valid) && (r.event.Depth? && r.event.outcome.Applied? ==> r.live)
    && (wasLive && r.live && !r.event.Snapshot? && !(r.event.Depth? && r.event.outcome.Applied?) ==> r.book == was)
  }

  /** So whatever the messages, a live book is usable, only snapshots and applied events change it, and an
      applied event leaves it live: the records are readable, steady and show what is live. */
  method Records(limit: nat, ms: seq<Stamped>) returns (rs: seq<Record>)
    requires forall k {:trigger ms[k]} | 0 <= k < |ms| :: Parsed(ms[k].message)
    ensures |rs| == |ms| && forall k | 0 <= k < |rs| :: rs[k].local == ms[k].local
    ensures AllReadable(rs) && LiveShows(rs) && Steady(rs) && AppliedGoesLive(rs)
  {
    var replayer := new EventReplayer(limit);
    rs := [];
    for k := 0 to |ms|
      invariant |rs| == k && fresh(replayer) && fresh(replayer.sync) && fresh(replayer.sync.book) && replayer.Valid()
      invariant forall j | 0 <= j < k :: rs[j].local == ms[j].local
      invariant forall j {:trigger rs[j]} | 0 <= j < k :: Recorded(rs[j], BookBefore(rs, j), LiveBefore(rs, j))
      invariant BookBefore(rs, k) == replayer.sync.book.View() && LiveBefore(rs, k) == replayer.Live()
    {
      var e := replayer.Deliver(ms[k].message);
      var r := Record(ms[k].local, e, replayer.sync.book.View(), replayer.Live());
      ghost var was := rs;
      rs := rs + [r];
      forall j | 0 <= j <= k ensures Recorded(rs[j], BookBefore(rs, j), LiveBefore(rs, j)) {
        assert j < k ==> Recorded(was[j], BookBefore(was, j), LiveBefore(was, j));
      }
    }
    AllRecorded(rs);
  }

  lemma AllRecorded(rs: seq<Record>)
    requires forall j {:trigger rs[j]} | 0 <= j < |rs| :: Recorded(rs[j], BookBefore(rs, j), LiveBefore(rs, j))
    ensures AllReadable(rs) && LiveShows(rs) && Steady(rs) && AppliedGoesLive(rs)
  {
    forall j | 0 <= j < |rs| ensures Readable(rs[j]) && (rs[j].live ==> rs[j].book.valid) {
      assert Recorded(rs[j], BookBefore(rs, j), LiveBefore(rs, j));
    }
  }
}
