/** The trailing windows of the event dataset (cpp/research/event_dataset_exporter.cpp:17-41, 142-165, 318-325): each
    has its own queue, and keeps a contribution stamped exactly one width ago. */
module EventWindows {
  import opened NativeWindows

  class EventWindow {
    const width: nat
    const counters: nat
    var events: seq<Contribution>
    var sum: seq<int>
    ghost var pushed: seq<Contribution>
    ghost var cut: nat
    ghost var now: nat

    /** The native window one instant wider is open exactly where this one is closed. */
    ghost predicate Valid()
      reads this
    {
      cut <= |pushed| && events == pushed[cut..] && WindowOk(pushed, counters, cut, sum, width + 1, now)
    }

    constructor (width: nat, counters: nat)
      ensures Valid() && pushed == [] && this.width == width && this.counters == counters && now == 0
    {
      this.width, this.counters := width, counters;
      events, sum := [], seq(counters, _ => 0);
      pushed, cut, now := [], 0, 0;
    }

    /** A replacement snapshot starts the window over. */
    method Reset()
      requires Valid()
      modifies this
      ensures Valid() && pushed == [] && events == []
    {
      events, sum := [], seq(counters, _ => 0);
      pushed, cut, now := [], 0, 0;
    }

    method Add(x: Contribution)
      requires Valid() && |x.values| == counters
      modifies this
      ensures Valid() && pushed == old(pushed) + [x] && now == old(now)
    {
      PushKeepsWindow(pushed, counters, cut, sum, width + 1, now, x);
      events := events + [x];
      sum := Plus(sum, x.values);
      pushed := pushed + [x];
    }

    method DropFront()
      requires Valid() && events != [] && events[0].ns + width < now
      modifies `events, `sum, `cut
      ensures Valid() && events == old(events)[1..] && cut == old(cut) + 1
    {
      sum := Minus(sum, events[0].values);
      events := events[1..];
      cut := cut + 1;
    }

    /** In stamp order the running sum is everything stamped at most one width ago. */
    method Prune(local: nat)
      requires Valid() && now <= local
      modifies this
      ensures Valid() && pushed == old(pushed) && now == local
      ensures InOrder(pushed) ==> forall i | 0 <= i < counters :: sum[i] == Inside(pushed, counters, i, width + 1, local, |pushed|)
    {
      now := local;
      while events != [] && events[0].ns + width < local
        invariant Valid() && now == local && pushed == old(pushed)
        decreases |events|
      {
        DropFront();
      }
      if InOrder(pushed) {
        SettledIsExact(pushed, counters, cut, sum, width + 1, local);
      }
    }
  }
}
