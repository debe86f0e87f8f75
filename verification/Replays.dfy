/** The replay loop the observers hang on (cpp/replay/event_replayer.cpp:142-315): every record is
    announced on the book the one before it left, then its event is delivered, then it is concluded on
    the book and the synchronisation it left behind. */
module Replays {
  import opened OrderBooks
  import QueueGrid

  /** An event that failed to parse, or to apply, has been announced and is never reported back. */
  datatype Outcome = Applied | Refused | Failed

  /** Depth messages that arrive while the depth stream is down, and records an observer is not told
      about, are Other. */
  datatype Event = Connection(trades: bool, open: bool) | Snapshot | Depth(outcome: Outcome) | Trade(trade: QueueGrid.Print) | Other

  /** A record, with the book and the live flag it leaves behind. */
  datatype Record = Record(local: nat, event: Event, book: Book, live: bool)

  function BookBefore(rs: seq<Record>, i: nat): Book
    requires i <= |rs|
  {
    if i == 0 then Book(false, Empty, Empty, 0) else rs[i - 1].book
  }

  function LiveBefore(rs: seq<Record>, i: nat): bool
    requires i <= |rs|
  {
    i > 0 && rs[i - 1].live
  }

  /** What the book, the parser and the synchroniser guarantee of any input. */
  ghost predicate Readable(r: Record) {
    r.book.Sound() && (r.event.Trade? ==> r.event.trade.qty >= 0)
  }

  ghost predicate AllReadable(rs: seq<Record>) {
    forall i {:trigger Readable(rs[i])} | 0 <= i < |rs| :: Readable(rs[i])
  }

  ghost predicate StampsRise(rs: seq<Record>) {
    forall i, j | 0 <= i < j < |rs| :: rs[i].local < rs[j].local
  }

  ghost predicate StampsOrdered(rs: seq<Record>) {
    forall i, j | 0 <= i <= j < |rs| :: rs[i].local <= rs[j].local
  }

  /** A live book is usable: depth_sync.cpp leaves the live state whenever it invalidates the book. */
  ghost predicate LiveShows(rs: seq<Record>) {
    forall i | 0 <= i < |rs| :: rs[i].live ==> rs[i].book.valid
  }

  /** While a book stays live, only snapshots and applied depth events change it. */
  ghost predicate Steady(rs: seq<Record>) {
    forall i | 0 < i < |rs| ::
      rs[i - 1].live && rs[i].live && !rs[i].event.Snapshot? && !(rs[i].event.Depth? && rs[i].event.outcome.Applied?)
      ==> rs[i].book == rs[i - 1].book
  }

  /** An event that was applied leaves the book live: depth_sync.cpp reports it only in the live state. */
  ghost predicate AppliedGoesLive(rs: seq<Record>) {
    forall i | 0 <= i < |rs| && rs[i].event.Depth? && rs[i].event.outcome.Applied? :: rs[i].live
  }

  /** A depth event that was applied and left a usable book. */
  predicate Applies(r: Record) {
    r.event.Depth? && r.event.outcome.Applied? && r.book.valid
  }

  /** Whether the trade stream is up after the first i records. */
  predicate Up(rs: seq<Record>, i: nat)
    requires i <= |rs|
  {
    i > 0 && if rs[i - 1].event.Connection? && rs[i - 1].event.trades then rs[i - 1].event.open else Up(rs, i - 1)
  }

  /** Both streams are usable after the first i records. */
  predicate Open(rs: seq<Record>, i: nat)
    requires i <= |rs|
  {
    LiveBefore(rs, i) && Up(rs, i)
  }

  /** Where the observers differ: whether a depth message that was not applied ends the segment, and
      whether the record that opens a segment is sampled at once. */
  datatype Habits = Habits(refusalCuts: bool, samplesOpening: bool)

  /** An event that ends an open segment whatever it leaves behind. */
  predicate Cuts(e: Event, h: Habits) {
    e.Snapshot? || (h.refusalCuts && e.Depth? && e.outcome.Refused?)
  }

  /** A segment open before record i is still the same one after it. */
  predicate Survives(rs: seq<Record>, i: nat, h: Habits)
    requires i < |rs|
  {
    Open(rs, i) && !Cuts(rs[i].event, h) && Open(rs, i + 1)
  }

  /** Records from `first` on that belong to one segment: `first` left it open, the others found and left
      it open. */
  ghost predicate OneSegment(rs: seq<Record>, first: nat, upto: nat, h: Habits) {
    first < upto <= |rs| && Open(rs, first + 1) && forall j | first < j < upto :: Survives(rs, j, h)
  }

  /** Record i opens a segment. */
  predicate Opens(rs: seq<Record>, i: nat, h: Habits)
    requires i < |rs|
  {
    Open(rs, i + 1) && !Survives(rs, i, h)
  }

  /** Where the segment record i belongs to ends: with the first record it does not outlive, or with the
      input. */
  ghost function LastOf(rs: seq<Record>, i: nat, h: Habits): (last: nat)
    requires i <= |rs|
    ensures i <= last <= |rs| && (last == |rs| || !Survives(rs, last, h))
    ensures forall j | i <= j < last :: Survives(rs, j, h)
    decreases |rs| - i
  {
    if i == |rs| || !Survives(rs, i, h) then i else LastOf(rs, i + 1, h)
  }

  lemma {:induction false} LastIsFirst(rs: seq<Record>, i: nat, last: nat, h: Habits)
    requires i <= last <= |rs| && forall j | i <= j < last :: Survives(rs, j, h)
    ensures LastOf(rs, i, h) >= last && (last == |rs| || !Survives(rs, last, h) ==> LastOf(rs, i, h) == last)
    decreases last - i
  {
    if i < last {
      LastIsFirst(rs, i + 1, last, h);
    }
  }

  /** The records of a segment that ends there, the last one included. */
  function Whole(rs: seq<Record>, last: nat): (upto: nat)
    requires last <= |rs|
    ensures last <= upto <= |rs|
  {
    if last == |rs| then last else last + 1
  }

  /** The stamp of the record that ends a segment: the first it does not outlive, or the last of the input. */
  ghost function EndStamp(rs: seq<Record>, last: nat): nat
    requires 0 < last <= |rs|
  {
    if last < |rs| then rs[last].local else rs[last - 1].local
  }

  /** How many segments the first n records opened. */
  ghost function SegmentsBy(rs: seq<Record>, n: nat, h: Habits): nat
    requires n <= |rs|
  {
    if n == 0 then 0 else SegmentsBy(rs, n - 1, h) + if Opens(rs, n - 1, h) then 1 else 0
  }
}
