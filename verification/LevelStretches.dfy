/** The episodes of a replay, told from its records alone (cpp/research/level_lifecycle.cpp:109-228, 300-540,
    cpp/replay/event_replayer.cpp:142-315): one for each maximal stretch of records over which a price stays
    best on its side. */
module LevelStretches {
  import opened Wrappers
  import opened OrderBooks
  import opened LevelEpisodes
  import opened LevelRows
  import opened Replays

  /** This observer ends its segment on a refused depth message only if that costs the live book, and
      samples the record that opens a segment. */
  const HABITS: Habits := Habits(false, true)

  function PrintOf(r: Record): Print
    requires r.event.Trade?
  {
    Print(r.local, r.event.trade.price, r.event.trade.qty, r.event.trade.aggressiveBuy)
  }

  function Best(bid: bool, book: Book): Side {
    if bid then book.bids else book.asks
  }

  /** What one record does to the level of a side: a print on that side goes on its ledger, and an applied
      depth event charges it with the change the book shows at its price. */
  function Touched(e: Episode, r: Record, bid: bool, before: Book): Episode {
    match r.event
    case Trade(t) => if t.aggressiveBuy == !bid then ApplyPrint(e, bid, PrintOf(r)) else e
    case Depth(outcome) =>
      var noted := if before.valid then NotedLevel(e, Best(bid, before)) else e;
      (match outcome
       case Applied => if r.book.valid then Charged(noted, Best(bid, r.book)) else noted
       case Refused => noted.(preEvent := -1)
       case Failed => noted)
    case _ => e
  }

  predicate SameBest(bid: bool, a: Book, b: Book) {
    Best(bid, a).Level? && Best(bid, b).Level? && Best(bid, a).price == Best(bid, b).price
  }

  /** Record i makes another price the best of a side in a segment that goes on. */
  predicate Displaces(rs: seq<Record>, i: nat, bid: bool)
    requires i < |rs|
  {
    Survives(rs, i, HABITS) && !SameBest(bid, BookBefore(rs, i), rs[i].book)
  }

  /** Record i starts an episode on a side: it opens a segment, or makes another price the best. */
  predicate Starts(rs: seq<Record>, i: nat, bid: bool)
    requires i < |rs|
  {
    Opens(rs, i, HABITS) || Displaces(rs, i, bid)
  }

  /** How many episodes the first n records started; they are numbered in that order, bid before ask. */
  function Numbered(rs: seq<Record>, n: nat): nat
    requires n <= |rs|
  {
    if n == 0 then 0 else Numbered(rs, n - 1) + Count(rs, n - 1, true) + Count(rs, n - 1, false)
  }

  function Count(rs: seq<Record>, i: nat, bid: bool): nat
    requires i < |rs|
  {
    if Starts(rs, i, bid) then 1 else 0
  }

  /** The episode record i starts. */
  ghost function StartedAt(rs: seq<Record>, i: nat, bid: bool): Episode
    requires i < |rs|
  {
    var id := Numbered(rs, i) + 1 + if bid then 0 else Count(rs, i, true);
    match Best(bid, rs[i].book)
    case Level(price, qty, _) => Started(id, SegmentsBy(rs, i + 1, HABITS), price, qty, rs[i].local)
    case Empty => Started(id, SegmentsBy(rs, i + 1, HABITS), 0, 0, rs[i].local)
  }

  /** The record that started the current episode of a side after n records. */
  ghost function BornAt(rs: seq<Record>, n: nat, bid: bool): (a: nat)
    requires 0 < n <= |rs|
    ensures a < n
  {
    if n == 1 || Starts(rs, n - 1, bid) then n - 1 else BornAt(rs, n - 1, bid)
  }

  /** That episode as records a + 1..n left it. */
  ghost function EpisodeFrom(rs: seq<Record>, a: nat, n: nat, bid: bool): Episode
    requires a < n <= |rs|
    decreases n
  {
    if n == a + 1 then StartedAt(rs, a, bid) else Touched(EpisodeFrom(rs, a, n - 1, bid), rs[n - 1], bid, BookBefore(rs, n - 1))
  }

  /** The current episode of a side after n records. */
  ghost function EpisodeAt(rs: seq<Record>, n: nat, bid: bool): Episode
    requires 0 < n <= |rs|
  {
    EpisodeFrom(rs, BornAt(rs, n, bid), n, bid)
  }

  /** It as record n - 1 left it, unless that record started it. */
  lemma EpisodeGoesOn(rs: seq<Record>, n: nat, bid: bool)
    requires 1 < n <= |rs| && !Starts(rs, n - 1, bid)
    ensures EpisodeAt(rs, n, bid) == Touched(EpisodeAt(rs, n - 1, bid), rs[n - 1], bid, BookBefore(rs, n - 1))
  {
  }

  lemma EpisodeStarts(rs: seq<Record>, n: nat, bid: bool)
    requires 0 < n <= |rs| && Starts(rs, n - 1, bid)
    ensures EpisodeAt(rs, n, bid) == StartedAt(rs, n - 1, bid)
  {
  }

  /** What ends on a side with record i, or with the input: an episode a snapshot abandons, one whose segment
      ends, or one whose price is no longer best, charged with the event that took it away. */
  ghost function EndsOn(rs: seq<Record>, i: nat, bid: bool): Option<Ended>
    requires i <= |rs|
  {
    if i == 0 || !Open(rs, i) then None
    else if i == |rs| then Some(Ended(EpisodeAt(rs, i, bid), rs[i - 1].local, EndOfInput))
    else if rs[i].event.Snapshot? then Some(Ended(EpisodeAt(rs, i, bid), rs[i].local, Resynchronized))
    else
      var e := Touched(EpisodeAt(rs, i, bid), rs[i], bid, BookBefore(rs, i));
      if !Open(rs, i + 1) then Some(Ended(e, rs[i].local, SegmentEnd))
      else if Displaces(rs, i, bid) then
        Some(Ended(e, rs[i].local, if Farther(rs, i, bid) then SteppedAway else Improved))
      else None
  }

  /** The new best price is a worse one. */
  predicate Farther(rs: seq<Record>, i: nat, bid: bool)
    requires i < |rs|
  {
    var was, now := Best(bid, BookBefore(rs, i)), Best(bid, rs[i].book);
    was.Level? && now.Level? && Ahead(bid, was.price, now.price)
  }

  ghost function EndingAt(rs: seq<Record>, i: nat): seq<Ended>
    requires i <= |rs|
  {
    var bid, ask := EndsOn(rs, i, true), EndsOn(rs, i, false);
    (if bid.Some? then [bid.value] else []) + (if ask.Some? then [ask.value] else [])
  }

  /** All episodes ended before the first n records are over, and those of the whole replay. */
  ghost function EndedBy(rs: seq<Record>, n: nat): seq<Ended>
    requires n <= |rs|
  {
    if n == 0 then [] else EndedBy(rs, n - 1) + EndingAt(rs, n - 1)
  }

  ghost function AllEpisodes(rs: seq<Record>): seq<Ended> {
    EndedBy(rs, |rs|) + EndingAt(rs, |rs|)
  }

  /** What the synchroniser, the parser and the book guarantee of any input. */
  ghost predicate Sound(rs: seq<Record>) {
    LiveShows(rs) && Steady(rs) && AppliedGoesLive(rs) && AllReadable(rs)
  }

  lemma OpenShows(rs: seq<Record>, n: nat)
    requires n <= |rs| && Sound(rs) && Open(rs, n)
    ensures n > 0 && rs[n - 1].book.valid && rs[n - 1].book.TwoSided() && rs[n - 1].book.Sound()
  {
    assert Readable(rs[n - 1]);
  }

  /** While a segment is open the current episode is the best level of its side, with the quantity the book
      shows there. */
  lemma {:induction false} EpisodeShows(rs: seq<Record>, n: nat, bid: bool)
    requires n <= |rs| && Sound(rs) && Open(rs, n)
    ensures n > 0 && Mirrors(EpisodeAt(rs, n, bid), Best(bid, rs[n - 1].book)) && Best(bid, rs[n - 1].book).Level?
  {
    OpenShows(rs, n);
    if Starts(rs, n - 1, bid) {
      EpisodeStarts(rs, n, bid);
    } else {
      OpenShows(rs, n - 1);
      EpisodeShows(rs, n - 1, bid);
      EpisodeGoesOn(rs, n, bid);
      StillShows(EpisodeAt(rs, n - 1, bid), rs, n - 1, bid);
    }
  }

  lemma StillShows(e: Episode, rs: seq<Record>, i: nat, bid: bool)
    requires 0 < i < |rs| && Sound(rs) && Survives(rs, i, HABITS) && !Displaces(rs, i, bid)
    requires rs[i - 1].book.TwoSided() && rs[i].book.TwoSided() && rs[i - 1].book.Sound() && Mirrors(e, Best(bid, rs[i - 1].book))
    ensures Mirrors(Touched(e, rs[i], bid, BookBefore(rs, i)), Best(bid, rs[i].book))
  {
  }

  /** Records a..b of one segment over which the price that is best on a side after record a stays best. */
  ghost predicate Stretch(rs: seq<Record>, a: nat, b: nat, bid: bool) {
    && a < b <= |rs| && Open(rs, a + 1)
    && forall j | a < j < b :: Survives(rs, j, HABITS) && SameBest(bid, rs[a].book, rs[j].book)
  }

  /** Neither the record before it nor the one after it belongs to it. */
  ghost predicate Maximal(rs: seq<Record>, a: nat, b: nat, bid: bool) {
    && Stretch(rs, a, b, bid)
    && (Opens(rs, a, HABITS) || !SameBest(bid, BookBefore(rs, a), rs[a].book))
    && (b == |rs| || !Survives(rs, b, HABITS) || !SameBest(bid, rs[a].book, rs[b].book))
  }

  lemma {:induction false} BornIsStretch(rs: seq<Record>, b: nat, bid: bool)
    requires Sound(rs) && 0 < b <= |rs| && Open(rs, b)
    ensures Starts(rs, BornAt(rs, b, bid), bid) && Stretch(rs, BornAt(rs, b, bid), b, bid)
  {
    OpenShows(rs, b);
    if b > 1 && !Starts(rs, b - 1, bid) {
      OpenShows(rs, b - 1);
      BornIsStretch(rs, b - 1, bid);
      var a := BornAt(rs, b - 1, bid);
      OpenShows(rs, a + 1);
      forall j | a < j < b ensures Survives(rs, j, HABITS) && SameBest(bid, rs[a].book, rs[j].book) {
        if j == b - 1 && a < b - 2 {
          assert SameBest(bid, rs[a].book, rs[b - 2].book);
        } else if j < b - 1 {
          assert SameBest(bid, rs[a].book, rs[j].book);
        }
      }
    }
  }

  lemma {:induction false} StretchIsBorn(rs: seq<Record>, a: nat, b: nat, bid: bool)
    requires Sound(rs) && Stretch(rs, a, b, bid) && Starts(rs, a, bid)
    ensures BornAt(rs, b, bid) == a && Open(rs, b) && SameBest(bid, rs[a].book, rs[b - 1].book)
    decreases b
  {
    OpenShows(rs, a + 1);
    if b > a + 1 {
      assert SameBest(bid, rs[a].book, rs[b - 1].book);
      StretchIsBorn(rs, a, b - 1, bid);
    }
  }

  /** What an episode was when it started it stays, whatever happens to its level. */
  ghost predicate SameStart(e: Episode, s: Episode) {
    e.id == s.id && e.segment == s.segment && e.price == s.price && e.startNs == s.startNs && e.initial == s.initial
  }

  lemma TouchKeepsStart(e: Episode, s: Episode, r: Record, bid: bool, before: Book)
    requires SameStart(e, s)
    ensures SameStart(Touched(e, r, bid, before), s)
  {
  }

  lemma {:induction false} EpisodeKeeps(rs: seq<Record>, a: nat, n: nat, bid: bool)
    requires a < n <= |rs|
    ensures SameStart(EpisodeFrom(rs, a, n, bid), StartedAt(rs, a, bid))
    decreases n
  {
    if n > a + 1 {
      EpisodeKeeps(rs, a, n - 1, bid);
      TouchKeepsStart(EpisodeFrom(rs, a, n - 1, bid), StartedAt(rs, a, bid), rs[n - 1], bid, BookBefore(rs, n - 1));
    }
  }

  /** Episodes are maximal stretches: one ends on a side with record b, or with the input, exactly when a
      maximal stretch does, and it is the one that stretch started. */
  lemma EndsWithStretch(rs: seq<Record>, a: nat, b: nat, bid: bool)
    requires Sound(rs) && 0 < b <= |rs|
    ensures Maximal(rs, a, b, bid) <==> EndsOn(rs, b, bid).Some? && a == BornAt(rs, b, bid)
  {
    if Open(rs, b) {
      var born := BornAt(rs, b, bid);
      OpenShows(rs, b);
      BornIsStretch(rs, b, bid);
      OpenShows(rs, born + 1);
      StretchIsBorn(rs, born, b, bid);
      if b < |rs| && Open(rs, b + 1) {
        OpenShows(rs, b + 1);
      }
    }
    if Maximal(rs, a, b, bid) {
      OpenShows(rs, a + 1);
      StretchIsBorn(rs, a, b, bid);
    }
  }

  /** It bears the stamp, the price and the quantity of the record that made its price the best, the stamp of
      the record that took it away, and why: a worse price is best, a better one, its segment ended, a
      snapshot abandoned it, or the input ended. No side of a live book is ever empty. */
  ghost predicate Tells(e: Ended, rs: seq<Record>, a: nat, b: nat, bid: bool)
    requires a < b <= |rs|
  {
    && Best(bid, rs[a].book).Level? && e.episode.price == Best(bid, rs[a].book).price && e.episode.initial == Best(bid, rs[a].book).qty
    && e.episode.startNs == rs[a].local && e.episode.segment == SegmentsBy(rs, a + 1, HABITS)
    && e.endNs == rs[if b == |rs| then b - 1 else b].local
    && e.reason == if b == |rs| then EndOfInput
                   else if rs[b].event.Snapshot? then Resynchronized
                   else if !Open(rs, b + 1) then SegmentEnd
                   else if Ahead(bid, e.episode.price, if Best(bid, rs[b].book).Level? then Best(bid, rs[b].book).price else 0) then SteppedAway
                   else Improved
  }

  lemma StretchTells(rs: seq<Record>, a: nat, b: nat, bid: bool)
    requires Sound(rs) && Maximal(rs, a, b, bid)
    ensures EndsOn(rs, b, bid).Some? && Tells(EndsOn(rs, b, bid).value, rs, a, b, bid)
  {
    EndsWithStretch(rs, a, b, bid);
    OpenShows(rs, a + 1);
    StretchIsBorn(rs, a, b, bid);
    OpenShows(rs, b);
    EpisodeKeeps(rs, a, b, bid);
    if b < |rs| {
      TouchKeepsStart(EpisodeAt(rs, b, bid), StartedAt(rs, a, bid), rs[b], bid, BookBefore(rs, b));
      if Open(rs, b + 1) {
        OpenShows(rs, b + 1);
      }
    }
  }
}
