/** The rotating raw writer (cpp/storage/raw_event_writer.cpp:89-321) and its Python counterpart
    (pyresearch/historical/l2.py:550-600). Disk errors are not part of this model. */
module RawWriter {
  import opened Wrappers
  import opened RawFormat
  import opened RawFile
  import opened RawLedger

  /** The second a bucket's files are named after. */
  function SecondOf(bucket: nat, interval: nat): nat {
    bucket * interval / 1_000_000_000
  }

  /** It is the second in which the bucket of a stamp starts, not later than the stamp. */
  lemma SecondOfStamp(stamp: nat, interval: nat)
    requires interval > 0
    ensures var second, start := SecondOf(stamp / interval, interval), stamp / interval * interval;
            second * 1_000_000_000 <= start < (second + 1) * 1_000_000_000 && start <= stamp < start + interval
  {
    var bucket := stamp / interval;
    assert stamp == bucket * interval + stamp % interval;
    var start := bucket * interval;
    assert start == start / 1_000_000_000 * 1_000_000_000 + start % 1_000_000_000;
  }

  /** The block in memory with one more record. */
  ghost function Grown(block: seq<Byte>, r: RawRecord): seq<Byte> {
    if Encodable(r) then block + Framed(r) else block
  }

  /** Every name segment_path would try for a second is taken. */
  ghost predicate Taken(disk: set<Name>, second: nat) {
    forall k: nat | k <= MAX_ATTEMPTS :: Name(second, k) in disk
  }

  ghost predicate Flushable(codec: Codec, block: seq<Byte>) {
    block == [] || Packable(codec, block)
  }

  class RawEventWriter {
    const codec: Codec
    const blockTarget: nat
    const interval: nat
    var disk: set<Name>
    var files: seq<ClosedFile>
    var open: bool
    var bucket: nat
    var name: Name
    var out: seq<Byte>
    var block: seq<Byte>
    var previous: Option<Name>
    var segmentsOpened: nat
    var finished: bool
    /** What every closed file, the flushed blocks and the memory hold, and all that was accepted. */
    ghost var held: seq<seq<RawRecord>>
    ghost var blocks: seq<seq<RawRecord>>
    ghost var pending: seq<RawRecord>
    ghost var accepted: seq<RawRecord>

    ghost predicate Stored()
      reads this
    {
      && FilesHold(codec, files, held)
      && OpenHolds(codec, if open then out else Header(), blocks, block, pending)
      && Accounted(held, blocks, pending, accepted)
      && (!open ==> blocks == [] && pending == [])
    }

    ghost predicate Named()
      reads this
    {
      && Linked(files, disk, previous)
      && segmentsOpened == |files| + (if open then 1 else 0)
      && (open ==> name in disk && Unused(files, name))
      && (interval == 0 ==> open == !finished && |files| == if finished then 1 else 0)
    }

    ghost predicate Valid()
      reads this
    {
      codec.Lossless() && Stored() && Named()
    }

    /** Rotating output opens its first file on its first record. */
    constructor Rotating(codec: Codec, blockTarget: nat, interval: nat, disk: set<Name>)
      requires codec.Lossless() && interval > 0
      ensures Valid() && !open && files == [] && accepted == [] && this.interval == interval && this.disk == disk && this.codec == codec
    {
      this.codec, this.blockTarget, this.interval, this.disk := codec, blockTarget, interval, disk;
      name := Name(0, 0);
      files, open, bucket, out, block, previous, segmentsOpened, finished := [], false, 0, [], [], None, 0, false;
      held, blocks, pending, accepted := [], [], [], [];
      NothingHeld(codec);
    }

    /** A fixed output is opened at once. */
    constructor Fixed(codec: Codec, blockTarget: nat, path: Name)
      requires codec.Lossless()
      ensures Valid() && open && files == [] && accepted == [] && interval == 0 && name == path && this.codec == codec
      ensures this.blockTarget == blockTarget && out == Header() && block == []
    {
      this.codec, this.blockTarget, this.interval, this.disk := codec, blockTarget, 0, {path};
      name, out := path, Header();
      files, open, bucket, block, previous, segmentsOpened, finished := [], true, 0, [], None, 1, false;
      held, blocks, pending, accepted := [], [], [], [];
      NothingHeld(codec);
    }

    /** A name no file has yet, so that no capture is ever overwritten. */
    method SegmentPath(forBucket: nat) returns (r: Option<Name>)
      ensures r.Some? ==> r.value !in disk && r.value.second == SecondOf(forBucket, interval)
      ensures r.None? <==> Taken(disk, SecondOf(forBucket, interval))
    {
      var second := SecondOf(forBucket, interval);
      var attempt: nat := 0;
      while Name(second, attempt) in disk
        invariant attempt <= MAX_ATTEMPTS
        invariant forall k: nat | k < attempt :: Name(second, k) in disk
        decreases MAX_ATTEMPTS - attempt
      {
        if attempt + 1 > MAX_ATTEMPTS {
          return None;
        }
        attempt := attempt + 1;
      }
      r := Some(Name(second, attempt));
    }

    /** A fresh file: its name is taken on disk, and only the header is in it. */
    method Claim(path: Name)
      requires Named() && !open && interval > 0 && path !in disk
      modifies `disk, `open, `name, `out, `segmentsOpened
      ensures Named() && open && name == path && out == Header() && disk == old(disk) + {path}
    {
      LinkOpens(files, disk, previous, path);
      name, disk := path, disk + {path};
      segmentsOpened, open, out := segmentsOpened + 1, true, Header();
    }

    /** A new file: no file on disk has its name yet, and none is forgotten. */
    method OpenSegment(forBucket: nat) returns (ok: bool)
      requires Valid() && !open && interval > 0
      modifies `disk, `open, `bucket, `name, `out, `segmentsOpened
      ensures Valid() && open == ok && (ok ==> bucket == forBucket && out == Header())
      ensures ok <==> !Taken(old(disk), SecondOf(forBucket, interval))
      ensures ok ==> name !in old(disk) && disk == old(disk) + {name} && name.second == SecondOf(forBucket, interval)
      ensures !ok ==> out == old(out) && bucket == old(bucket) && disk == old(disk) && name == old(name)
    {
      var path := SegmentPath(forBucket);
      if path.None? {
        return false;
      }
      Claim(path.value);
      bucket := forBucket;
      ok := true;
    }

    method FlushLocked() returns (ok: bool)
      requires Valid() && open
      modifies `out, `block, `blocks, `pending
      ensures Valid() && (ok <==> Flushable(codec, old(block))) && (ok ==> pending == [] && block == [])
      ensures !ok ==> block == old(block)
      ensures out == if ok && old(block) != [] then old(out) + Packed(codec, old(block)) else old(out)
    {
      if block == [] {
        EmptyBlock(pending);
        return true;
      }
      if !Packable(codec, block) {
        return false;
      }
      FlushHolds(codec, out, blocks, block, pending);
      FlushAccounts(held, blocks, pending, accepted);
      MoveBlock();
      ok := true;
    }

    method MoveBlock()
      requires Packable(codec, block)
      modifies `out, `block, `blocks, `pending
      ensures out == old(out) + Packed(codec, old(block)) && blocks == old(blocks) + [old(pending)] && block == [] && pending == []
    {
      out := out + Packed(codec, block);
      blocks := blocks + [pending];
      block, pending := [], [];
    }

    /** The bytes written become one more file, naming its predecessor. */
    method KeepFile()
      requires Valid() && open && pending == []
      modifies `files, `previous, `held, `blocks
      ensures files == old(files) + [ClosedFile(name, out, Manifest(old(previous), old(files) != []))]
      ensures Linked(files, disk, previous)
      ensures FilesHold(codec, files, held) && Accounted(held, blocks, pending, accepted) && OpenHolds(codec, Header(), blocks, [], pending)
      ensures blocks == []
    {
      var f := ClosedFile(name, out, Manifest(previous, segmentsOpened > 1));
      SealKeeps(codec, files, held, out, blocks, block, pending, accepted, disk, previous, f);
      held := held + [Flat(blocks, 0)];
      blocks := [];
      files := files + [f];
      previous := Some(name);
    }

    /** One more file on disk, complete. */
    method Seal()
      requires Valid() && open && pending == []
      modifies `files, `open, `block, `previous, `held, `blocks
      ensures !open && Stored() && Linked(files, disk, previous) && segmentsOpened == |files|
      ensures files == old(files) + [ClosedFile(name, out, Manifest(old(previous), old(files) != []))] && block == []
    {
      KeepFile();
      Reset();
    }

    method Reset()
      modifies `block, `open
      ensures block == [] && !open
    {
      block, open := [], false;
    }

    method CloseSegment() returns (ok: bool)
      requires Valid() && open
      modifies `files, `open, `out, `block, `previous, `held, `blocks, `pending
      ensures ok == !open && (ok <==> Flushable(codec, old(block))) && (!ok ==> Valid() && files == old(files) && block == old(block))
      ensures ok ==> Stored() && Linked(files, disk, previous) && segmentsOpened == |files| && block == []
      ensures out == if ok && old(block) != [] then old(out) + Packed(codec, old(block)) else old(out)
      ensures ok ==> files == old(files) + [ClosedFile(name, out, Manifest(old(previous), old(files) != []))]
    {
      ok := FlushLocked();
      if ok {
        Seal();
      }
    }

    /** After a successful close every accepted record is in some closed file. */
    method Close() returns (ok: bool)
      requires Valid()
      modifies `files, `open, `out, `block, `previous, `held, `blocks, `pending, `finished
      ensures ok <==> !old(open) || Flushable(codec, old(block))
      ensures Valid() && ok == !open && (ok ==> finished && FilesHold(codec, files, held) && Flat(held, 0) == accepted)
      ensures old(files) <= files && |files| == |old(files)| + if ok && old(open) then 1 else 0
    {
      ok := true;
      if open {
        ok := CloseSegment();
        if !ok {
          return;
        }
      }
      finished := true;
      assert Flat([], 0) == [];
    }

    method Append(r: RawRecord)
      requires Valid() && open && Encodable(r)
      modifies `block, `pending, `accepted
      ensures Valid() && accepted == old(accepted) + [r] && block == old(block) + Framed(r)
    {
      AppendHolds(codec, out, blocks, block, pending, r);
      AppendAccounts(held, blocks, pending, accepted, r);
      block := block + Framed(r);
      pending := pending + [r];
      accepted := accepted + [r];
    }

    /** A stamp falls into a later bucket than that of the open file. */
    ghost predicate Rolls(stamp: nat)
      reads `open, `bucket
    {
      interval > 0 && open && stamp / interval > bucket
    }

    /** A file can take a record stamped then: the open one, or after closing it a fresh one. */
    ghost predicate Ready(stamp: nat)
      reads `open, `bucket, `block, `disk
    {
      if interval == 0 then open
      else if open && !Rolls(stamp) then true
      else (open ==> Flushable(codec, block)) && !Taken(disk, SecondOf(stamp / interval, interval))
    }

    /** The block in memory such a record joins. */
    ghost function Joins(stamp: nat): seq<Byte>
      reads `open, `bucket, `block
    {
      if open && !Rolls(stamp) then block else []
    }

    /** A record stamped then does not go into the file now open. */
    ghost predicate Turns(stamp: nat)
      reads `open, `bucket
    {
      interval > 0 && (!open || Rolls(stamp))
    }

    /** Rotation happens only between complete records, and only into a strictly later bucket. Files already
        closed stay as they are, and a new one has a name no file on disk had. */
    method Turn(stamp: nat) returns (ok: bool)
      requires Valid()
      modifies `files, `disk, `open, `out, `block, `bucket, `name, `previous, `segmentsOpened, `held, `blocks, `pending
      ensures Valid() && (ok <==> old(Ready(stamp))) && (ok ==> open && block == old(Joins(stamp)))
      ensures old(files) <= files && (|files| == |old(files)| || (old(Rolls(stamp)) && |files| == |old(files)| + 1))
      ensures ok && old(Rolls(stamp)) ==> |files| == |old(files)| + 1
      ensures ok && old(Turns(stamp)) ==> bucket == stamp / interval && name !in old(disk) && name.second == SecondOf(bucket, interval)
      ensures disk == if ok && old(Turns(stamp)) then old(disk) + {name} else old(disk)
      ensures !old(Turns(stamp)) ==> files == old(files) && name == old(name) && bucket == old(bucket)
      ensures ok ==> out == if old(open) && !old(Rolls(stamp)) then old(out) else Header()
      ensures interval == 0 ==> files == old(files) && open == old(open)
    {
      if interval == 0 {
        return open;
      }
      if open {
        if stamp / interval <= bucket {
          return true;
        }
        ok := CloseSegment();
        if !ok {
          return;
        }
      }
      ok := OpenSegment(stamp / interval);
    }

    /** A record is accepted exactly when a file can take it and it can be encoded; the call succeeds exactly
        when, besides, a block it fills can be written. */
    method Write(r: RawRecord, now: nat) returns (ok: bool)
      requires Valid() && r.Typed()
      modifies this
      ensures Valid()
      ensures var stamp := if r.systemNs != 0 then r.systemNs else now;
              var taken, grown := old(Ready(stamp)) && Encodable(r), Grown(old(Joins(stamp)), r);
              && accepted == (if taken then old(accepted) + [r] else old(accepted))
              && (ok <==> taken && (|grown| < blockTarget || Packable(codec, grown)))
              && (ok ==> block == if |grown| < blockTarget then grown else [])
              && (ok ==> var start := if old(open) && !old(Rolls(stamp)) then old(out) else Header();
                         out == if |grown| < blockTarget then start else start + Packed(codec, grown))
      ensures interval == 0 ==> files == old(files) && open == old(open)
      ensures var stamp := if r.systemNs != 0 then r.systemNs else now;
              && old(files) <= files && (|files| == |old(files)| || (old(Rolls(stamp)) && |files| == |old(files)| + 1))
              && disk == (if old(Ready(stamp) && Turns(stamp)) then old(disk) + {name} else old(disk))
              && (old(Ready(stamp) && Turns(stamp)) ==> name !in old(disk) && name.second == SecondOf(stamp / interval, interval))
    {
      var stamp := if r.systemNs != 0 then r.systemNs else now;
      ok := Turn(stamp);
      if !ok {
        return;
      }
      if !Encodable(r) {
        return false;
      }
      Append(r);
      if |block| >= blockTarget {
        ok := FlushLocked();
      }
    }
  }

  /** The session every historical record carries. */
  const HISTORY: seq<Byte> := [99, 114, 121, 112, 116, 111, 104, 102, 116, 100, 97, 116, 97, 45, 104, 105, 115, 116, 111, 114, 121]

  /** A historical record: one stamp serves as both clocks. */
  function Historical(stamp: nat, kind: Byte, stream: seq<Byte>, payload: seq<Byte>, exchangeMs: int): RawRecord {
    RawRecord(stamp, stamp, exchangeMs, kind, HISTORY, stream, payload)
  }

  /** The Python adapter: the same blocks without rotation. */
  class ExistingRawFormatWriter {
    const codec: Codec
    const blockTarget: nat
    var output: seq<Byte>
    var block: seq<Byte>
    var recordsWritten: nat

    constructor (codec: Codec, blockTarget: nat)
      ensures output == Header() && block == [] && recordsWritten == 0 && this.codec == codec && this.blockTarget == blockTarget
    {
      this.codec, this.blockTarget := codec, blockTarget;
      output, block, recordsWritten := Header(), [], 0;
    }

    /** The struct module refuses lengths and stamps that do not fit their fields. */
    method Write(stamp: nat, kind: Byte, stream: seq<Byte>, payload: seq<Byte>, exchangeMs: int) returns (ok: bool)
      modifies this
      ensures var r := RawRecord(stamp, stamp, exchangeMs, kind, HISTORY, stream, payload);
              var grown := Grown(old(block), r);
              && (ok <==> Encodable(r) && (|grown| < blockTarget || Packable(codec, grown)))
              && recordsWritten == (if Encodable(r) then old(recordsWritten) + 1 else old(recordsWritten))
              && (ok ==> block == if |grown| < blockTarget then grown else [])
              && (ok ==> output == if |grown| < blockTarget then old(output) else old(output) + Packed(codec, grown))
    {
      var r := Historical(stamp, kind, stream, payload, exchangeMs);
      if !Encodable(r) {
        return false;
      }
      var encoded := RecordBytes(r);
      block := block + (Le(|encoded|, 4) + encoded);
      recordsWritten := recordsWritten + 1;
      ok := true;
      if |block| >= blockTarget {
        ok := FlushBlock();
      }
    }

    method FlushBlock() returns (ok: bool)
      modifies `block, `output
      ensures ok <==> Flushable(codec, old(block))
      ensures ok ==> block == [] && output == if old(block) == [] then old(output) else old(output) + Packed(codec, old(block))
      ensures !ok ==> block == old(block) && output == old(output)
    {
      if block == [] {
        return true;
      }
      if !Packable(codec, block) {
        return false;
      }
      output := output + Packed(codec, block);
      block := [];
      ok := true;
    }
  }

  datatype HistoricalRecord = HistoricalRecord(stamp: nat, kind: Byte, stream: seq<Byte>, payload: seq<Byte>, exchangeMs: int) {
    function Raw(): RawRecord { Historical(stamp, kind, stream, payload, exchangeMs) }
  }

  ghost function Recorded(rs: seq<HistoricalRecord>, n: nat): seq<RawRecord>
    requires n <= |rs|
  {
    if n == 0 then [] else Recorded(rs, n - 1) + [rs[n - 1].Raw()]
  }

  /** A record as it is framed, if it can be. */
  ghost function FrameOf(r: RawRecord): Option<seq<Byte>> {
    if Encodable(r) then Some(Framed(r)) else None
  }

  ghost function Frames(rs: seq<HistoricalRecord>): (fs: seq<Option<seq<Byte>>>)
    ensures |fs| == |rs| && forall i | 0 <= i < |rs| :: fs[i] == FrameOf(rs[i].Raw())
  {
    seq(|rs|, i requires 0 <= i < |rs| => FrameOf(rs[i].Raw()))
  }

  /** What frames leave on disk and in memory, unless one of them, or a block they fill, does not fit the
      format. */
  datatype Feed = Refused | Fed(out: seq<Byte>, block: seq<Byte>)

  ghost function FeedStep(codec: Codec, blockTarget: nat, was: Feed, frame: Option<seq<Byte>>): Feed {
    if was.Refused? || frame.None? then Refused
    else
      var grown := was.block + frame.value;
      if |grown| < blockTarget then Fed(was.out, grown)
      else if Packable(codec, grown) then Fed(was.out + Packed(codec, grown), [])
      else Refused
  }

  ghost function FedBy(codec: Codec, blockTarget: nat, fs: seq<Option<seq<Byte>>>, n: nat): Feed
    requires n <= |fs|
  {
    if n == 0 then Fed(Header(), []) else FeedStep(codec, blockTarget, FedBy(codec, blockTarget, fs, n - 1), fs[n - 1])
  }

  lemma {:induction false} RefusedStays(codec: Codec, blockTarget: nat, fs: seq<Option<seq<Byte>>>, m: nat, n: nat)
    requires m <= n <= |fs| && FedBy(codec, blockTarget, fs, m).Refused?
    ensures FedBy(codec, blockTarget, fs, n).Refused?
    decreases n
  {
    if m < n {
      RefusedStays(codec, blockTarget, fs, m, n - 1);
    }
  }

  lemma AllInBlocks(held: seq<seq<RawRecord>>, blocks: seq<seq<RawRecord>>, accepted: seq<RawRecord>)
    requires Accounted(held, blocks, [], accepted) && held == []
    ensures Flat(blocks, 0) == accepted
  {
    assert Flat(held, 0) == [];
  }

  /** The file of a fixed writer with nothing in memory reads back as what it accepted. */
  lemma ReadsBack(codec: Codec, out: seq<Byte>, held: seq<seq<RawRecord>>, blocks: seq<seq<RawRecord>>, block: seq<Byte>, accepted: seq<RawRecord>)
    requires codec.Lossless() && OpenHolds(codec, out, blocks, block, []) && Accounted(held, blocks, [], accepted) && held == []
    ensures DecodeFile(codec, out) == Good(accepted)
  {
    AllInBlocks(held, blocks, accepted);
    FileRoundTrip(codec, blocks);
  }

  /** Either writer, fed the first n records. */
  ghost predicate Captured(c: RawEventWriter, rs: seq<HistoricalRecord>, n: nat)
    requires n <= |rs|
    reads c
  {
    && c.Valid() && c.open && c.files == [] && c.interval == 0
    && FedBy(c.codec, c.blockTarget, Frames(rs), n) == Fed(c.out, c.block) && c.accepted == Recorded(rs, n)
  }

  ghost predicate Written(p: ExistingRawFormatWriter, rs: seq<HistoricalRecord>, n: nat)
    requires n <= |rs|
    reads p
  {
    FedBy(p.codec, p.blockTarget, Frames(rs), n) == Fed(p.output, p.block)
  }

  ghost predicate InStep(c: RawEventWriter, p: ExistingRawFormatWriter, rs: seq<HistoricalRecord>, n: nat)
    requires n <= |rs|
    reads c, p
  {
    c.codec == p.codec && c.blockTarget == p.blockTarget && Captured(c, rs, n) && Written(p, rs, n)
  }

  method Capture(c: RawEventWriter, ghost rs: seq<HistoricalRecord>, ghost n: nat, r: HistoricalRecord) returns (ok: bool)
    requires n < |rs| && r == rs[n] && r.Raw().Typed() && Captured(c, rs, n)
    modifies c
    ensures ok <==> FedBy(c.codec, c.blockTarget, Frames(rs), n + 1).Fed?
    ensures ok ==> Captured(c, rs, n + 1)
  {
    ghost var was := c.block;
    ok := c.Write(r.Raw(), r.stamp);
    assert Grown(was, r.Raw()) == if FrameOf(r.Raw()).Some? then was + FrameOf(r.Raw()).value else was;
  }

  method Keep(p: ExistingRawFormatWriter, ghost rs: seq<HistoricalRecord>, ghost n: nat, r: HistoricalRecord) returns (ok: bool)
    requires n < |rs| && r == rs[n] && Written(p, rs, n)
    modifies p
    ensures ok <==> FedBy(p.codec, p.blockTarget, Frames(rs), n + 1).Fed?
    ensures ok ==> Written(p, rs, n + 1)
  {
    ghost var was := p.block;
    ok := p.Write(r.stamp, r.kind, r.stream, r.payload, r.exchangeMs);
    assert Grown(was, r.Raw()) == if FrameOf(r.Raw()).Some? then was + FrameOf(r.Raw()).value else was;
  }

  method FeedBoth(c: RawEventWriter, p: ExistingRawFormatWriter, ghost rs: seq<HistoricalRecord>, ghost n: nat, r: HistoricalRecord)
    returns (ok: bool)
    requires n < |rs| && r == rs[n] && r.Raw().Typed() && InStep(c, p, rs, n)
    modifies c, p
    ensures Keeping(c, p, rs, n + 1, ok)
  {
    ok := Capture(c, rs, n, r);
    if ok {
      ok := Keep(p, rs, n, r);
    }
  }

  /** Both writers have taken the first n records, or one of them cannot. */
  ghost predicate Keeping(c: RawEventWriter, p: ExistingRawFormatWriter, rs: seq<HistoricalRecord>, n: nat, ok: bool)
    requires n <= |rs|
    reads c, p
  {
    (ok <==> FedBy(c.codec, c.blockTarget, Frames(rs), n).Fed?) && (ok ==> InStep(c, p, rs, n))
  }

  method FeedAll(c: RawEventWriter, p: ExistingRawFormatWriter, rs: seq<HistoricalRecord>) returns (ok: bool)
    requires InStep(c, p, rs, 0) && forall i | 0 <= i < |rs| :: rs[i].Raw().Typed()
    modifies c, p
    ensures Keeping(c, p, rs, |rs|, ok)
  {
    var i := 0;
    ok := true;
    while ok && i < |rs|
      invariant 0 <= i <= |rs| && Keeping(c, p, rs, i, ok)
      decreases |rs| - i
    {
      ok := FeedBoth(c, p, rs, i, rs[i]);
      i := i + 1;
    }
    if !ok {
      RefusedStays(c.codec, c.blockTarget, Frames(rs), i, |rs|);
    }
  }

  method FlushBoth(c: RawEventWriter, p: ExistingRawFormatWriter, ghost rs: seq<HistoricalRecord>) returns (ok: bool)
    requires InStep(c, p, rs, |rs|)
    modifies c, p
    ensures ok <==> Flushable(c.codec, old(c.block))
    ensures ok ==> && c.out == p.output == (if old(c.block) == [] then old(c.out) else old(c.out) + Packed(c.codec, old(c.block)))
                   && DecodeFile(c.codec, c.out) == Good(Recorded(rs, |rs|))
  {
    ok := c.FlushLocked();
    if ok {
      ok := p.FlushBlock();
      ReadsBack(c.codec, c.out, c.held, c.blocks, c.block, c.accepted);
    }
  }

  /** Fed the same records, the two writers put the same bytes on disk, block for block: the call succeeds
      exactly when every record and every block fits the format, and then the file reads back as exactly the
      records. */
  method WriteBoth(rs: seq<HistoricalRecord>, codec: Codec, blockTarget: nat, path: Name) returns (ok: bool, capture: seq<Byte>, history: seq<Byte>)
    requires codec.Lossless() && forall i | 0 <= i < |rs| :: rs[i].Raw().Typed()
    ensures var feed := FedBy(codec, blockTarget, Frames(rs), |rs|);
            && (ok <==> feed.Fed? && Flushable(codec, feed.block))
            && (ok ==> capture == history == if feed.block == [] then feed.out else feed.out + Packed(codec, feed.block))
    ensures ok ==> DecodeFile(codec, capture) == Good(Recorded(rs, |rs|))
  {
    var c := new RawEventWriter.Fixed(codec, blockTarget, path);
    var p := new ExistingRawFormatWriter(codec, blockTarget);
    capture, history := [], [];
    ok := FeedAll(c, p, rs);
    if ok {
      ok := FlushBoth(c, p, rs);
    }
    if ok {
      capture, history := c.out, p.output;
    }
  }
}
