/** The account of a raw writer (cpp/storage/raw_event_writer.cpp:137-245): what its files, its flushed
    blocks and its memory hold, and how its files name each other. */
module RawLedger {
  import opened Wrappers
  import opened RawFormat
  import opened RawFile

  /** A file name: the bucket's wall-clock second and the suffix that keeps it from overwriting a file. */
  datatype Name = Name(second: nat, attempt: nat)

  datatype Manifest = Manifest(previous: Option<Name>, continuation: bool)

  datatype ClosedFile = ClosedFile(name: Name, bytes: seq<Byte>, manifest: Manifest)

  const MAX_ATTEMPTS: nat := 1000

  /** Each file names the one before it; only the first is independent. */
  ghost predicate Chained(files: seq<ClosedFile>) {
    forall i {:trigger files[i].manifest} | 0 <= i < |files| ::
      files[i].manifest == Manifest(if i == 0 then None else Some(files[i - 1].name), i > 0)
  }

  ghost predicate DistinctNames(files: seq<ClosedFile>) {
    forall i, j {:trigger files[i].name, files[j].name} | 0 <= i < j < |files| :: files[i].name != files[j].name
  }

  ghost predicate NamesIn(files: seq<ClosedFile>, disk: set<Name>) {
    forall i {:trigger files[i].name} | 0 <= i < |files| :: files[i].name in disk
  }

  ghost predicate FileHolds(codec: Codec, f: ClosedFile, rs: seq<RawRecord>) {
    DecodeFile(codec, f.bytes) == Good(rs)
  }

  ghost predicate FilesHold(codec: Codec, files: seq<ClosedFile>, held: seq<seq<RawRecord>>) {
    |held| == |files| && forall i {:trigger FileHolds(codec, files[i], held[i])} | 0 <= i < |files| :: FileHolds(codec, files[i], held[i])
  }

  /** A file body: the packed blocks in order. */
  ghost function Body(codec: Codec, blocks: seq<seq<RawRecord>>, n: nat): seq<Byte>
    requires n <= |blocks| && GoodBlocks(codec, blocks)
    decreases |blocks| - n
  {
    if n == |blocks| then []
    else
      assert GoodBlock(codec, blocks[n]);
      Packed(codec, BlockBytes(blocks[n], 0)) + Body(codec, blocks, n + 1)
  }

  ghost function Flat(parts: seq<seq<RawRecord>>, n: nat): seq<RawRecord>
    requires n <= |parts|
    decreases |parts| - n
  {
    if n == |parts| then [] else parts[n] + Flat(parts, n + 1)
  }

  lemma {:induction false} FlatAppended(parts: seq<seq<RawRecord>>, rs: seq<RawRecord>, n: nat)
    requires n <= |parts|
    ensures Flat(parts + [rs], n) == Flat(parts, n) + rs
    decreases |parts| - n
  {
    if n < |parts| {
      FlatAppended(parts, rs, n + 1);
    } else {
      assert Flat(parts + [rs], n + 1) == [];
    }
  }

  /** The packed blocks from the n-th on decode to their records. */
  ghost predicate Returns(codec: Codec, blocks: seq<seq<RawRecord>>, n: int) {
    0 <= n <= |blocks| && GoodBlocks(codec, blocks) && Holds(codec, Body(codec, blocks, n), Flat(blocks, n))
  }

  lemma BodyStep(codec: Codec, blocks: seq<seq<RawRecord>>, n: int)
    requires codec.Lossless() && GoodBlocks(codec, blocks) && 0 <= n <= |blocks| && (n < |blocks| ==> Returns(codec, blocks, n + 1))
    ensures Returns(codec, blocks, n)
  {
    if n == |blocks| {
      NothingHolds(codec);
    } else {
      assert GoodBlock(codec, blocks[n]);
      PackedThen(codec, blocks[n], Body(codec, blocks, n + 1), Flat(blocks, n + 1), Body(codec, blocks, n));
    }
  }

  lemma {:induction false} BodyRoundTrip(codec: Codec, blocks: seq<seq<RawRecord>>, n: int)
    requires codec.Lossless() && GoodBlocks(codec, blocks) && 0 <= n <= |blocks|
    ensures Returns(codec, blocks, n)
    decreases |blocks| - n
  {
    if n < |blocks| {
      BodyRoundTrip(codec, blocks, n + 1);
    }
    BodyStep(codec, blocks, n);
  }

  lemma GoodAppended(codec: Codec, blocks: seq<seq<RawRecord>>, rs: seq<RawRecord>)
    requires GoodBlocks(codec, blocks) && GoodBlock(codec, rs)
    ensures GoodBlocks(codec, blocks + [rs])
  {
  }

  lemma {:induction false} BodyAppended(codec: Codec, blocks: seq<seq<RawRecord>>, rs: seq<RawRecord>, n: nat)
    requires n <= |blocks| && GoodBlocks(codec, blocks) && GoodBlock(codec, rs) && GoodBlocks(codec, blocks + [rs])
    ensures Body(codec, blocks + [rs], n) == Body(codec, blocks, n) + Packed(codec, BlockBytes(rs, 0))
    decreases |blocks| - n
  {
    if n < |blocks| {
      BodyAppended(codec, blocks, rs, n + 1);
    } else {
      assert Body(codec, blocks + [rs], n + 1) == [];
    }
  }

  /** What a writer puts in a file is what a reader takes out of it. */
  lemma FileRoundTrip(codec: Codec, blocks: seq<seq<RawRecord>>)
    requires codec.Lossless() && GoodBlocks(codec, blocks)
    ensures DecodeFile(codec, Header() + Body(codec, blocks, 0)) == Good(Flat(blocks, 0))
  {
    var data := Header() + Body(codec, blocks, 0);
    assert |Header()| == 12 && data[..8] == MAGIC && data[8..12] == Le(1, 4) && data[12..] == Body(codec, blocks, 0);
    BodyRoundTrip(codec, blocks, 0);
  }

  lemma FilesHoldAppended(codec: Codec, files: seq<ClosedFile>, held: seq<seq<RawRecord>>, f: ClosedFile, rs: seq<RawRecord>)
    requires FilesHold(codec, files, held) && FileHolds(codec, f, rs)
    ensures FilesHold(codec, files + [f], held + [rs])
  {
    forall i | 0 <= i < |files| + 1 ensures FileHolds(codec, (files + [f])[i], (held + [rs])[i]) {
      if i < |files| {
        assert FileHolds(codec, files[i], held[i]);
      }
    }
  }

  /** The open file: header, flushed blocks, and the records still in memory. */
  ghost predicate OpenHolds(codec: Codec, out: seq<Byte>, blocks: seq<seq<RawRecord>>, block: seq<Byte>, pending: seq<RawRecord>) {
    && GoodBlocks(codec, blocks) && out == Header() + Body(codec, blocks, 0)
    && AllEncodable(pending) && block == BlockBytes(pending, 0)
  }

  /** Everything accepted so far, wherever it is now. */
  ghost predicate Accounted(held: seq<seq<RawRecord>>, blocks: seq<seq<RawRecord>>, pending: seq<RawRecord>, accepted: seq<RawRecord>) {
    Flat(held, 0) + Flat(blocks, 0) + pending == accepted
  }

  /** Flushing moves the records in memory into one more block. */
  lemma FlushHolds(codec: Codec, out: seq<Byte>, blocks: seq<seq<RawRecord>>, block: seq<Byte>, pending: seq<RawRecord>)
    requires OpenHolds(codec, out, blocks, block, pending) && Packable(codec, block)
    ensures OpenHolds(codec, out + Packed(codec, block), blocks + [pending], [], [])
  {
    GoodAppended(codec, blocks, pending);
    BodyAppended(codec, blocks, pending, 0);
    assert Header() + Body(codec, blocks, 0) + Packed(codec, block) == Header() + (Body(codec, blocks, 0) + Packed(codec, block));
  }

  lemma FlushAccounts(held: seq<seq<RawRecord>>, blocks: seq<seq<RawRecord>>, pending: seq<RawRecord>, accepted: seq<RawRecord>)
    requires Accounted(held, blocks, pending, accepted)
    ensures Accounted(held, blocks + [pending], [], accepted)
  {
    FlatAppended(blocks, pending, 0);
    assert Flat(held, 0) + (Flat(blocks, 0) + pending) + [] == Flat(held, 0) + Flat(blocks, 0) + pending;
  }

  /** Closing turns the flushed blocks into one more file the reader can take in whole. */
  lemma CloseAccounts(codec: Codec, held: seq<seq<RawRecord>>, out: seq<Byte>, blocks: seq<seq<RawRecord>>, accepted: seq<RawRecord>)
    requires codec.Lossless() && OpenHolds(codec, out, blocks, [], []) && Accounted(held, blocks, [], accepted)
    ensures DecodeFile(codec, out) == Good(Flat(blocks, 0))
    ensures Accounted(held + [Flat(blocks, 0)], [], [], accepted)
  {
    FileRoundTrip(codec, blocks);
    FlatAppended(held, Flat(blocks, 0), 0);
    assert Flat([], 0) == [];
  }

  /** A record joins the block in memory. */
  lemma AppendHolds(codec: Codec, out: seq<Byte>, blocks: seq<seq<RawRecord>>, block: seq<Byte>, pending: seq<RawRecord>, r: RawRecord)
    requires OpenHolds(codec, out, blocks, block, pending) && Encodable(r)
    ensures OpenHolds(codec, out, blocks, block + Framed(r), pending + [r])
  {
    BlockAppended(pending, r, 0);
  }

  lemma AppendAccounts(held: seq<seq<RawRecord>>, blocks: seq<seq<RawRecord>>, pending: seq<RawRecord>, accepted: seq<RawRecord>, r: RawRecord)
    requires Accounted(held, blocks, pending, accepted)
    ensures Accounted(held, blocks, pending + [r], accepted + [r])
  {
    assert Flat(held, 0) + Flat(blocks, 0) + (pending + [r]) == Flat(held, 0) + Flat(blocks, 0) + pending + [r];
  }

  lemma EmptyBlock(pending: seq<RawRecord>)
    requires AllEncodable(pending) && BlockBytes(pending, 0) == []
    ensures pending == []
  {
  }

  lemma NothingHeld(codec: Codec)
    ensures OpenHolds(codec, Header(), [], [], []) && Accounted([], [], [], [])
  {
    assert Body(codec, [], 0) == [];
    assert Header() + [] == Header();
  }

  /** The names and manifests of the closed files. */
  ghost predicate Linked(files: seq<ClosedFile>, disk: set<Name>, previous: Option<Name>) {
    && Chained(files) && DistinctNames(files) && NamesIn(files, disk)
    && previous == (if files == [] then None else Some(files[|files| - 1].name))
  }

  ghost predicate Unused(files: seq<ClosedFile>, name: Name) {
    forall i {:trigger files[i].name} | 0 <= i < |files| :: files[i].name != name
  }

  lemma LinkOpens(files: seq<ClosedFile>, disk: set<Name>, previous: Option<Name>, name: Name)
    requires Linked(files, disk, previous)
    ensures Linked(files, disk + {name}, previous) && (name !in disk ==> Unused(files, name))
  {
  }

  lemma ChainCloses(files: seq<ClosedFile>, f: ClosedFile)
    requires Chained(files) && f.manifest == Manifest(if files == [] then None else Some(files[|files| - 1].name), |files| > 0)
    ensures Chained(files + [f])
  {
    forall i | 0 <= i < |files| + 1
      ensures (files + [f])[i].manifest == Manifest(if i == 0 then None else Some((files + [f])[i - 1].name), i > 0)
    {
      if i < |files| {
        assert files[i].manifest == Manifest(if i == 0 then None else Some(files[i - 1].name), i > 0);
      }
    }
  }

  lemma LinkCloses(files: seq<ClosedFile>, disk: set<Name>, previous: Option<Name>, f: ClosedFile)
    requires Linked(files, disk, previous) && f.name in disk && Unused(files, f.name)
    requires f.manifest == Manifest(previous, |files| > 0)
    ensures Linked(files + [f], disk, Some(f.name))
  {
    ChainCloses(files, f);
  }

  /** The whole effect of closing a file whose records are all flushed. */
  lemma SealKeeps(codec: Codec, files: seq<ClosedFile>, held: seq<seq<RawRecord>>, out: seq<Byte>, blocks: seq<seq<RawRecord>>, block: seq<Byte>,
                  pending: seq<RawRecord>, accepted: seq<RawRecord>, disk: set<Name>, previous: Option<Name>, f: ClosedFile)
    requires codec.Lossless() && FilesHold(codec, files, held) && OpenHolds(codec, out, blocks, block, pending) && pending == []
    requires Accounted(held, blocks, pending, accepted) && Linked(files, disk, previous)
    requires f.bytes == out && f.name in disk && Unused(files, f.name) && f.manifest == Manifest(previous, |files| > 0)
    ensures FilesHold(codec, files + [f], held + [Flat(blocks, 0)])
    ensures Accounted(held + [Flat(blocks, 0)], [], pending, accepted)
    ensures OpenHolds(codec, Header(), [], [], pending)
    ensures Linked(files + [f], disk, Some(f.name))
  {
    assert block == [];
    CloseAccounts(codec, held, out, blocks, accepted);
    FilesHoldAppended(codec, files, held, f, Flat(blocks, 0));
    LinkCloses(files, disk, previous, f);
    NothingHeld(codec);
  }
}
