/** A raw capture file (cpp/storage/raw_event_writer.cpp:264-338): a header and compressed blocks. */
module RawFile {
  import opened Wrappers
  import opened RawFormat

  lemma {:induction false} SuffixIs(rs: seq<RawRecord>, k: nat)
    requires k <= |rs|
    ensures Suffix(rs, k) == rs[k..]
    decreases |rs| - k
  {
    if k < |rs| {
      SuffixIs(rs, k + 1);
    }
  }

  lemma SuffixStep(rs: seq<RawRecord>, k: int)
    requires AllEncodable(rs) && 0 <= k <= |rs| && (k < |rs| ==> Returns(rs, k + 1))
    ensures Returns(rs, k)
  {
    if k == |rs| {
      EmptyHolds();
    } else {
      FrameThen(rs[k], BlockBytes(rs, k + 1), Suffix(rs, k + 1), BlockBytes(rs, k));
    }
  }

  lemma {:induction false} SuffixHolds(rs: seq<RawRecord>, k: int)
    requires AllEncodable(rs) && 0 <= k <= |rs|
    ensures Returns(rs, k)
    decreases |rs| - k
  {
    if k < |rs| {
      SuffixHolds(rs, k + 1);
    }
    SuffixStep(rs, k);
  }

  /** Whatever records were packed into a block are what the reader gets out of it, in order. */
  lemma BlockRoundTrip(rs: seq<RawRecord>)
    requires AllEncodable(rs)
    ensures DecodeBlock(BlockBytes(rs, 0)) == Good(rs)
  {
    SuffixHolds(rs, 0);
    SuffixIs(rs, 0);
    assert rs[0..] == rs;
  }

  /** Compression, taken as an invertible function given by its graph. */
  datatype Codec = Codec(compressed: imap<seq<Byte>, seq<Byte>>, expanded: imap<seq<Byte>, seq<Byte>>) {
    function Compress(b: seq<Byte>): seq<Byte> {
      if b in compressed then compressed[b] else []
    }

    function Expand(z: seq<Byte>): Option<seq<Byte>> {
      if z in expanded then Some(expanded[z]) else None
    }

    ghost predicate Lossless() {
      forall b :: Expand(Compress(b)) == Some(b)
    }
  }

  /** There is one: it stores every block as it is. */
  lemma StoringIsLossless()
    ensures exists codec: Codec :: codec.Lossless()
  {
    var same := imap b: seq<Byte> | |b| >= 0 :: b;
    var codec := Codec(same, same);
    assert forall b :: codec.Compress(b) == b;
    assert codec.Lossless();
  }

  const MAGIC: seq<Byte> := [67, 72, 70, 84, 76, 50, 82, 49]

  function Header(): seq<Byte> {
    MAGIC + Le(1, 4)
  }

  /** A compressed block on disk: the raw size, the compressed size, the bytes. */
  function Packed(codec: Codec, block: seq<Byte>): (bs: seq<Byte>)
    ensures |bs| >= 8
  {
    Le(|block|, 4) + (Le(|codec.Compress(block)|, 4) + codec.Compress(block))
  }

  /** What flush accepts. */
  predicate Packable(codec: Codec, block: seq<Byte>) {
    |block| < TWO_32 && |codec.Compress(block)| < TWO_32
  }

  /** for_each over the blocks that follow the header. */
  function DecodeBlocks(codec: Codec, data: seq<Byte>): Decoded
    decreases |data|
  {
    if data == [] then Good([]) else
    match TakeLe(data, 4)
    case NoNumber => Bad
    case Number(rawSize, afterRaw) =>
      match TakeLe(afterRaw, 4)
      case NoNumber => Bad
      case Number(size, after) =>
        if |after| < size then Bad else
        var block := codec.Expand(after[..size]);
        if block.None? || |block.value| != rawSize then Bad else
        match DecodeBlock(block.value)
        case Bad => Bad
        case Good(records) =>
          match DecodeBlocks(codec, after[size..])
          case Bad => Bad
          case Good(more) => Good(records + more)
  }

  function DecodeFile(codec: Codec, data: seq<Byte>): Decoded {
    if |data| < 12 || data[..8] != MAGIC || data[8..12] != Le(1, 4) then Bad else DecodeBlocks(codec, data[12..])
  }

  lemma Nested(a: seq<Byte>, b: seq<Byte>, c: seq<Byte>, d: seq<Byte>)
    ensures a + (b + c) + d == a + (b + (c + d))
  {
  }

  lemma PackedFront(codec: Codec, block: seq<Byte>, z: seq<Byte>, rest: seq<Byte>, data: seq<Byte>)
    requires Packable(codec, block) && z == codec.Compress(block) && data == Packed(codec, block) + rest
    ensures TakeLe(data, 4) == Number(|block|, Le(|z|, 4) + (z + rest))
    ensures TakeLe(Le(|z|, 4) + (z + rest), 4) == Number(|z|, z + rest)
  {
    Widths();
    Nested(Le(|block|, 4), Le(|z|, 4), z, rest);
    TakeLeGives(|block|, 4, Le(|z|, 4) + (z + rest));
    TakeLeGives(|z|, 4, z + rest);
  }

  lemma PackedRoundTrip(codec: Codec, block: seq<Byte>, rest: seq<Byte>, data: seq<Byte>)
    requires codec.Lossless() && Packable(codec, block) && DecodeBlock(block).Good? && data == Packed(codec, block) + rest
    ensures DecodeBlocks(codec, data)
         == match DecodeBlocks(codec, rest) case Bad => Bad case Good(rs) => Good(DecodeBlock(block).records + rs)
  {
    var z := codec.Compress(block);
    PackedFront(codec, block, z, rest, data);
    assert (z + rest)[..|z|] == z && (z + rest)[|z|..] == rest;
  }

  /** Data that decodes to the given records. */
  ghost predicate Holds(codec: Codec, data: seq<Byte>, rs: seq<RawRecord>) {
    DecodeBlocks(codec, data) == Good(rs)
  }

  lemma PackedThen(codec: Codec, rs: seq<RawRecord>, rest: seq<Byte>, more: seq<RawRecord>, data: seq<Byte>)
    requires codec.Lossless() && GoodBlock(codec, rs) && Holds(codec, rest, more)
    requires data == Packed(codec, BlockBytes(rs, 0)) + rest
    ensures Holds(codec, data, rs + more)
  {
    BlockRoundTrip(rs);
    PackedRoundTrip(codec, BlockBytes(rs, 0), rest, data);
  }

  /** Records that make up one block, and a file's worth of them. */
  predicate GoodBlock(codec: Codec, rs: seq<RawRecord>) {
    AllEncodable(rs) && Packable(codec, BlockBytes(rs, 0))
  }

  ghost predicate GoodBlocks(codec: Codec, blocks: seq<seq<RawRecord>>) {
    forall i {:trigger GoodBlock(codec, blocks[i])} | 0 <= i < |blocks| :: GoodBlock(codec, blocks[i])
  }

  lemma NothingHolds(codec: Codec)
    ensures Holds(codec, [], [])
  {
  }
}
