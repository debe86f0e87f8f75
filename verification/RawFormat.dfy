/** The raw capture format (cpp/storage/raw_event_writer.cpp:19-80, 233-301, 327-367): length-prefixed
    little-endian records, packed into compressed blocks behind a file header. */
module RawFormat {

  /** What reading from the front of some data gives: too little, or a value and what is left. */
  datatype Number = NoNumber | Number(n: nat, rest: seq<Byte>)
  datatype Text = NoText | Text(s: seq<Byte>, rest: seq<Byte>)

  /** What decoding gives: an error, or everything decoded. */
  datatype Decoded = Bad | Good(records: seq<RawRecord>)
  datatype DecodedRecord = BadRecord | GoodRecord(record: RawRecord)

  type Byte = x: int | 0 <= x < 256

  const TWO_63: int := 0x8000_0000_0000_0000
  const TWO_32: int := 0x1_0000_0000

  function Pow256(w: nat): (p: nat)
    ensures p > 0
  {
    if w == 0 then 1 else 256 * Pow256(w - 1)
  }

  lemma Widths()
    ensures Pow256(4) == TWO_32 && Pow256(8) == 2 * TWO_63
  {
    assert Pow256(1) == 256 && Pow256(2) == 65536 && Pow256(3) == 16777216;
    assert Pow256(5) == 256 * TWO_32 && Pow256(6) == 65536 * TWO_32 && Pow256(7) == 16777216 * TWO_32;
  }

  /** append_le: the low byte first. */
  function Le(n: nat, w: nat): (bs: seq<Byte>)
    ensures |bs| == w
  {
    if w == 0 then [] else [n % 256] + Le(n / 256, w - 1)
  }

  function FromLe(bs: seq<Byte>): nat {
    if bs == [] then 0 else bs[0] + 256 * FromLe(bs[1..])
  }

  lemma {:induction false} FromLeFits(bs: seq<Byte>)
    ensures FromLe(bs) < Pow256(|bs|)
  {
    if bs != [] {
      FromLeFits(bs[1..]);
    }
  }

  lemma {:induction false} LeRoundTrip(n: nat, w: nat)
    requires n < Pow256(w)
    ensures FromLe(Le(n, w)) == n
  {
    if w > 0 {
      LeRoundTrip(n / 256, w - 1);
      assert Le(n, w)[1..] == Le(n / 256, w - 1);
    }
  }

  lemma LowByte(b: Byte, n: nat)
    ensures (b + 256 * n) % 256 == b && (b + 256 * n) / 256 == n
  {
  }

  lemma Uncons(data: seq<Byte>)
    requires data != []
    ensures data == [data[0]] + data[1..]
  {
  }

  lemma {:induction false} LeIsCanonical(bs: seq<Byte>)
    ensures Le(FromLe(bs), |bs|) == bs
  {
    if bs != [] {
      LeIsCanonical(bs[1..]);
      LowByte(bs[0], FromLe(bs[1..]));
      Uncons(bs);
    }
  }

  /** read_le: None when the data is too short. */
  function TakeLe(data: seq<Byte>, w: nat): Number {
    if |data| < w then NoNumber else Number(FromLe(data[..w]), data[w..])
  }

  lemma TakeLeGives(n: nat, w: nat, rest: seq<Byte>)
    requires n < Pow256(w)
    ensures TakeLe(Le(n, w) + rest, w) == Number(n, rest)
  {
    LeRoundTrip(n, w);
    assert (Le(n, w) + rest)[..w] == Le(n, w) && (Le(n, w) + rest)[w..] == rest;
  }

  lemma Split(data: seq<Byte>, w: nat)
    requires w <= |data|
    ensures data == data[..w] + data[w..] && |data[..w]| == w
  {
  }

  lemma TakeLeTook(data: seq<Byte>, w: nat)
    requires |data| >= w
    ensures var t := TakeLe(data, w); t.Number? && data == Le(t.n, w) + t.rest && t.n < Pow256(w)
  {
    Split(data, w);
    FrontIsLe(data[..w], w);
  }

  lemma FrontIsLe(front: seq<Byte>, w: nat)
    requires |front| == w
    ensures Le(FromLe(front), w) == front && FromLe(front) < Pow256(w)
  {
    LeIsCanonical(front);
    FromLeFits(front);
  }

  function TextBytes(s: seq<Byte>): (bs: seq<Byte>)
    ensures |bs| == 4 + |s|
  {
    Le(|s|, 4) + s
  }

  function TakeText(data: seq<Byte>): Text {
    match TakeLe(data, 4)
    case NoNumber => NoText
    case Number(size, rest) => if |rest| < size then NoText else Text(rest[..size], rest[size..])
  }

  lemma TakeTextGives(s: seq<Byte>, rest: seq<Byte>)
    requires |s| < TWO_32
    ensures TakeText(TextBytes(s) + rest) == Text(s, rest)
  {
    Widths();
    TakeLeGives(|s|, 4, s + rest);
    assert TextBytes(s) + rest == Le(|s|, 4) + (s + rest);
    assert (s + rest)[..|s|] == s && (s + rest)[|s|..] == rest;
  }

  lemma TakeTextTook(data: seq<Byte>)
    requires TakeText(data).Text?
    ensures var t := TakeText(data); data == TextBytes(t.s) + t.rest && |t.s| < TWO_32
  {
    Widths();
    TakeLeTook(data, 4);
  }

  /** A signed 64-bit value as its two's complement bits. */
  function Bits(x: int): nat
    requires -TWO_63 <= x < TWO_63
  {
    if x < 0 then x + 2 * TWO_63 else x
  }

  function Signed(n: nat): int {
    if n < TWO_63 then n else n - 2 * TWO_63
  }

  datatype RawRecord = RawRecord(systemNs: nat, steadyNs: nat, exchangeMs: int, kind: Byte,
                                 session: seq<Byte>, stream: seq<Byte>, payload: seq<Byte>)
  {
    /** The ranges of the machine types. */
    predicate Typed() { systemNs < 2 * TWO_63 && steadyNs < 2 * TWO_63 && -TWO_63 <= exchangeMs < TWO_63 }
  }

  function RecordBytes(r: RawRecord): (bs: seq<Byte>)
    requires r.Typed()
    ensures |bs| == 37 + |r.session| + |r.stream| + |r.payload|
  {
    Le(r.systemNs, 8) + (Le(r.steadyNs, 8) + (Le(Bits(r.exchangeMs), 8) + ([r.kind] +
    (TextBytes(r.session) + (TextBytes(r.stream) + (TextBytes(r.payload) + []))))))
  }

  /** What write accepts: every length fits its 32-bit prefix. */
  predicate Encodable(r: RawRecord) {
    r.Typed() && 37 + |r.session| + |r.stream| + |r.payload| < TWO_32
  }

  function DecodeTexts(systemNs: nat, steadyNs: nat, exchangeMs: int, kind: Byte, data: seq<Byte>): DecodedRecord {
    match TakeText(data)
    case NoText => BadRecord
    case Text(session, afterSession) =>
      match TakeText(afterSession)
      case NoText => BadRecord
      case Text(stream, afterStream) =>
        match TakeText(afterStream)
        case NoText => BadRecord
        case Text(payload, rest) =>
          if rest != [] then BadRecord
          else GoodRecord(RawRecord(systemNs, steadyNs, exchangeMs, kind, session, stream, payload))
  }

  /** One record view; trailing bytes are an error. */
  function DecodeRecord(data: seq<Byte>): DecodedRecord {
    match TakeLe(data, 8)
    case NoNumber => BadRecord
    case Number(system, afterSystem) =>
      match TakeLe(afterSystem, 8)
      case NoNumber => BadRecord
      case Number(steady, afterSteady) =>
        match TakeLe(afterSteady, 8)
        case NoNumber => BadRecord
        case Number(exchange, rest) =>
          if rest == [] then BadRecord else DecodeTexts(system, steady, Signed(exchange), rest[0], rest[1..])
  }

  lemma TextsRoundTrip(r: RawRecord)
    requires Encodable(r)
    ensures DecodeTexts(r.systemNs, r.steadyNs, r.exchangeMs, r.kind, TextBytes(r.session) + (TextBytes(r.stream) + (TextBytes(r.payload) + [])))
         == GoodRecord(r)
  {
    TakeTextGives(r.session, TextBytes(r.stream) + (TextBytes(r.payload) + []));
    TakeTextGives(r.stream, TextBytes(r.payload) + []);
    TakeTextGives(r.payload, []);
  }

  lemma RecordRoundTrip(r: RawRecord)
    requires Encodable(r)
    ensures DecodeRecord(RecordBytes(r)) == GoodRecord(r)
  {
    Widths();
    var texts := TextBytes(r.session) + (TextBytes(r.stream) + (TextBytes(r.payload) + []));
    var d := Le(Bits(r.exchangeMs), 8) + ([r.kind] + texts);
    TakeLeGives(r.systemNs, 8, Le(r.steadyNs, 8) + d);
    TakeLeGives(r.steadyNs, 8, d);
    TakeLeGives(Bits(r.exchangeMs), 8, [r.kind] + texts);
    assert ([r.kind] + texts)[1..] == texts;
    TextsRoundTrip(r);
  }

  lemma TextsCanonical(systemNs: nat, steadyNs: nat, exchangeMs: int, kind: Byte, data: seq<Byte>)
    requires DecodeTexts(systemNs, steadyNs, exchangeMs, kind, data).GoodRecord?
    ensures var r := DecodeTexts(systemNs, steadyNs, exchangeMs, kind, data).record;
            && data == TextBytes(r.session) + (TextBytes(r.stream) + (TextBytes(r.payload) + []))
            && r == RawRecord(systemNs, steadyNs, exchangeMs, kind, r.session, r.stream, r.payload)
  {
    TakeTextTook(data);
    TakeTextTook(TakeText(data).rest);
    TakeTextTook(TakeText(TakeText(data).rest).rest);
  }

  /** The reader accepts no second spelling: what it accepts is what the writer writes. */
  lemma RecordIsCanonical(data: seq<Byte>)
    requires DecodeRecord(data).GoodRecord?
    ensures var r := DecodeRecord(data).record; r.Typed() && RecordBytes(r) == data
  {
    Widths();
    var system := TakeLe(data, 8);
    var steady := TakeLe(system.rest, 8);
    var exchange := TakeLe(steady.rest, 8);
    TakeLeTook(data, 8);
    TakeLeTook(system.rest, 8);
    TakeLeTook(steady.rest, 8);
    Uncons(exchange.rest);
    TailIsCanonical(system.n, steady.n, exchange.n, exchange.rest[0], exchange.rest[1..]);
  }

  lemma TailIsCanonical(systemNs: nat, steadyNs: nat, bits: nat, kind: Byte, texts: seq<Byte>)
    requires bits < 2 * TWO_63 && DecodeTexts(systemNs, steadyNs, Signed(bits), kind, texts).GoodRecord?
    ensures var r := DecodeTexts(systemNs, steadyNs, Signed(bits), kind, texts).record;
            && r == RawRecord(systemNs, steadyNs, Signed(bits), kind, r.session, r.stream, r.payload)
            && Bits(Signed(bits)) == bits
            && texts == TextBytes(r.session) + (TextBytes(r.stream) + (TextBytes(r.payload) + []))
  {
    SignedBits(bits);
    TextsCanonical(systemNs, steadyNs, Signed(bits), kind, texts);
  }

  lemma SignedBits(bits: nat)
    requires bits < 2 * TWO_63
    ensures -TWO_63 <= Signed(bits) < TWO_63 && Bits(Signed(bits)) == bits
  {
  }

  predicate AllEncodable(rs: seq<RawRecord>) {
    forall i {:trigger Encodable(rs[i])} | 0 <= i < |rs| :: Encodable(rs[i])
  }

  /** A record as it stands in a block. */
  function Framed(r: RawRecord): (bs: seq<Byte>)
    requires Encodable(r)
    ensures |bs| > 4
  {
    Le(|RecordBytes(r)|, 4) + RecordBytes(r)
  }

  /** The framed records from the k-th on. */
  function BlockBytes(rs: seq<RawRecord>, k: nat): (bs: seq<Byte>)
    requires k <= |rs| && AllEncodable(rs)
    decreases |rs| - k
  {
    if k == |rs| then [] else Framed(rs[k]) + BlockBytes(rs, k + 1)
  }

  function DecodeBlock(data: seq<Byte>): Decoded
    decreases |data|
  {
    if data == [] then Good([]) else
    match TakeLe(data, 4)
    case NoNumber => Bad
    case Number(size, after) =>
      if |after| < size then Bad else
      match DecodeRecord(after[..size])
      case BadRecord => Bad
      case GoodRecord(r) =>
        match DecodeBlock(after[size..])
        case Bad => Bad
        case Good(rs) => Good([r] + rs)
  }

  lemma FrameRoundTrip(r: RawRecord, rest: seq<Byte>)
    requires Encodable(r)
    ensures DecodeBlock(Framed(r) + rest) == match DecodeBlock(rest) case Bad => Bad case Good(rs) => Good([r] + rs)
  {
    Widths();
    var b := RecordBytes(r);
    assert Framed(r) + rest == Le(|b|, 4) + (b + rest);
    TakeLeGives(|b|, 4, b + rest);
    assert (b + rest)[..|b|] == b && (b + rest)[|b|..] == rest;
    RecordRoundTrip(r);
  }

  /** A block that decodes to the given records. */
  ghost predicate BlockHolds(data: seq<Byte>, rs: seq<RawRecord>) {
    DecodeBlock(data) == Good(rs)
  }

  function Suffix(rs: seq<RawRecord>, k: nat): (r: seq<RawRecord>)
    requires k <= |rs|
    decreases |rs| - k
  {
    if k == |rs| then [] else [rs[k]] + Suffix(rs, k + 1)
  }

  /** Packing the records from the k-th on and decoding the block gives them back. */
  ghost predicate Returns(rs: seq<RawRecord>, k: int) {
    0 <= k <= |rs| && AllEncodable(rs) && BlockHolds(BlockBytes(rs, k), Suffix(rs, k))
  }

  lemma FrameThen(r: RawRecord, rest: seq<Byte>, rs: seq<RawRecord>, data: seq<Byte>)
    requires Encodable(r) && BlockHolds(rest, rs) && data == Framed(r) + rest
    ensures BlockHolds(data, [r] + rs)
  {
    FrameRoundTrip(r, rest);
  }

  lemma EmptyHolds()
    ensures BlockHolds([], [])
  {
  }

  lemma {:induction false} BlockAppended(rs: seq<RawRecord>, r: RawRecord, k: nat)
    requires k <= |rs| && AllEncodable(rs) && Encodable(r)
    ensures AllEncodable(rs + [r]) && BlockBytes(rs + [r], k) == BlockBytes(rs, k) + Framed(r)
    decreases |rs| - k
  {
    assert AllEncodable(rs + [r]);
    if k < |rs| {
      BlockAppended(rs, r, k + 1);
    } else {
      assert BlockBytes(rs + [r], k + 1) == [];
    }
  }

  lemma {:induction false} BlockShifted(r: RawRecord, rs: seq<RawRecord>, k: nat)
    requires Encodable(r) && AllEncodable(rs) && k <= |rs|
    ensures AllEncodable([r] + rs) && BlockBytes([r] + rs, k + 1) == BlockBytes(rs, k)
    decreases |rs| - k
  {
    assert AllEncodable([r] + rs);
    if k < |rs| {
      BlockShifted(r, rs, k + 1);
    }
  }

  /** A length prefix and a record view are exactly a framed record. */
  lemma FrameTook(data: seq<Byte>, size: nat, after: seq<Byte>)
    requires TakeLe(data, 4) == Number(size, after) && size <= |after| && DecodeRecord(after[..size]).GoodRecord?
    ensures var r := DecodeRecord(after[..size]).record; Encodable(r) && data == Framed(r) + after[size..]
  {
    Widths();
    TakeLeTook(data, 4);
    RecordIsCanonical(after[..size]);
    Reassociate(Le(size, 4), after, size);
  }

  lemma Reassociate(a: seq<Byte>, b: seq<Byte>, k: nat)
    requires k <= |b|
    ensures a + b == a + b[..k] + b[k..]
  {
  }

  /** Any block the reader accepts re-encodes to the identical bytes. */
  lemma {:induction false} BlockIsCanonical(data: seq<Byte>)
    requires DecodeBlock(data).Good?
    ensures var rs := DecodeBlock(data).records; AllEncodable(rs) && BlockBytes(rs, 0) == data
    decreases |data|
  {
    if data != [] {
      var size, after := TakeLe(data, 4).n, TakeLe(data, 4).rest;
      FrameTook(data, size, after);
      BlockIsCanonical(after[size..]);
      BlockShifted(DecodeRecord(after[..size]).record, DecodeBlock(after[size..]).records, 0);
    }
  }

  function Prepended(rs: seq<RawRecord>, d: Decoded): Decoded {
    match d
    case Bad => Bad
    case Good(more) => Good(rs + more)
  }

  lemma PrependedTwice(a: seq<RawRecord>, b: seq<RawRecord>, d: Decoded)
    ensures Prepended(a, Prepended(b, d)) == Prepended(a + b, d)
  {
    if d.Good? {
      assert a + (b + d.records) == a + b + d.records;
    }
  }

  /** One turn of the reading loop: the record at the front and what follows it, or an error. */
  method NextRecord(data: seq<Byte>) returns (r: DecodedRecord, rest: seq<Byte>)
    requires data != []
    ensures r.BadRecord? ==> DecodeBlock(data) == Bad
    ensures r.GoodRecord? ==> |rest| < |data| && DecodeBlock(data) == Prepended([r.record], DecodeBlock(rest))
  {
    var prefix := TakeLe(data, 4);
    if prefix.NoNumber? || |prefix.rest| < prefix.n {
      return BadRecord, [];
    }
    return DecodeRecord(prefix.rest[..prefix.n]), prefix.rest[prefix.n..];
  }

  /** The reading loop over one block. */
  method ReadBlock(data: seq<Byte>) returns (r: Decoded)
    ensures r == DecodeBlock(data)
  {
    var rest := data;
    var records := [];
    while rest != []
      invariant DecodeBlock(data) == Prepended(records, DecodeBlock(rest))
      decreases |rest|
    {
      var next;
      next, rest := NextRecord(rest);
      if next.BadRecord? {
        return Bad;
      }
      PrependedTwice(records, [next.record], DecodeBlock(rest));
      records := records + [next.record];
    }
    return Good(records);
  }
}
