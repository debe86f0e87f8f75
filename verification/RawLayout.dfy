/** Where everything stands in a raw capture, byte by byte (cpp/storage/raw_event_writer.cpp:19-80, 233-338,
    pyresearch/historical/l2.py:560-600). */
module RawLayout {
  import opened RawFormat
  import opened RawFile

  /** w bytes from `at` on spell a number, its lowest byte first. */
  ghost predicate Spells(bs: seq<Byte>, at: nat, w: nat, n: nat)
    decreases w
  {
    at + w <= |bs| && (w > 0 ==> bs[at] == n % 256 && Spells(bs, at + 1, w - 1, n / 256))
  }

  lemma {:induction false} LeSpells(front: seq<Byte>, n: nat, w: nat, back: seq<Byte>)
    ensures Spells(front + (Le(n, w) + back), |front|, w, n)
    decreases w
  {
    var bs := front + (Le(n, w) + back);
    if w > 0 {
      LeSpells(front + [n % 256], n / 256, w - 1, back);
      assert bs == front + [n % 256] + (Le(n / 256, w - 1) + back);
    }
  }

  /** A signed stamp is written modulo 2 to the 64. */
  lemma BitsAreModulo(x: int)
    requires -TWO_63 <= x < TWO_63
    ensures Bits(x) == x % (2 * TWO_63)
  {
  }

  /** A record: both stamps, the exchange stamp, the kind, and three texts, each behind its length. */
  ghost predicate Laid(bs: seq<Byte>, r: RawRecord) {
    var s, t, p := |r.session|, |r.stream|, |r.payload|;
    && |bs| == 37 + s + t + p
    && Spells(bs, 0, 8, r.systemNs) && Spells(bs, 8, 8, r.steadyNs) && Spells(bs, 16, 8, r.exchangeMs % (2 * TWO_63)) && bs[24] == r.kind
    && Spells(bs, 25, 4, s) && bs[29..29 + s] == r.session
    && Spells(bs, 29 + s, 4, t) && bs[33 + s..33 + s + t] == r.stream
    && Spells(bs, 33 + s + t, 4, p) && bs[37 + s + t..] == r.payload
  }

  lemma RecordIsLaid(r: RawRecord)
    requires r.Typed()
    ensures Laid(RecordBytes(r), r)
  {
    var bs := RecordBytes(r);
    assert TextBytes(r.payload) + [] == TextBytes(r.payload);
    var texts := TextBytes(r.session) + (TextBytes(r.stream) + TextBytes(r.payload));
    FrontLaid(bs, r, texts);
    TextsLaid(bs, 25, r.session, r.stream, r.payload);
  }

  lemma FrontLaid(bs: seq<Byte>, r: RawRecord, texts: seq<Byte>)
    requires r.Typed() && bs == Le(r.systemNs, 8) + (Le(r.steadyNs, 8) + (Le(Bits(r.exchangeMs), 8) + ([r.kind] + texts)))
    ensures Spells(bs, 0, 8, r.systemNs) && Spells(bs, 8, 8, r.steadyNs) && Spells(bs, 16, 8, r.exchangeMs % (2 * TWO_63))
    ensures |bs| >= 25 && bs[24] == r.kind && bs[25..] == texts
  {
    StampsLaid(bs, r, Le(Bits(r.exchangeMs), 8) + ([r.kind] + texts));
    BitsAreModulo(r.exchangeMs);
    NumberLaid(bs, 16, Bits(r.exchangeMs), 8, [r.kind] + texts);
    assert bs[24] == bs[24..][0] && bs[25..] == bs[24..][1..];
  }

  lemma TextsLaid(bs: seq<Byte>, at: nat, session: seq<Byte>, stream: seq<Byte>, payload: seq<Byte>)
    requires at <= |bs| && bs[at..] == TextBytes(session) + (TextBytes(stream) + TextBytes(payload))
    ensures var s, t, p := |session|, |stream|, |payload|;
            && |bs| == at + 12 + s + t + p
            && Spells(bs, at, 4, s) && bs[at + 4..at + 4 + s] == session
            && Spells(bs, at + 4 + s, 4, t) && bs[at + 8 + s..at + 8 + s + t] == stream
            && Spells(bs, at + 8 + s + t, 4, p) && bs[at + 12 + s + t..] == payload
  {
    var s, t := |session|, |stream|;
    TextLaid(bs, at, session, TextBytes(stream) + TextBytes(payload));
    TextLaid(bs, at + 4 + s, stream, TextBytes(payload));
    LastTextLaid(bs, at + 8 + s + t, payload);
  }

  lemma LastTextLaid(bs: seq<Byte>, at: nat, text: seq<Byte>)
    requires at <= |bs| && bs[at..] == TextBytes(text)
    ensures |bs| == at + 4 + |text| && Spells(bs, at, 4, |text|) && bs[at + 4..] == text
  {
    NumberLaid(bs, at, |text|, 4, text);
  }

  lemma NumberLaid(bs: seq<Byte>, at: nat, n: nat, w: nat, rest: seq<Byte>)
    requires at <= |bs| && bs[at..] == Le(n, w) + rest
    ensures Spells(bs, at, w, n) && bs[at + w..] == rest
  {
    LeSpells(bs[..at], n, w, rest);
    assert bs == bs[..at] + bs[at..];
  }

  lemma StampsLaid(bs: seq<Byte>, r: RawRecord, rest: seq<Byte>)
    requires bs == Le(r.systemNs, 8) + (Le(r.steadyNs, 8) + rest)
    ensures Spells(bs, 0, 8, r.systemNs) && Spells(bs, 8, 8, r.steadyNs) && bs[16..] == rest
  {
    NumberLaid(bs, 0, r.systemNs, 8, Le(r.steadyNs, 8) + rest);
    NumberLaid(bs, 8, r.steadyNs, 8, rest);
  }

  lemma TextLaid(bs: seq<Byte>, at: nat, text: seq<Byte>, rest: seq<Byte>)
    requires at <= |bs| && bs[at..] == TextBytes(text) + rest
    ensures Spells(bs, at, 4, |text|) && at + 4 + |text| <= |bs|
    ensures bs[at + 4..at + 4 + |text|] == text && bs[at + 4 + |text|..] == rest
  {
    assert bs[at..] == Le(|text|, 4) + (text + rest);
    NumberLaid(bs, at, |text|, 4, text + rest);
    assert bs[at + 4..] == text + rest;
    assert bs[at + 4..at + 4 + |text|] == bs[at + 4..][..|text|];
  }

  /** In a block each record stands behind its size. */
  lemma FrameIsLaid(r: RawRecord)
    requires Encodable(r)
    ensures |Framed(r)| >= 4 && Spells(Framed(r), 0, 4, 37 + |r.session| + |r.stream| + |r.payload|) && Laid(Framed(r)[4..], r)
  {
    FramedIs(Framed(r), RecordBytes(r));
    RecordIsLaid(r);
  }

  lemma FramedIs(framed: seq<Byte>, bs: seq<Byte>)
    requires framed == Le(|bs|, 4) + bs
    ensures |framed| >= 4 && Spells(framed, 0, 4, |bs|) && framed[4..] == bs
  {
    NumberLaid(framed, 0, |bs|, 4, bs);
  }

  /** In a file each block stands compressed behind its two sizes, */
  lemma BlockIsLaid(codec: Codec, block: seq<Byte>)
    ensures var bs, z := Packed(codec, block), codec.Compress(block); Spells(bs, 0, 4, |block|) && Spells(bs, 4, 4, |z|) && bs[8..] == z
  {
    var z := codec.Compress(block);
    NumberLaid(Packed(codec, block), 0, |block|, 4, Le(|z|, 4) + z);
    NumberLaid(Packed(codec, block), 4, |z|, 4, z);
  }

  /** behind eight letters and the version of the format. */
  lemma HeaderIsLaid()
    ensures Header() == [67, 72, 70, 84, 76, 50, 82, 49, 1, 0, 0, 0]
  {
    assert Le(1, 4) == [1] + Le(0, 3) && Le(0, 3) == [0] + Le(0, 2) && Le(0, 2) == [0] + Le(0, 1) && Le(0, 1) == [0] + Le(0, 0);
  }
}
