/** The byte format of the write-ahead log: an 8-byte header, then records framed as a
  * 4-byte little-endian length followed by the payload, then zero padding up to the end
  * of the map.  Everything here is about byte sequences; `Wal` adds the handle. */
module WalFormat {

  type byte = x: int | 0 <= x < 256

  const MAGIC: seq<byte> := [0x47, 0x41, 0x57, 0x4C]
  const VERSION: seq<byte> := [1, 0, 0, 0]
  const HEADER_SIZE: nat := 8
  const INITIAL_SIZE: nat := 0x10_0000
  const U32: nat := 0x1_0000_0000

  function Header(): (h: seq<byte>)
    ensures |h| == HEADER_SIZE && h[..4] == MAGIC
  {
    MAGIC + VERSION
  }

  function Zeros(n: nat): (s: seq<byte>)
    ensures |s| == n && forall i | 0 <= i < n :: s[i] == 0
  {
    seq(n, _ => 0)
  }

  /** The length prefix; a length of 2^32 or more is truncated as by `as u32`. */
  function ToLe32(n: nat): (s: seq<byte>)
    ensures |s| == 4
  {
    [n % 256, n / 256 % 256, n / 256 / 256 % 256, n / 256 / 256 / 256 % 256]
  }

  function FromLe32(s: seq<byte>): (n: nat)
    requires |s| == 4
    ensures n < U32
  {
    var b0: int, b1: int, b2: int, b3: int := s[0], s[1], s[2], s[3];
    b0 + 256 * (b1 + 256 * (b2 + 256 * b3))
  }

  /** `n` modulo 256^k: what a length reads as when only its `k` low bytes reached the map. */
  function TornLength(n: nat, k: nat): (r: nat)
    ensures r <= n
  {
    if k == 0 then 0 else n % 256 + 256 * TornLength(n / 256, k - 1)
  }

  /** A prefix of the length bytes over zeros reads as the same length modulo 256^k. */
  lemma TornLe32(n: nat, k: nat)
    requires k <= 4
    ensures FromLe32(ToLe32(n)[..k] + Zeros(4 - k)) == TornLength(n, k)
  {
    var s := ToLe32(n)[..k] + Zeros(4 - k);
    var n1, n2, n3 := n / 256, n / 256 / 256, n / 256 / 256 / 256;
    if k >= 1 { assert TornLength(n, k) == n % 256 + 256 * TornLength(n1, k - 1); }
    if k >= 2 { assert TornLength(n1, k - 1) == n1 % 256 + 256 * TornLength(n2, k - 2); }
    if k >= 3 { assert TornLength(n2, k - 2) == n2 % 256 + 256 * TornLength(n3, k - 3); }
    if k >= 4 { assert TornLength(n3, k - 3) == n3 % 256 + 256 * TornLength(n3 / 256, k - 4); }
  }

  lemma TornLengthFull(n: nat)
    requires n < U32
    ensures TornLength(n, 4) == n
  {
    var n1, n2, n3 := n / 256, n / 256 / 256, n / 256 / 256 / 256;
    assert n3 < 256;
    assert TornLength(n3, 1) == n3 by { assert TornLength(n3, 1) == n3 % 256 + 256 * TornLength(n3 / 256, 0); }
    assert TornLength(n2, 2) == n2;
    assert TornLength(n1, 3) == n1;
  }

  lemma Le32RoundTrip(n: nat)
    requires n < U32
    ensures FromLe32(ToLe32(n)) == n
  {
    TornLe32(n, 4);
    TornLengthFull(n);
    assert ToLe32(n)[..4] + Zeros(0) == ToLe32(n);
  }

  lemma LowDigit(a: nat, x: nat, b: nat, y: nat)
    requires a < 256 && b < 256 && a + 256 * x == b + 256 * y
    ensures a == b && x == y
  {
  }

  lemma FromLe32Injective(s: seq<byte>, t: seq<byte>)
    requires |s| == |t| == 4 && FromLe32(s) == FromLe32(t)
    ensures s == t
  {
    var s1: nat, s2: nat, s3: nat := s[1], s[2], s[3];
    var t1: nat, t2: nat, t3: nat := t[1], t[2], t[3];
    LowDigit(s[0], s1 + 256 * (s2 + 256 * s3), t[0], t1 + 256 * (t2 + 256 * t3));
    LowDigit(s1, s2 + 256 * s3, t1, t2 + 256 * t3);
    LowDigit(s2, s3, t2, t3);
  }

  /** So the torn length bytes are the length bytes of the torn length. */
  lemma TornPrefix(n: nat, k: nat)
    requires k <= 4 && n < U32
    ensures ToLe32(n)[..k] + Zeros(4 - k) == ToLe32(TornLength(n, k))
  {
    TornLe32(n, k);
    Le32RoundTrip(TornLength(n, k));
    FromLe32Injective(ToLe32(n)[..k] + Zeros(4 - k), ToLe32(TornLength(n, k)));
  }

  function Frame(p: seq<byte>): (f: seq<byte>)
    ensures |f| == 4 + |p|
  {
    ToLe32(|p|) + p
  }

  function FrameAll(recs: seq<seq<byte>>): (d: seq<byte>)
  {
    if recs == [] then [] else Frame(recs[0]) + FrameAll(recs[1..])
  }

  /** Every complete record of `d`, in order: what each scan of the log walks. */
  function Parse(d: seq<byte>): (recs: seq<seq<byte>>)
    decreases |d|
  {
    if |d| < 4 then []
    else
      var len := FromLe32(d[..4]);
      if 4 + len > |d| then [] else [d[4..4 + len]] + Parse(d[4 + len..])
  }

  ghost predicate Short(recs: seq<seq<byte>>) {
    forall i | 0 <= i < |recs| :: |recs[i]| < U32
  }

  /** Where the frames of `recs` end. */
  function End(recs: seq<seq<byte>>): nat {
    HEADER_SIZE + |FrameAll(recs)|
  }

  /** The bytes of `data` up to the end of `recs`: the header it has, then the frames. */
  function Written(data: seq<byte>, recs: seq<seq<byte>>): (d: seq<byte>)
    requires HEADER_SIZE <= |data|
    ensures |d| == End(recs)
  {
    data[..HEADER_SIZE] + FrameAll(recs)
  }

  /** `data` is a header with the magic, the frames of `recs`, and nothing but zeros after
    * them.  The version bytes are never read, so they may be anything. */
  ghost predicate Image(data: seq<byte>, recs: seq<seq<byte>>) {
    && Short(recs)
    && HEADER_SIZE <= End(recs) <= |data|
    && data[..4] == MAGIC
    && data == Written(data, recs) + Zeros(|data| - End(recs))
  }

  lemma {:induction false} FrameAllAppend(xs: seq<seq<byte>>, ys: seq<seq<byte>>)
    ensures FrameAll(xs + ys) == FrameAll(xs) + FrameAll(ys)
  {
    if xs == [] {
      assert xs + ys == ys;
    } else {
      assert (xs + ys)[1..] == xs[1..] + ys;
      FrameAllAppend(xs[1..], ys);
    }
  }

  lemma FrameAllOne(p: seq<byte>)
    ensures FrameAll([p]) == Frame(p)
  {
    assert [p][1..] == [];
  }

  lemma ParseOne(p: seq<byte>, rest: seq<byte>)
    requires |p| < U32
    ensures Parse(Frame(p) + rest) == [p] + Parse(rest)
  {
    var d := Frame(p) + rest;
    assert d[..4] == ToLe32(|p|);
    Le32RoundTrip(|p|);
    assert d[4..4 + |p|] == p;
    assert d[4 + |p|..] == rest;
  }

  /** Scanning framed records gives them back, followed by whatever the rest scans to. */
  lemma {:induction false} ParseFrames(recs: seq<seq<byte>>, rest: seq<byte>)
    requires Short(recs)
    ensures Parse(FrameAll(recs) + rest) == recs + Parse(rest)
  {
    if recs == [] {
      assert FrameAll(recs) + rest == rest;
    } else {
      var p, more := recs[0], recs[1..];
      calc {
        Parse(FrameAll(recs) + rest);
        { assert FrameAll(recs) + rest == Frame(p) + (FrameAll(more) + rest); }
        Parse(Frame(p) + (FrameAll(more) + rest));
        { ParseOne(p, FrameAll(more) + rest); }
        [p] + Parse(FrameAll(more) + rest);
        { ParseFrames(more, rest); }
        [p] + (more + Parse(rest));
        { assert recs == [p] + more; }
        recs + Parse(rest);
      }
    }
  }

  function Empties(n: nat): (r: seq<seq<byte>>)
    ensures |r| == n && forall i | 0 <= i < n :: r[i] == []
  {
    seq(n, _ => [])
  }

  /** Zero padding scans as a run of zero-length records, up to the last whole 4 bytes. */
  lemma {:induction false} ParseZeros(n: nat)
    ensures Parse(Zeros(n)) == Empties(n / 4)
    ensures FrameAll(Empties(n / 4)) == Zeros(n / 4 * 4)
  {
    if n < 4 {
      assert Empties(n / 4) == [];
    } else {
      var d := Zeros(n);
      assert d[..4] == ToLe32(0);
      Le32RoundTrip(0);
      assert d[4..4] == [];
      assert d[4..] == Zeros(n - 4);
      ParseZeros(n - 4);
      assert Empties(n / 4) == [[]] + Empties((n - 4) / 4);
      assert Empties(n / 4)[1..] == Empties((n - 4) / 4);
      assert Frame([]) == Zeros(4);
    }
  }

  lemma WrittenAppend(data: seq<byte>, recs: seq<seq<byte>>, more: seq<seq<byte>>)
    requires HEADER_SIZE <= |data|
    ensures Written(data, recs + more) == Written(data, recs) + FrameAll(more)
  {
    FrameAllAppend(recs, more);
    Assoc(data[..HEADER_SIZE], FrameAll(recs), FrameAll(more));
  }

  /** Two maps with the same header and the same written part, up to zeros. */
  lemma ImageFrom(data: seq<byte>, base: seq<byte>, recs: seq<seq<byte>>)
    requires HEADER_SIZE <= |base| && base[..4] == MAGIC && Short(recs) && End(recs) <= |data|
    requires data == Written(base, recs) + Zeros(|data| - End(recs))
    ensures Image(data, recs)
  {
    assert data[..HEADER_SIZE] == base[..HEADER_SIZE];
    assert data[..4] == data[..HEADER_SIZE][..4] == base[..HEADER_SIZE][..4] == base[..4];
  }

  lemma Assoc(a: seq<byte>, b: seq<byte>, c: seq<byte>)
    ensures a + b + c == a + (b + c)
    ensures (a + b)[|a|..] == b
  {
  }

  lemma SplitZeros(pre: seq<byte>, n: nat, k: nat)
    requires k <= n
    ensures pre + Zeros(n) == pre + Zeros(k) + Zeros(n - k)
  {
  }

  /** The records a scan sees in an image: the real ones, then the padding as empty ones. */
  lemma ParseImage(data: seq<byte>, recs: seq<seq<byte>>)
    requires Image(data, recs)
    ensures Parse(data[HEADER_SIZE..]) == recs + Empties((|data| - End(recs)) / 4)
  {
    var z := Zeros(|data| - End(recs));
    assert data[HEADER_SIZE..] == FrameAll(recs) + z by {
      Assoc(data[..HEADER_SIZE], FrameAll(recs), z);
      Assoc(data[..HEADER_SIZE], FrameAll(recs) + z, []);
    }
    ParseFrames(recs, z);
    ParseZeros(|z|);
  }

  /** Taking the padding for records leaves an image, with less than 4 bytes to spare. */
  lemma PaddedImage(data: seq<byte>, recs: seq<seq<byte>>)
    requires Image(data, recs)
    ensures var n := |data| - End(recs);
      && End(recs + Empties(n / 4)) == End(recs) + n / 4 * 4
      && Image(data, recs + Empties(n / 4))
  {
    var n := |data| - End(recs);
    WrittenAppend(data, recs, Empties(n / 4));
    ParseZeros(n);
    SplitZeros(Written(data, recs), n, n / 4 * 4);
  }

  /** Replace the bytes from `at` on by `bs`. */
  function WriteAt(data: seq<byte>, at: nat, bs: seq<byte>): (r: seq<byte>)
    requires at + |bs| <= |data|
    ensures |r| == |data|
  {
    data[..at] + bs + data[at + |bs|..]
  }

  /** Growing the file keeps its bytes and reads as zeros beyond them. */
  function Extend(data: seq<byte>, cap: nat): (r: seq<byte>)
    requires |data| <= cap
    ensures |r| == cap
  {
    data + Zeros(cap - |data|)
  }

  lemma ExtendImage(data: seq<byte>, recs: seq<seq<byte>>, cap: nat)
    requires Image(data, recs) && |data| <= cap
    ensures Image(Extend(data, cap), recs)
  {
    SplitZeros(Written(data, recs), cap - End(recs), |data| - End(recs));
    ImageFrom(Extend(data, cap), data, recs);
  }

  lemma OverwriteZeros(pre: seq<byte>, n: nat, f: seq<byte>)
    requires |f| <= n
    ensures WriteAt(pre + Zeros(n), |pre|, f) == pre + f + Zeros(n - |f|)
  {
    var d := pre + Zeros(n);
    assert d[..|pre|] == pre;
    assert d[|pre| + |f|..] == Zeros(n - |f|);
  }

  /** Writing a whole frame over the padding adds exactly that record. */
  lemma WriteFrame(data: seq<byte>, recs: seq<seq<byte>>, p: seq<byte>)
    requires Image(data, recs) && |p| < U32
    requires End(recs) + 4 + |p| <= |data|
    ensures Image(WriteAt(data, End(recs), Frame(p)), recs + [p])
  {
    OverwriteZeros(Written(data, recs), |data| - End(recs), Frame(p));
    WrittenAppend(data, recs, [p]);
    FrameAllOne(p);
    ImageFrom(WriteAt(data, End(recs), Frame(p)), data, recs + [p]);
  }

  /** The payload that a torn write leaves behind, as the scan will see it. */
  function TornPayload(p: seq<byte>, k: nat): (r: seq<byte>)
    requires k <= 4 + |p|
    ensures |r| <= |p|
  {
    if k <= 4 then Zeros(TornLength(|p|, k)) else p[..k - 4] + Zeros(|p| - (k - 4))
  }

  /** The first `k` bytes of a frame over zeros are the frame of the torn payload. */
  lemma TornFrame(p: seq<byte>, k: nat, n: nat)
    requires |p| < U32 && k <= 4 + |p| <= n
    ensures Frame(p)[..k] + Zeros(n - k)
         == Frame(TornPayload(p, k)) + Zeros(n - 4 - |TornPayload(p, k)|)
  {
    var torn := TornPayload(p, k);
    if k <= 4 {
      TornPrefix(|p|, k);
      assert Frame(p)[..k] == ToLe32(|p|)[..k];
      SplitZeros(ToLe32(|p|)[..k], n - k, 4 - k);
      SplitZeros(ToLe32(|torn|), n - 4, |torn|);
    } else {
      var head := ToLe32(|p|) + p[..k - 4];
      assert Frame(p)[..k] == head;
      SplitZeros(head, n - k, |p| - (k - 4));
      Assoc(ToLe32(|p|), p[..k - 4], Zeros(|p| - (k - 4)));
    }
  }

  /** If only the first `k` bytes of a frame reach the map, the map is still an image: the
    * torn record shows up as a shorter run of zeros or as the payload cut off by zeros. */
  lemma WriteTornFrame(data: seq<byte>, recs: seq<seq<byte>>, p: seq<byte>, k: nat)
    requires Image(data, recs) && |p| < U32
    requires End(recs) + 4 + |p| <= |data|
    requires k <= 4 + |p|
    ensures Image(WriteAt(data, End(recs), Frame(p)[..k]), recs + [TornPayload(p, k)])
  {
    var pre, n, torn := Written(data, recs), |data| - End(recs), TornPayload(p, k);
    OverwriteZeros(pre, n, Frame(p)[..k]);
    TornFrame(p, k, n);
    Assoc(pre, Frame(p)[..k], Zeros(n - k));
    Assoc(pre, Frame(torn), Zeros(n - 4 - |torn|));
    WrittenAppend(data, recs, [torn]);
    FrameAllOne(torn);
    ImageFrom(WriteAt(data, End(recs), Frame(p)[..k]), data, recs + [torn]);
  }
}
