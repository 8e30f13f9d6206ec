/** The memory-mapped write-ahead log: what a handle does to the bytes, the handle itself
  * as a class over an array, and exact recovery over every run of appends, torn appends
  * and reopenings. */
module Wal {
  import opened Wrappers
  import opened WalFormat

  /** A loop checkpoint: its turn, how many messages it carries, and everything else. */
  datatype Checkpoint = Checkpoint(turn: nat, messages: nat, rest: string)

  /** The JSON serialiser and parser, as parameters. */
  datatype Codec = Codec(encode: Checkpoint -> seq<byte>, decode: seq<byte> -> Option<Checkpoint>)

  /** What recovery relies on: parsing undoes serialising, and neither zero padding nor a
    * serialised checkpoint cut short and followed by zeros parses. */
  ghost predicate Lawful(codec: Codec) {
    && (forall cp :: codec.decode(codec.encode(cp)) == Some(cp))
    && (forall n: nat :: codec.decode(Zeros(n)) == None)
    && (forall cp, k: nat, n: nat | k < |codec.encode(cp)| ::
          codec.decode(codec.encode(cp)[..k] + Zeros(n)) == None)
  }

  /** The payload length is stored in 32 bits. */
  predicate Fits(codec: Codec, cp: Checkpoint) {
    |codec.encode(cp)| < U32
  }

  function FromSlice(codec: Codec, bytes: seq<byte>): Option<Checkpoint> {
    codec.decode(bytes)
  }

  /** The records that parse, oldest first. */
  function Decoded(codec: Codec, recs: seq<seq<byte>>): (cps: seq<Checkpoint>)
  {
    if recs == [] then []
    else
      (match FromSlice(codec, recs[0]) case Some(cp) => [cp] case None => []) + Decoded(codec, recs[1..])
  }

  function Last(cps: seq<Checkpoint>): (r: Option<Checkpoint>)
  {
    if cps == [] then None else Some(cps[|cps| - 1])
  }

  lemma {:induction false} DecodedAppend(codec: Codec, xs: seq<seq<byte>>, ys: seq<seq<byte>>)
    ensures Decoded(codec, xs + ys) == Decoded(codec, xs) + Decoded(codec, ys)
  {
    if xs == [] {
      assert xs + ys == ys;
    } else {
      assert (xs + ys)[1..] == xs[1..] + ys;
      DecodedAppend(codec, xs[1..], ys);
    }
  }

  lemma DecodedOne(codec: Codec, p: seq<byte>)
    ensures Decoded(codec, [p]) == match FromSlice(codec, p) case Some(cp) => [cp] case None => []
  {
    assert [p][1..] == [];
  }

  lemma {:induction false} DecodedEmpties(codec: Codec, n: nat)
    requires Lawful(codec)
    ensures Decoded(codec, Empties(n)) == []
  {
    if n > 0 {
      assert Zeros(0) == [];
      assert Empties(n)[1..] == Empties(n - 1);
      DecodedEmpties(codec, n - 1);
    }
  }

  /** An open log: its bytes, the write position, the mapped capacity, the record count. */
  datatype Handle = Handle(data: seq<byte>, cursor: nat, capacity: nat, records: nat)

  /** `recs` fill the log up to the cursor and only zeros follow it. */
  ghost predicate Holds(h: Handle, recs: seq<seq<byte>>) {
    && Image(h.data, recs)
    && h.cursor == End(recs)
    && h.capacity == |h.data|
    && h.records == |recs|
  }

  datatype IoError = InvalidData

  function FreshBytes(): (d: seq<byte>)
    ensures |d| == INITIAL_SIZE
  {
    Header() + Zeros(INITIAL_SIZE - HEADER_SIZE)
  }

  /** Opening a file with these bytes: initialise an empty one, otherwise check the magic
    * and scan past every complete record. */
  function OpenBytes(file: seq<byte>): (r: Result<Handle, IoError>)
  {
    if |file| == 0 then Ok(Handle(FreshBytes(), HEADER_SIZE, INITIAL_SIZE, 0))
    else
      var cap := if |file| < INITIAL_SIZE then INITIAL_SIZE else |file|;
      var data := Extend(file, cap);
      if data[..4] != MAGIC then Err(InvalidData)
      else
        var recs := Parse(data[HEADER_SIZE..]);
        Ok(Handle(data, End(recs), cap, |recs|))
  }

  function NextPowerOfTwo(n: nat, p: nat := 1): (r: nat)
    requires 0 < p
    ensures n <= r
    decreases n - p
  {
    if n <= p then p else NextPowerOfTwo(n, 2 * p)
  }

  /** The map after making room for `n` bytes at the cursor. */
  function Grown(h: Handle, n: nat): (d: seq<byte>)
    requires h.capacity == |h.data|
    ensures |d| >= h.cursor + n && |d| >= |h.data|
  {
    var needed := h.cursor + n;
    if needed > h.capacity then
      var byPower, doubled := NextPowerOfTwo(needed), h.capacity * 2;
      Extend(h.data, if byPower < doubled then doubled else byPower)
    else h.data
  }

  lemma {:induction false} PowerIsNear(n: nat, p: nat)
    requires 0 < p
    ensures NextPowerOfTwo(n, p) == p || NextPowerOfTwo(n, p) < 2 * n
    decreases n - p
  {
    if n > p {
      PowerIsNear(n, 2 * p);
    }
  }

  /** A map that has to grow at least doubles, and gets no larger than twice what is needed or it was. */
  lemma GrowthDoubles(h: Handle, n: nat)
    requires h.capacity == |h.data| && h.cursor + n > |h.data|
    ensures var size := |Grown(h, n)|;
      2 * |h.data| <= size && (size == 2 * |h.data| || size < 2 * (h.cursor + n))
  {
    PowerIsNear(h.cursor + n, 1);
  }

  /** Appending a payload: grow if needed, write its frame at the cursor, move on. */
  function AppendTo(h: Handle, p: seq<byte>): (r: Handle)
    requires h.capacity == |h.data|
    ensures r.capacity == |r.data| && r.cursor <= |r.data|
  {
    var d := WriteAt(Grown(h, 4 + |p|), h.cursor, Frame(p));
    Handle(d, h.cursor + 4 + |p|, |d|, h.records + 1)
  }

  function All(codec: Codec, data: seq<byte>): (cps: seq<Checkpoint>)
    requires HEADER_SIZE <= |data|
  {
    Decoded(codec, Parse(data[HEADER_SIZE..]))
  }

  function Latest(codec: Codec, data: seq<byte>): (cp: Option<Checkpoint>)
    requires HEADER_SIZE <= |data|
  {
    Last(All(codec, data))
  }

  // ── Exact recovery ────────────────────────────────────────────────

  /** Reading a log gives the records up to the cursor; the padding adds nothing. */
  lemma AllIsDecoded(codec: Codec, data: seq<byte>, recs: seq<seq<byte>>)
    requires Lawful(codec) && Image(data, recs)
    ensures All(codec, data) == Decoded(codec, recs)
  {
    ParseImage(data, recs);
    var n := (|data| - End(recs)) / 4;
    DecodedAppend(codec, recs, Empties(n));
    DecodedEmpties(codec, n);
  }

  lemma FreshImage()
    ensures Image(FreshBytes(), [])
  {
    assert FreshBytes()[..HEADER_SIZE] == Header();
    assert FreshBytes()[..4] == Header()[..4];
  }

  /** Opening an empty file gives an empty log. */
  lemma OpenFresh()
    ensures OpenBytes([]).Ok? && Holds(OpenBytes([]).value, [])
  {
    FreshImage();
  }

  /** Reopening walks the padding as empty records, so the cursor jumps to the last few
    * bytes, and yet the handle still holds exactly what the scan saw. */
  lemma OpenImage(data: seq<byte>, recs: seq<seq<byte>>)
    requires Image(data, recs)
    ensures OpenBytes(data).Ok?
    ensures var pad := (|OpenBytes(data).value.data| - End(recs)) / 4;
            Holds(OpenBytes(data).value, recs + Empties(pad))
  {
    var cap := if |data| < INITIAL_SIZE then INITIAL_SIZE else |data|;
    ExtendImage(data, recs, cap);
    OpenedImage(data, Extend(data, cap), recs, cap);
    PaddedHolds(Extend(data, cap), recs);
  }

  lemma OpenedImage(data: seq<byte>, full: seq<byte>, recs: seq<seq<byte>>, cap: nat)
    requires data != [] && cap == (if |data| < INITIAL_SIZE then INITIAL_SIZE else |data|)
    requires full == Extend(data, cap) && Image(full, recs)
    ensures var all := recs + Empties((|full| - End(recs)) / 4);
            OpenBytes(data) == Ok(Handle(full, End(all), cap, |all|))
  {
    ParseImage(full, recs);
  }

  lemma PaddedHolds(full: seq<byte>, recs: seq<seq<byte>>)
    requires Image(full, recs)
    ensures var all := recs + Empties((|full| - End(recs)) / 4); Holds(Handle(full, End(all), |full|, |all|), all)
  {
    PaddedImage(full, recs);
  }

  lemma GrownImage(h: Handle, recs: seq<seq<byte>>, n: nat)
    requires Holds(h, recs)
    ensures Image(Grown(h, n), recs)
  {
    var d := Grown(h, n);
    if d != h.data {
      ExtendImage(h.data, recs, |d|);
    }
  }

  lemma AppendHolds(h: Handle, recs: seq<seq<byte>>, p: seq<byte>)
    requires Holds(h, recs) && |p| < U32
    ensures Holds(AppendTo(h, p), recs + [p])
  {
    GrownImage(h, recs, 4 + |p|);
    WriteFrame(Grown(h, 4 + |p|), recs, p);
    FrameAllAppend(recs, [p]);
    FrameAllOne(p);
  }

  /** One thing that can happen to a log: an append that completes, an append of which only
    * the first `reached` bytes got into the map before a restart, or a restart. */
  datatype Op = Append(cp: Checkpoint) | TornAppend(cp: Checkpoint, reached: nat) | Reopen

  /** The file that an append leaves if it stops after `k` bytes of its frame. */
  function TornFile(h: Handle, p: seq<byte>, k: nat): (d: seq<byte>)
    requires h.capacity == |h.data|
  {
    WriteAt(Grown(h, 4 + |p|), h.cursor, if k < 4 + |p| then Frame(p)[..k] else Frame(p))
  }

  function Step(codec: Codec, h: Handle, op: Op): (r: Result<Handle, IoError>)
    requires h.capacity == |h.data|
    ensures r.Ok? ==> r.value.capacity == |r.value.data|
  {
    match op
    case Append(cp) => Ok(AppendTo(h, codec.encode(cp)))
    case TornAppend(cp, k) => OpenBytes(TornFile(h, codec.encode(cp), k))
    case Reopen => OpenBytes(h.data)
  }

  /** The log after a run that starts from a missing file. */
  function Run(codec: Codec, ops: seq<Op>): (r: Result<Handle, IoError>)
    ensures r.Ok? ==> r.value.capacity == |r.value.data|
  {
    if ops == [] then OpenBytes([])
    else
      match Run(codec, ops[..|ops| - 1])
      case Ok(h) => Step(codec, h, ops[|ops| - 1])
      case Err(e) => Err(e)
  }

  /** The checkpoints whose frame got into the log whole. */
  function Landed(codec: Codec, ops: seq<Op>): (cps: seq<Checkpoint>)
  {
    if ops == [] then []
    else
      Landed(codec, ops[..|ops| - 1]) + Added(codec, ops[|ops| - 1])
  }

  lemma TornDecodesToNothing(codec: Codec, cp: Checkpoint, k: nat)
    requires Lawful(codec) && k < 4 + |codec.encode(cp)|
    ensures codec.decode(TornPayload(codec.encode(cp), k)) == None
  {
  }

  /** What one operation adds to the decoded contents. */
  function Added(codec: Codec, op: Op): (cps: seq<Checkpoint>)
  {
    match op
    case Append(cp) => [cp]
    case TornAppend(cp, k) => if k < 4 + |codec.encode(cp)| then [] else [cp]
    case Reopen => []
  }

  lemma OpenDecoded(codec: Codec, data: seq<byte>, recs: seq<seq<byte>>)
    returns (h: Handle, recs': seq<seq<byte>>)
    requires Lawful(codec) && Image(data, recs)
    ensures OpenBytes(data) == Ok(h) && Holds(h, recs')
    ensures Decoded(codec, recs') == Decoded(codec, recs)
  {
    OpenImage(data, recs);
    h := OpenBytes(data).value;
    var pad := (|h.data| - End(recs)) / 4;
    recs' := recs + Empties(pad);
    DecodedAppend(codec, recs, Empties(pad));
    DecodedEmpties(codec, pad);
  }

  lemma TornBytes(h: Handle, recs: seq<seq<byte>>, p: seq<byte>, k: nat)
    requires Holds(h, recs) && |p| < U32
    ensures Image(TornFile(h, p, k), recs + [TornPayload(p, if k < 4 + |p| then k else 4 + |p|)])
  {
    GrownImage(h, recs, 4 + |p|);
    WriteTornFrame(Grown(h, 4 + |p|), recs, p, if k < 4 + |p| then k else 4 + |p|);
    assert Frame(p)[..4 + |p|] == Frame(p);
  }

  lemma TornFileImage(codec: Codec, h: Handle, recs: seq<seq<byte>>, cp: Checkpoint, k: nat)
    returns (recs': seq<seq<byte>>)
    requires Lawful(codec) && Holds(h, recs) && Fits(codec, cp)
    ensures Image(TornFile(h, codec.encode(cp), k), recs')
    ensures Decoded(codec, recs') == Decoded(codec, recs) + Added(codec, TornAppend(cp, k))
  {
    var p := codec.encode(cp);
    var torn := TornPayload(p, if k < 4 + |p| then k else 4 + |p|);
    recs' := recs + [torn];
    TornBytes(h, recs, p, k);
    DecodedAppend(codec, recs, [torn]);
    DecodedOne(codec, torn);
    if k < 4 + |p| {
      TornDecodesToNothing(codec, cp, k);
    } else {
      TornWhole(p);
    }
  }

  lemma StepHolds(codec: Codec, h: Handle, recs: seq<seq<byte>>, op: Op)
    returns (h': Handle, recs': seq<seq<byte>>)
    requires Lawful(codec) && Holds(h, recs)
    requires !op.Reopen? ==> Fits(codec, op.cp)
    ensures Step(codec, h, op) == Ok(h') && Holds(h', recs')
    ensures Decoded(codec, recs') == Decoded(codec, recs) + Added(codec, op)
  {
    match op
    case Append(cp) =>
      var p := codec.encode(cp);
      AppendHolds(h, recs, p);
      h', recs' := AppendTo(h, p), recs + [p];
      DecodedAppend(codec, recs, [p]);
      DecodedOne(codec, p);
    case TornAppend(cp, k) =>
      var torn := TornFileImage(codec, h, recs, cp, k);
      h', recs' := OpenDecoded(codec, TornFile(h, codec.encode(cp), k), torn);
    case Reopen =>
      h', recs' := OpenDecoded(codec, h.data, recs);
  }

  lemma TornWhole(p: seq<byte>)
    requires |p| < U32
    ensures TornPayload(p, 4 + |p|) == p
  {
    if |p| == 0 {
      TornLengthFull(0);
    }
  }

  lemma {:induction false} RunHolds(codec: Codec, ops: seq<Op>) returns (recs: seq<seq<byte>>)
    requires Lawful(codec)
    requires forall i | 0 <= i < |ops| :: !ops[i].Reopen? ==> Fits(codec, ops[i].cp)
    ensures Run(codec, ops).Ok? && Holds(Run(codec, ops).value, recs)
    ensures Decoded(codec, recs) == Landed(codec, ops)
  {
    if ops == [] {
      OpenFresh();
      recs := [];
    } else {
      var before := RunHolds(codec, ops[..|ops| - 1]);
      var _, after := StepHolds(codec, Run(codec, ops[..|ops| - 1]).value, before, ops[|ops| - 1]);
      recs := after;
    }
  }

  /** After any run of appends, torn appends and restarts, the log opens, reading it gives
    * exactly the checkpoints whose frames got in whole, in order, and the latest is the
    * last of them. */
  lemma RecoveryIsExact(codec: Codec, ops: seq<Op>)
    requires Lawful(codec)
    requires forall i | 0 <= i < |ops| :: !ops[i].Reopen? ==> Fits(codec, ops[i].cp)
    ensures Run(codec, ops).Ok?
    ensures HEADER_SIZE <= |Run(codec, ops).value.data|
    ensures All(codec, Run(codec, ops).value.data) == Landed(codec, ops)
    ensures Latest(codec, Run(codec, ops).value.data) == Last(Landed(codec, ops))
  {
    var recs := RunHolds(codec, ops);
    AllIsDecoded(codec, Run(codec, ops).value.data, recs);
  }
}
