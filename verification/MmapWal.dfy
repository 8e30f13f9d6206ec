/** The log handle as the program keeps it: a mapped byte buffer changed in place, with the
  * cursor, capacity and record count beside it.  Every method is proved against the byte
  * functions of `Wal`. */
module MmapWal {
  import opened Wrappers
  import opened WalFormat
  import opened Wal

  /** The 32-bit length at `pos`. */
  function ReadLe32(data: array<byte>, pos: nat): (n: nat)
    requires pos + 4 <= data.Length
    reads data
    ensures n == FromLe32(data[..][pos..pos + 4])
  {
    assert data[..][pos..pos + 4] == data[pos..pos + 4];
    FromLe32(data[pos..pos + 4])
  }

  function Slice(data: array<byte>, lo: nat, hi: nat): (s: seq<byte>)
    requires lo <= hi <= data.Length
    reads data
    ensures s == data[..][lo..hi]
  {
    data[lo..hi]
  }

  /** The scan from a position of the map: where it stops, and how many records it saw. */
  function ScanFrom(d: seq<byte>, pos: nat): (r: (nat, nat))
    requires pos <= |d|
    decreases |d| - pos
  {
    if pos + 4 > |d| then (pos, 0)
    else
      var len := FromLe32(d[pos..pos + 4]);
      if pos + 4 + len > |d| then (pos, 0)
      else
        var r := ScanFrom(d, pos + 4 + len);
        (r.0, r.1 + 1)
  }

  function Keep(found: seq<Checkpoint>, parsed: Option<Checkpoint>): seq<Checkpoint> {
    match parsed case Some(cp) => found + [cp] case None => found
  }

  lemma LastKeep(found: seq<Checkpoint>, parsed: Option<Checkpoint>)
    ensures Last(Keep(found, parsed)) == if parsed.Some? then parsed else Last(found)
  {
  }

  /** Everything that parses from a position of the map on, after what was found before. */
  function ReadFrom(codec: Codec, d: seq<byte>, pos: nat, found: seq<Checkpoint>): (cps: seq<Checkpoint>)
    requires pos <= |d|
    decreases |d| - pos
  {
    if pos + 4 > |d| then found
    else
      var next := pos + 4 + FromLe32(d[pos..pos + 4]);
      if next > |d| then found
      else ReadFrom(codec, d, next, Keep(found, FromSlice(codec, d[pos + 4..next])))
  }

  /** The newest that parses from a position of the map on, `latest` if none does. */
  function LatestFrom(codec: Codec, d: seq<byte>, pos: nat, latest: Option<Checkpoint>): (cp: Option<Checkpoint>)
    requires pos <= |d|
    decreases |d| - pos
  {
    if pos + 4 > |d| then latest
    else
      var next := pos + 4 + FromLe32(d[pos..pos + 4]);
      if next > |d| then latest
      else
        var parsed := FromSlice(codec, d[pos + 4..next]);
        LatestFrom(codec, d, next, if parsed.Some? then parsed else latest)
  }

  lemma {:induction false} LatestFromIsLast(codec: Codec, d: seq<byte>, pos: nat, found: seq<Checkpoint>)
    requires pos <= |d|
    ensures LatestFrom(codec, d, pos, Last(found)) == Last(ReadFrom(codec, d, pos, found))
    decreases |d| - pos
  {
    if pos + 4 <= |d| {
      var next := pos + 4 + FromLe32(d[pos..pos + 4]);
      if next <= |d| {
        var parsed := FromSlice(codec, d[pos + 4..next]);
        LastKeep(found, parsed);
        LatestFromIsLast(codec, d, next, Keep(found, parsed));
      }
    }
  }

  /** The complete records from a position of the map on. */
  function RecordsFrom(d: seq<byte>, pos: nat): (recs: seq<seq<byte>>)
    requires pos <= |d|
    decreases |d| - pos
  {
    if pos + 4 > |d| then []
    else
      var next := pos + 4 + FromLe32(d[pos..pos + 4]);
      if next > |d| then [] else [d[pos + 4..next]] + RecordsFrom(d, next)
  }

  /** Walking by position and parsing the remaining bytes agree. */
  lemma {:induction false} RecordsFromIsParse(d: seq<byte>, pos: nat)
    requires pos <= |d|
    ensures RecordsFrom(d, pos) == Parse(d[pos..])
    decreases |d| - pos
  {
    if pos + 4 > |d| {
      ParseShort(d[pos..]);
    } else {
      var len := FromLe32(d[pos..pos + 4]);
      ParseStep(d, pos, len);
      if pos + 4 + len <= |d| {
        RecordsFromIsParse(d, pos + 4 + len);
      }
    }
  }

  lemma ParseShort(bytes: seq<byte>)
    requires |bytes| < 4
    ensures Parse(bytes) == []
  {
  }

  lemma ParseStep(d: seq<byte>, pos: nat, len: nat)
    requires pos + 4 <= |d| && len == FromLe32(d[pos..pos + 4])
    ensures Parse(d[pos..]) ==
      if pos + 4 + len > |d| then []
      else [d[pos + 4..pos + 4 + len]] + Parse(d[pos + 4 + len..])
  {
    assert d[pos..][..4] == d[pos..pos + 4];
    if pos + 4 + len <= |d| {
      assert d[pos..][4..4 + len] == d[pos + 4..pos + 4 + len];
      assert d[pos..][4 + len..] == d[pos + 4 + len..];
    }
  }

  lemma FrameAllCons(p: seq<byte>, recs: seq<seq<byte>>)
    ensures |FrameAll([p] + recs)| == 4 + |p| + |FrameAll(recs)|
  {
    FrameAllAppend([p], recs);
    FrameAllOne(p);
  }

  lemma DecodedCons(codec: Codec, p: seq<byte>, recs: seq<seq<byte>>)
    ensures Decoded(codec, [p] + recs) ==
      (match FromSlice(codec, p) case Some(cp) => [cp] case None => []) + Decoded(codec, recs)
  {
    DecodedAppend(codec, [p], recs);
    DecodedOne(codec, p);
  }

  lemma {:induction false} ScanFromIsRecords(d: seq<byte>, pos: nat)
    requires pos <= |d|
    ensures ScanFrom(d, pos) == (pos + |FrameAll(RecordsFrom(d, pos))|, |RecordsFrom(d, pos)|)
    decreases |d| - pos
  {
    if pos + 4 <= |d| {
      var next := pos + 4 + FromLe32(d[pos..pos + 4]);
      if next <= |d| {
        ScanFromIsRecords(d, next);
        FrameAllCons(d[pos + 4..next], RecordsFrom(d, next));
      }
    }
  }

  lemma {:induction false} ReadFromIsDecoded(codec: Codec, d: seq<byte>, pos: nat, found: seq<Checkpoint>)
    requires pos <= |d|
    ensures ReadFrom(codec, d, pos, found) == found + Decoded(codec, RecordsFrom(d, pos))
    decreases |d| - pos
  {
    if pos + 4 <= |d| {
      var next := pos + 4 + FromLe32(d[pos..pos + 4]);
      if next <= |d| {
        var p := d[pos + 4..next];
        ReadFromIsDecoded(codec, d, next, Keep(found, FromSlice(codec, p)));
        DecodedCons(codec, p, RecordsFrom(d, next));
      }
    }
  }

  lemma ReadFromIsAll(codec: Codec, d: seq<byte>)
    requires HEADER_SIZE <= |d|
    ensures ReadFrom(codec, d, HEADER_SIZE, []) == All(codec, d)
  {
    ReadFromIsDecoded(codec, d, HEADER_SIZE, []);
    RecordsFromIsParse(d, HEADER_SIZE);
  }

  /** Walk length prefixes from `start`: the first byte after the last complete record, and
    * how many complete records there were. */
  method ScanRecordsCounted(data: array<byte>, start: nat) returns (end: nat, count: nat)
    requires start <= data.Length
    ensures (end, count) == ScanFrom(data[..], start)
    ensures start <= end <= data.Length
  {
    var pos := start;
    count := 0;
    while pos + 4 <= data.Length
      invariant start <= pos <= data.Length
      invariant ScanFrom(data[..], start) == (ScanFrom(data[..], pos).0, count + ScanFrom(data[..], pos).1)
      decreases data.Length - pos
    {
      var len := ReadLe32(data, pos);
      if pos + 4 + len > data.Length {
        break;
      }
      pos := pos + 4 + len;
      count := count + 1;
    }
    end := pos;
  }

  method CopyInto(data: array<byte>, at: nat, bs: seq<byte>)
    requires at + |bs| <= data.Length
    modifies data
    ensures data[..] == WriteAt(old(data[..]), at, bs)
  {
    forall i | 0 <= i < |bs| {
      data[at + i] := bs[i];
    }
  }

  class MmapWal {
    var data: array<byte>
    var cursor: nat
    var capacity: nat
    var records: nat

    function View(): (h: Handle)
      reads this, data
    {
      Handle(data[..], cursor, capacity, records)
    }

    ghost predicate Valid()
      reads this, data
    {
      HEADER_SIZE <= cursor <= capacity == data.Length
    }

    constructor (data: array<byte>, cursor: nat, records: nat)
      ensures this.data == data
      ensures View() == Handle(data[..], cursor, data.Length, records)
    {
      this.data := data;
      this.cursor := cursor;
      this.capacity := data.Length;
      this.records := records;
    }

    /** Open the log over a file with the given bytes. */
    static method Open(file: seq<byte>) returns (r: Result<MmapWal, IoError>)
      ensures r.Ok? == OpenBytes(file).Ok?
      ensures r.Ok? ==> fresh(r.value) && fresh(r.value.data) && r.value.Valid()
                        && r.value.View() == OpenBytes(file).value
    {
      if |file| == 0 {
        var bytes := new byte[INITIAL_SIZE](_ => 0);
        CopyInto(bytes, 0, MAGIC);
        CopyInto(bytes, 4, VERSION);
        assert bytes[..] == FreshBytes();
        var wal := new MmapWal(bytes, HEADER_SIZE, 0);
        r := Ok(wal);
      } else {
        var cap := if |file| < INITIAL_SIZE then INITIAL_SIZE else |file|;
        var bytes := new byte[cap](_ => 0);
        CopyInto(bytes, 0, file);
        assert bytes[..] == Extend(file, cap);
        if bytes[..4] != MAGIC {
          assert bytes[..4] == bytes[..][..4];
          return Err(InvalidData);
        }
        assert bytes[..4] == bytes[..][..4];
        var end, count := ScanRecordsCounted(bytes, HEADER_SIZE);
        ScanFromIsRecords(bytes[..], HEADER_SIZE);
        RecordsFromIsParse(bytes[..], HEADER_SIZE);
        var wal := new MmapWal(bytes, end, count);
        r := Ok(wal);
      }
    }

    /** Resize the file and map it again: the old bytes stay, the new ones are zero. */
    method Grow(newCap: nat)
      requires Valid() && capacity <= newCap
      modifies this
      ensures fresh(data) && Valid()
      ensures View() == Handle(Extend(old(data[..]), newCap), old(cursor), newCap, old(records))
    {
      var bigger := new byte[newCap](_ => 0);
      CopyInto(bigger, 0, data[..]);
      data := bigger;
      capacity := newCap;
      assert data[..] == Extend(old(data[..]), newCap);
    }

    /** Write the length prefix, then the payload, at the cursor. */
    method WriteRecord(json: seq<byte>)
      requires Valid() && cursor + 4 + |json| <= capacity
      modifies this, data
      ensures Valid() && data == old(data) && capacity == old(capacity)
      ensures cursor == old(cursor) + 4 + |json| && records == old(records) + 1
      ensures data[..] == WriteAt(old(data[..]), old(cursor), Frame(json))
    {
      CopyInto(data, cursor, ToLe32(|json|));
      CopyInto(data, cursor + 4, json);
      TwoWrites(old(data[..]), cursor, ToLe32(|json|), json);
      cursor := cursor + (4 + |json|);
      records := records + 1;
    }

    /** Append a serialised checkpoint. */
    method AppendBytes(json: seq<byte>)
      requires Valid()
      modifies this, data
      ensures Valid() && (data == old(data) || fresh(data))
      ensures View() == AppendTo(old(View()), json)
    {
      var needed := cursor + (4 + |json|);
      if needed > capacity {
        var byPower := NextPowerOfTwo(needed);
        Grow(if byPower < capacity * 2 then capacity * 2 else byPower);
      }
      WriteRecord(json);
    }

    /** The newest checkpoint that parses, found by walking every record. */
    method LatestRecord(codec: Codec) returns (latest: Option<Checkpoint>)
      requires Valid()
      ensures latest == Latest(codec, data[..])
    {
      latest := ReadLatest(codec, data, HEADER_SIZE);
      LatestFromIsLast(codec, data[..], HEADER_SIZE, []);
      ReadFromIsAll(codec, data[..]);
    }

    /** Every checkpoint that parses, oldest first. */
    method AllRecords(codec: Codec) returns (result: seq<Checkpoint>)
      requires Valid()
      ensures result == All(codec, data[..])
    {
      result := ReadAll(codec, data, HEADER_SIZE);
      ReadFromIsAll(codec, data[..]);
    }
  }

  method ReadLatest(codec: Codec, data: array<byte>, start: nat) returns (latest: Option<Checkpoint>)
    requires start <= data.Length
    ensures latest == LatestFrom(codec, data[..], start, None)
  {
    ghost var d := data[..];
    var pos := start;
    latest := None;
    while pos + 4 <= data.Length
      invariant start <= pos <= data.Length
      invariant LatestFrom(codec, d, start, None) == LatestFrom(codec, d, pos, latest)
      decreases data.Length - pos
    {
      var len := ReadLe32(data, pos);
      pos := pos + 4;
      if pos + len > data.Length {
        break;
      }
      var parsed := FromSlice(codec, Slice(data, pos, pos + len));
      if parsed.Some? {
        latest := parsed;
      }
      pos := pos + len;
    }
  }

  method ReadAll(codec: Codec, data: array<byte>, start: nat) returns (result: seq<Checkpoint>)
    requires start <= data.Length
    ensures result == ReadFrom(codec, data[..], start, [])
  {
    ghost var d := data[..];
    var pos := start;
    result := [];
    while pos + 4 <= data.Length
      invariant start <= pos <= data.Length
      invariant ReadFrom(codec, d, start, []) == ReadFrom(codec, d, pos, result)
      decreases data.Length - pos
    {
      var len := ReadLe32(data, pos);
      pos := pos + 4;
      if pos + len > data.Length {
        break;
      }
      var parsed := FromSlice(codec, Slice(data, pos, pos + len));
      if parsed.Some? {
        result := result + [parsed.value];
      }
      pos := pos + len;
    }
  }

  lemma TwoWrites(d: seq<byte>, at: nat, a: seq<byte>, b: seq<byte>)
    requires at + |a| + |b| <= |d|
    ensures WriteAt(WriteAt(d, at, a), at + |a|, b) == WriteAt(d, at, a + b)
  {
  }
}
