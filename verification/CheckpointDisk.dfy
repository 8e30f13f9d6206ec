/** One session's checkpoint files on disk, the primitive changes a save makes to them, and
  * the states a crash can leave between or inside two of those changes. */
module CheckpointDisk {
  import opened Wrappers
  import opened WalFormat
  import opened Wal
  import Names
  import Retention

  /** The snapshot files by turn (a file name tells the turn, see `Names`), and the bytes of
    * the log file if it exists. */
  datatype Disk = Disk(files: map<nat, seq<byte>>, wal: Option<seq<byte>>)

  datatype Prim =
    | WriteFile(turn: nat, bytes: seq<byte>)
    | RemoveFile(turn: nat)
    | RemoveWal
    | CreateWal
    | SetLen(len: nat)
    | Store(at: nat, bytes: seq<byte>)

  function Cut(bs: seq<byte>, k: nat): (r: seq<byte>)
    ensures |r| <= |bs|
  {
    if k < |bs| then bs[..k] else bs
  }

  /** The disk after a change of which only `k` bytes got through: a file write has truncated
    * the file first, the changes without bytes have happened unless `k` is 0. */
  function Torn(d: Disk, p: Prim, k: nat): (r: Disk) {
    match p
    case WriteFile(t, bs) => d.(files := d.files[t := Cut(bs, k)])
    case RemoveFile(t) => if k == 0 then d else d.(files := d.files - {t})
    case RemoveWal => if k == 0 then d else d.(wal := None)
    case CreateWal => if k == 0 || d.wal.Some? then d else d.(wal := Some([]))
    case SetLen(n) =>
      if k == 0 || d.wal.None? || n < |d.wal.value| then d
      else d.(wal := Some(Extend(d.wal.value, n)))
    case Store(at, bs) =>
      if d.wal.None? || at + |bs| > |d.wal.value| then d
      else d.(wal := Some(WriteAt(d.wal.value, at, Cut(bs, k))))
  }

  /** Enough bytes for the whole change. */
  function Whole(p: Prim): nat {
    match p
    case WriteFile(_, bs) => |bs|
    case Store(_, bs) => |bs|
    case _ => 1
  }

  function Apply(d: Disk, p: Prim): (r: Disk) {
    Torn(d, p, Whole(p))
  }

  function ApplyAll(d: Disk, ps: seq<Prim>): (r: Disk)
    decreases |ps|
  {
    if ps == [] then d else ApplyAll(Apply(d, ps[0]), ps[1..])
  }

  /** The disk if a crash comes `k` bytes into change number `i`. */
  function CrashAt(d: Disk, ps: seq<Prim>, i: nat, k: nat): (r: Disk)
    decreases |ps|
  {
    if ps == [] then d
    else if i == 0 then Torn(d, ps[0], k)
    else CrashAt(Apply(d, ps[0]), ps[1..], i - 1, k)
  }

  lemma {:induction false} ApplyAllConcat(d: Disk, ps: seq<Prim>, qs: seq<Prim>)
    ensures ApplyAll(d, ps + qs) == ApplyAll(ApplyAll(d, ps), qs)
    decreases |ps|
  {
    if ps == [] {
      assert ps + qs == qs;
    } else {
      assert (ps + qs)[1..] == ps[1..] + qs;
      ApplyAllConcat(Apply(d, ps[0]), ps[1..], qs);
    }
  }

  lemma {:induction false} CrashAtConcat(d: Disk, ps: seq<Prim>, qs: seq<Prim>, i: nat, k: nat)
    ensures i < |ps| ==> CrashAt(d, ps + qs, i, k) == CrashAt(d, ps, i, k)
    ensures i >= |ps| ==> CrashAt(d, ps + qs, i, k) == CrashAt(ApplyAll(d, ps), qs, i - |ps|, k)
    decreases |ps|
  {
    if ps == [] {
      assert ps + qs == qs;
    } else {
      assert (ps + qs)[1..] == ps[1..] + qs;
      if i > 0 {
        CrashAtConcat(Apply(d, ps[0]), ps[1..], qs, i - 1, k);
      }
    }
  }

  lemma CrashAtCons(d: Disk, p: Prim, ps: seq<Prim>, i: nat, k: nat)
    ensures CrashAt(d, [p] + ps, i, k) == if i == 0 then Torn(d, p, k) else CrashAt(Apply(d, p), ps, i - 1, k)
    ensures ApplyAll(d, [p] + ps) == ApplyAll(Apply(d, p), ps)
  {
    assert ([p] + ps)[1..] == ps;
  }

  /** Past the last change a crash leaves the finished disk. */
  lemma {:induction false} CrashPastEnd(d: Disk, ps: seq<Prim>, i: nat, k: nat)
    requires i >= |ps|
    ensures CrashAt(d, ps, i, k) == ApplyAll(d, ps)
    decreases |ps|
  {
    if ps != [] {
      CrashPastEnd(Apply(d, ps[0]), ps[1..], i - 1, k);
    }
  }

  // ── The changes behind each log operation ─────────────────────────

  const INIT_PRIMS: seq<Prim> := [SetLen(INITIAL_SIZE), Store(0, MAGIC), Store(4, VERSION)]

  /** Opening: create a missing file, initialise an empty one, round a short one up. */
  function OpenPrims(wal: Option<seq<byte>>): (ps: seq<Prim>) {
    match wal
    case None => [CreateWal] + INIT_PRIMS
    case Some(b) =>
      if b == [] then INIT_PRIMS
      else if |b| < INITIAL_SIZE then [SetLen(INITIAL_SIZE)]
      else []
  }

  function OpenWal(wal: Option<seq<byte>>): Result<Handle, IoError> {
    OpenBytes(match wal case Some(b) => b case None => [])
  }

  /** Appending: grow if needed, store the length, store the payload. */
  function AppendPrims(h: Handle, p: seq<byte>): (ps: seq<Prim>)
    requires h.capacity == |h.data|
  {
    var d := Grown(h, 4 + |p|);
    (if |d| > |h.data| then [SetLen(|d|)] else []) + [Store(h.cursor, ToLe32(|p|)), Store(h.cursor + 4, p)]
  }

  /** The session's files and the cached open log, if this process has one. */
  datatype Session = Session(disk: Disk, handle: Option<Handle>)

  /** A cached handle maps at least a header, and its capacity is the length of the map. */
  predicate Usable(s: Session) {
    s.handle.Some? ==> HEADER_SIZE <= |s.handle.value.data| && s.handle.value.capacity == |s.handle.value.data|
  }

  /** A usable cached handle; one whose file is gone does not count. */
  function Cached(s: Session): Option<Handle> {
    if s.disk.wal.None? then None else s.handle
  }

  const MAX_WAL_RECORDS: nat := 1

  /** Compaction: with the budget used up and something to keep, start a fresh file that
    * holds only the newest checkpoint. */
  function Compaction(codec: Codec, h: Handle): (r: (seq<Prim>, Handle))
    requires HEADER_SIZE <= |h.data| && h.capacity == |h.data|
    ensures HEADER_SIZE <= |r.1.data| && r.1.capacity == |r.1.data|
  {
    if h.records < MAX_WAL_RECORDS then ([], h)
    else
      match Latest(codec, h.data)
      case None => ([], h)
      case Some(latest) =>
        var blank := Handle(FreshBytes(), HEADER_SIZE, INITIAL_SIZE, 0);
        ([RemoveWal] + (OpenPrims(None) + AppendPrims(blank, codec.encode(latest))),
         AppendTo(blank, codec.encode(latest)))
  }

  /** The changes one checkpoint makes to the log, and the handle cached afterwards. */
  function WalUpdate(codec: Codec, s: Session, json: seq<byte>): (r: (seq<Prim>, Option<Handle>))
    requires Usable(s)
  {
    var cached := Cached(s);
    if cached.None? && OpenWal(s.disk.wal).Err? then (OpenPrims(s.disk.wal), None)
    else
      var h := if cached.Some? then cached.value else OpenWal(s.disk.wal).value;
      var (compacting, h1) := Compaction(codec, h);
      ((if cached.Some? then [] else OpenPrims(s.disk.wal)) + compacting + AppendPrims(h1, json),
       Some(AppendTo(h1, json)))
  }

  // ── Clean-up ──────────────────────────────────────────────────────

  /** The snapshot files in name order, with their sizes. */
  ghost predicate IsListing(files: map<nat, seq<byte>>, listing: seq<Retention.Snapshot>) {
    && (forall i | 0 <= i < |listing| :: listing[i].turn in files && listing[i].size == |files[listing[i].turn]|)
    && (forall t | t in files :: exists i :: 0 <= i < |listing| && listing[i].turn == t)
    && (forall i, j | 0 <= i < j < |listing| ::
          Names.TextLess(Names.SnapshotName(listing[i].turn), Names.SnapshotName(listing[j].turn)))
  }

  const KEEP: nat := 5

  function RemovePrims(removed: seq<Retention.Snapshot>): (ps: seq<Prim>)
    ensures |ps| == |removed|
    ensures forall i | 0 <= i < |ps| :: ps[i] == RemoveFile(removed[i].turn)
  {
    seq(|removed|, i requires 0 <= i < |removed| => RemoveFile(removed[i].turn))
  }

  function CleanupPrims(listing: seq<Retention.Snapshot>): (ps: seq<Prim>) {
    RemovePrims(Retention.Removals(listing, KEEP))
  }

  /** A whole save: the snapshot file, the log, and (unless history is to be kept) clean-up
    * of the directory, whose listing after the write is `listing`. */
  function SavePrims(codec: Codec, s: Session, cp: Checkpoint, cleanup: bool, listing: seq<Retention.Snapshot>)
    : (ps: seq<Prim>)
    requires Usable(s)
  {
    [WriteFile(cp.turn, codec.encode(cp))]
    + (WalUpdate(codec, s, codec.encode(cp)).0 + (if cleanup then CleanupPrims(listing) else []))
  }
}
