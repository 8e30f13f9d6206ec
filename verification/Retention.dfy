/** Which snapshots of a session the clean-up after a save removes: a count budget, then a
  * byte budget, both in file-name order. */
module Retention {

  /** A snapshot file as clean-up sees it: which turn it is named after, and its length. */
  datatype Snapshot = Snapshot(turn: nat, size: nat)

  const MAX_BYTES: nat := 20 * 1024 * 1024
  const U64_MAX: nat := 0xFFFF_FFFF_FFFF_FFFF

  function SaturatingAdd(a: nat, b: nat): nat {
    if a + b > U64_MAX then U64_MAX else a + b
  }

  function SaturatingSub(a: nat, b: nat): nat {
    if a < b then 0 else a - b
  }

  function Reverse(s: seq<Snapshot>): (r: seq<Snapshot>)
    ensures |r| == |s| && forall i | 0 <= i < |s| :: r[i] == s[|s| - 1 - i]
  {
    seq(|s|, i requires 0 <= i < |s| => s[|s| - 1 - i])
  }

  /** The byte sweep from index `i` of the newest-first listing, as (kept, removed). */
  function Sweep(newestFirst: seq<Snapshot>, i: nat, total: nat): (r: (seq<Snapshot>, seq<Snapshot>))
    requires i <= |newestFirst|
    decreases |newestFirst| - i
  {
    if i == |newestFirst| then ([], [])
    else
      var entry := newestFirst[i];
      var t := SaturatingAdd(total, entry.size);
      if i > 0 && t > MAX_BYTES then
        var r := Sweep(newestFirst, i + 1, SaturatingSub(t, entry.size));
        (r.0, [entry] + r.1)
      else
        var r := Sweep(newestFirst, i + 1, t);
        ([entry] + r.0, r.1)
  }

  /** The oldest names beyond the count budget. */
  function Surplus(listing: seq<Snapshot>, keep: nat): (r: seq<Snapshot>) {
    listing[..if |listing| > keep then |listing| - keep else 0]
  }

  /** What the count budget leaves, newest name first. */
  function Recent(listing: seq<Snapshot>, keep: nat): (r: seq<Snapshot>)
    ensures |r| <= keep && |r| <= |listing|
  {
    Reverse(listing[if |listing| > keep then |listing| - keep else 0..])
  }

  /** All removals, in the order they happen. */
  function Removals(listing: seq<Snapshot>, keep: nat): (r: seq<Snapshot>) {
    Surplus(listing, keep) + Sweep(Recent(listing, keep), 0, 0).1
  }

  function Kept(listing: seq<Snapshot>, keep: nat): (r: seq<Snapshot>) {
    Sweep(Recent(listing, keep), 0, 0).0
  }

  function Bytes(entries: seq<Snapshot>): (n: nat) {
    if entries == [] then 0 else entries[0].size + Bytes(entries[1..])
  }

  /** Sizes a file system can report: below 2^63. */
  ghost predicate RealSizes(s: seq<Snapshot>) {
    forall i | 0 <= i < |s| :: s[i].size < 0x8000_0000_0000_0000
  }

  lemma {:induction false} SweepSplits(nf: seq<Snapshot>, i: nat, total: nat)
    requires i <= |nf|
    ensures var (kept, removed) := Sweep(nf, i, total);
      multiset(kept) + multiset(removed) == multiset(nf[i..])
    decreases |nf| - i
  {
    if i < |nf| {
      var t := SaturatingAdd(total, nf[i].size);
      var next := if i > 0 && t > MAX_BYTES then SaturatingSub(t, nf[i].size) else t;
      SweepSplits(nf, i + 1, next);
      assert nf[i..] == [nf[i]] + nf[i + 1..];
    }
  }

  /** No addition of the sweep saturates. */
  predicate Unsaturated(nf: seq<Snapshot>, i: nat, total: nat)
    requires i <= |nf|
    decreases |nf| - i
  {
    i < |nf| ==>
      && total + nf[i].size <= U64_MAX
      && Unsaturated(nf, i + 1, if i > 0 && total + nf[i].size > MAX_BYTES then total else total + nf[i].size)
  }

  /** The running total is exactly the bytes kept so far, so the sweep ends within the
    * larger of its starting total and the budget. */
  lemma {:induction false} SweepWithinBudget(nf: seq<Snapshot>, i: nat, total: nat)
    requires 0 < i <= |nf| && Unsaturated(nf, i, total)
    ensures total + Bytes(Sweep(nf, i, total).0) <= (if total < MAX_BYTES then MAX_BYTES else total)
    decreases |nf| - i
  {
    if i < |nf| {
      var t := total + nf[i].size;
      if t > MAX_BYTES {
        SweepWithinBudget(nf, i + 1, total);
      } else {
        SweepWithinBudget(nf, i + 1, t);
        assert Sweep(nf, i, total).0[1..] == Sweep(nf, i + 1, t).0;
      }
    }
  }

  /** File sizes never saturate the total. */
  lemma {:induction false} RealSizesAddUp(nf: seq<Snapshot>, i: nat, total: nat)
    requires 0 < i <= |nf| && RealSizes(nf) && total < 0x8000_0000_0000_0000
    ensures Unsaturated(nf, i, total)
    decreases |nf| - i
  {
    if i < |nf| {
      var t := total + nf[i].size;
      RealSizesAddUp(nf, i + 1, if t > MAX_BYTES then total else t);
    }
  }

  lemma {:induction false} SweepKeepsAtMost(nf: seq<Snapshot>, i: nat, total: nat)
    requires i <= |nf|
    ensures |Sweep(nf, i, total).0| <= |nf| - i
    decreases |nf| - i
  {
    if i < |nf| {
      var t := SaturatingAdd(total, nf[i].size);
      SweepKeepsAtMost(nf, i + 1, if i > 0 && t > MAX_BYTES then SaturatingSub(t, nf[i].size) else t);
    }
  }

  lemma SurplusAndRecent(listing: seq<Snapshot>, keep: nat)
    ensures multiset(Surplus(listing, keep)) + multiset(Recent(listing, keep)) == multiset(listing)
  {
    var cut := if |listing| > keep then |listing| - keep else 0;
    ReverseSame(listing[cut..]);
    assert listing == listing[..cut] + listing[cut..];
  }

  /** Clean-up splits the directory into kept and removed snapshots. */
  lemma CleanupLosesNothing(listing: seq<Snapshot>, keep: nat)
    ensures multiset(Kept(listing, keep)) + multiset(Removals(listing, keep)) == multiset(listing)
  {
    var nf := Recent(listing, keep);
    SurplusAndRecent(listing, keep);
    SweepSplits(nf, 0, 0);
    assert nf[0..] == nf;
  }

  /** The last name is always kept. */
  lemma CleanupKeepsLast(listing: seq<Snapshot>, keep: nat)
    requires listing != [] && keep > 0
    ensures Kept(listing, keep) != [] && Kept(listing, keep)[0] == listing[|listing| - 1]
  {
    assert Recent(listing, keep)[0] == listing[|listing| - 1];
  }

  /** Clean-up keeps at most `keep` snapshots, always keeps the last name, and keeps no more
    * bytes than the budget or that one file, as long as its additions do not saturate. */
  lemma CleanupIsBounded(listing: seq<Snapshot>, keep: nat)
    requires listing != [] && keep > 0 ==> Unsaturated(Recent(listing, keep), 1, listing[|listing| - 1].size)
    ensures |Kept(listing, keep)| <= keep
    ensures listing != [] && keep > 0 ==>
              var last := listing[|listing| - 1];
              && Kept(listing, keep)[..1] == [last]
              && Bytes(Kept(listing, keep))
                 <= (if last.size < MAX_BYTES then MAX_BYTES else last.size)
  {
    var nf := Recent(listing, keep);
    SweepKeepsAtMost(nf, 0, 0);
    if listing != [] && keep > 0 {
      assert nf[0] == listing[|listing| - 1];
      var size := nf[0].size;
      assert SaturatingAdd(0, size) == size || size > U64_MAX;
      var rest := Sweep(nf, 1, SaturatingAdd(0, size)).0;
      SweepWithinBudget(nf, 1, size);
      assert Kept(listing, keep) == [nf[0]] + rest;
      assert ([nf[0]] + rest)[1..] == rest;
    }
  }

  /** So it is for all sizes that a file system can report. */
  lemma CleanupIsBoundedForFiles(listing: seq<Snapshot>, keep: nat)
    requires RealSizes(listing)
    ensures listing != [] && keep > 0 ==> Unsaturated(Recent(listing, keep), 1, listing[|listing| - 1].size)
  {
    if listing != [] && keep > 0 {
      assert RealSizes(Recent(listing, keep));
      RealSizesAddUp(Recent(listing, keep), 1, listing[|listing| - 1].size);
    }
  }

  // ── Which files go ────────────────────────────────────────────────

  predicate HasTurn(entries: seq<Snapshot>, turn: nat) {
    exists j :: 0 <= j < |entries| && entries[j].turn == turn
  }

  predicate IsRemoved(listing: seq<Snapshot>, keep: nat, turn: nat) {
    HasTurn(Removals(listing, keep), turn)
  }

  lemma HasTurnAppend(a: seq<Snapshot>, b: seq<Snapshot>, turn: nat)
    ensures HasTurn(a + b, turn) <==> HasTurn(a, turn) || HasTurn(b, turn)
  {
    if HasTurn(a, turn) {
      var j :| 0 <= j < |a| && a[j].turn == turn;
      assert (a + b)[j].turn == turn;
    }
    if HasTurn(b, turn) {
      var j :| 0 <= j < |b| && b[j].turn == turn;
      assert (a + b)[|a| + j].turn == turn;
    }
  }

  /** The running total before the file `q` of the newest-first listing. */
  function TotalBefore(nf: seq<Snapshot>, q: nat): nat
    requires q <= |nf|
  {
    if q == 0 then 0
    else
      var t := SaturatingAdd(TotalBefore(nf, q - 1), nf[q - 1].size);
      if q - 1 > 0 && t > MAX_BYTES then SaturatingSub(t, nf[q - 1].size) else t
  }

  /** The byte sweep reaches the file: it is not the first, and with it the budget is exceeded. */
  predicate IsSwept(nf: seq<Snapshot>, q: nat)
    requires q < |nf|
  {
    q > 0 && SaturatingAdd(TotalBefore(nf, q), nf[q].size) > MAX_BYTES
  }

  predicate IsSweptFrom(nf: seq<Snapshot>, i: nat, turn: nat) {
    exists q :: i <= q < |nf| && nf[q].turn == turn && IsSwept(nf, q)
  }

  lemma {:induction false} SweptIff(nf: seq<Snapshot>, i: nat, turn: nat)
    requires i <= |nf|
    ensures HasTurn(Sweep(nf, i, TotalBefore(nf, i)).1, turn) <==> IsSweptFrom(nf, i, turn)
    decreases |nf| - i
  {
    if i < |nf| {
      SweptIff(nf, i + 1, turn);
      var rest := Sweep(nf, i + 1, TotalBefore(nf, i + 1)).1;
      HasTurnAppend([nf[i]], rest, turn);
      assert HasTurn([nf[i]], turn) <==> nf[i].turn == turn by {
        assert [nf[i]][0] == nf[i];
      }
      assert IsSweptFrom(nf, i, turn) <==> (nf[i].turn == turn && IsSwept(nf, i)) || IsSweptFrom(nf, i + 1, turn);
    }
  }

  predicate DistinctTurns(entries: seq<Snapshot>) {
    forall i, j | 0 <= i < j < |entries| :: entries[i].turn != entries[j].turn
  }

  /** At least `keep` names sort after that of the file, or the byte sweep reaches it. */
  predicate IsTaken(listing: seq<Snapshot>, keep: nat, after: nat)
    requires after < |listing|
  {
    after >= keep || IsSwept(Recent(listing, keep), after)
  }

  /** A file is removed exactly if it is taken by its rank in the listing. */
  lemma RemovedIff(listing: seq<Snapshot>, keep: nat, p: nat)
    requires p < |listing| && DistinctTurns(listing)
    ensures IsRemoved(listing, keep, listing[p].turn) <==> IsTaken(listing, keep, |listing| - 1 - p)
  {
    var turn, after := listing[p].turn, |listing| - 1 - p;
    var cut, nf := if |listing| > keep then |listing| - keep else 0, Recent(listing, keep);
    HasTurnAppend(Surplus(listing, keep), Sweep(nf, 0, 0).1, turn);
    SweptIff(nf, 0, turn);
    assert forall j | 0 <= j < cut :: Surplus(listing, keep)[j] == listing[j];
    assert forall q | 0 <= q < |nf| :: nf[q] == listing[|listing| - 1 - q];
    if after >= keep {
      assert Surplus(listing, keep)[p].turn == turn;
    } else {
      assert nf[after].turn == turn;
    }
  }

  /** The bytes of the files from `p` on that are not removed. */
  function BytesLeft(listing: seq<Snapshot>, removed: seq<Snapshot>, p: nat): (n: nat)
    requires p <= |listing|
    decreases |listing| - p
  {
    if p == |listing| then 0
    else (if HasTurn(removed, listing[p].turn) then 0 else listing[p].size) + BytesLeft(listing, removed, p + 1)
  }

  lemma TotalIsReal(nf: seq<Snapshot>, q: nat)
    requires RealSizes(nf) && q <= |nf|
    ensures TotalBefore(nf, q) < 0x8000_0000_0000_0000
    ensures q < |nf| ==> SaturatingAdd(TotalBefore(nf, q), nf[q].size) == TotalBefore(nf, q) + nf[q].size
  {
    if q > 0 {
      TotalIsReal(nf, q - 1);
    }
  }

  lemma TotalStep(nf: seq<Snapshot>, q: nat)
    requires RealSizes(nf) && q < |nf|
    ensures TotalBefore(nf, q + 1) == TotalBefore(nf, q) + if IsSwept(nf, q) then 0 else nf[q].size
  {
    TotalIsReal(nf, q);
  }

  /** The files of `nf` are the last ones of the listing, newest first, and those are removed that the
    * sweep reaches. */
  predicate SweepRemoves(listing: seq<Snapshot>, removed: seq<Snapshot>, nf: seq<Snapshot>) {
    && |nf| <= |listing|
    && (forall q | 0 <= q < |nf| :: nf[q] == listing[|listing| - 1 - q])
    && (forall q | 0 <= q < |nf| :: HasTurn(removed, nf[q].turn) <==> IsSwept(nf, q))
  }

  lemma RecentIs(listing: seq<Snapshot>, keep: nat, nf: seq<Snapshot>)
    requires nf == Recent(listing, keep)
    ensures |nf| == if |listing| > keep then keep else |listing|
    ensures forall q | 0 <= q < |nf| :: nf[q] == listing[|listing| - 1 - q]
  {
  }

  lemma RecentIsSwept(listing: seq<Snapshot>, keep: nat, nf: seq<Snapshot>, removed: seq<Snapshot>)
    requires DistinctTurns(listing) && nf == Recent(listing, keep) && removed == Removals(listing, keep)
    ensures SweepRemoves(listing, removed, nf)
  {
    RecentIs(listing, keep, nf);
    forall q | 0 <= q < |nf| ensures HasTurn(removed, nf[q].turn) <==> IsSwept(nf, q) {
      RemovedIff(listing, keep, |listing| - 1 - q);
    }
  }

  /** The running total is the bytes of the newer files that are left. */
  lemma {:induction false} TotalIsBytesLeft(listing: seq<Snapshot>, removed: seq<Snapshot>, nf: seq<Snapshot>, q: nat)
    requires RealSizes(nf) && SweepRemoves(listing, removed, nf) && q <= |nf|
    ensures TotalBefore(nf, q) == BytesLeft(listing, removed, |listing| - q)
  {
    if q > 0 {
      TotalIsBytesLeft(listing, removed, nf, q - 1);
      TotalStep(nf, q - 1);
    }
  }

  lemma SweptIffOver(listing: seq<Snapshot>, removed: seq<Snapshot>, nf: seq<Snapshot>, p: nat)
    requires RealSizes(nf) && SweepRemoves(listing, removed, nf) && p < |listing| && |listing| - 1 - p < |nf|
    ensures HasTurn(removed, listing[p].turn)
       <==> p < |listing| - 1 && BytesLeft(listing, removed, p + 1) + listing[p].size > 20 * 1024 * 1024
  {
    var q := |listing| - 1 - p;
    TotalIsBytesLeft(listing, removed, nf, q);
    TotalIsReal(nf, q);
    assert nf[q] == listing[p];
  }

  /** Clean-up removes a file if and only if `keep` newer names are listed, or it is not the newest and
    * with the newer ones that are left it does not fit into 20 MiB. */
  lemma RemovedIffOver(listing: seq<Snapshot>, keep: nat, removed: seq<Snapshot>, p: nat)
    requires RealSizes(listing) && DistinctTurns(listing) && p < |listing| && removed == Removals(listing, keep)
    ensures HasTurn(removed, listing[p].turn)
       <==> || |listing| - 1 - p >= keep
            || (p < |listing| - 1 && BytesLeft(listing, removed, p + 1) + listing[p].size > 20 * 1024 * 1024)
  {
    RemovedIff(listing, keep, p);
    if |listing| - 1 - p < keep {
      var nf := Recent(listing, keep);
      RecentIs(listing, keep, nf);
      RecentIsSwept(listing, keep, nf, removed);
      SweptIffOver(listing, removed, nf, p);
    }
  }

  lemma {:induction false} ReverseSame(s: seq<Snapshot>)
    ensures multiset(Reverse(s)) == multiset(s)
  {
    if s != [] {
      assert Reverse(s) == Reverse(s[1..]) + [s[0]];
      ReverseSame(s[1..]);
      assert s == [s[0]] + s[1..];
    }
  }

  /** The running total that the sweep ends with. */
  function FinalTotal(nf: seq<Snapshot>, i: nat, total: nat): nat
    requires i <= |nf|
    decreases |nf| - i
  {
    if i == |nf| then total
    else
      var t := SaturatingAdd(total, nf[i].size);
      FinalTotal(nf, i + 1, if i > 0 && t > MAX_BYTES then SaturatingSub(t, nf[i].size) else t)
  }

  /** The running total is the bytes kept exactly when no addition saturated; otherwise it
    * is too low for good. */
  lemma {:induction false} TotalIsExactIff(nf: seq<Snapshot>, i: nat, total: nat)
    requires 0 < i <= |nf| && total <= U64_MAX
    requires forall j | 0 <= j < |nf| :: nf[j].size <= U64_MAX
    ensures FinalTotal(nf, i, total) <= total + Bytes(Sweep(nf, i, total).0)
    ensures FinalTotal(nf, i, total) == total + Bytes(Sweep(nf, i, total).0) <==> Unsaturated(nf, i, total)
    decreases |nf| - i
  {
    if i < |nf| {
      var t := SaturatingAdd(total, nf[i].size);
      if t > MAX_BYTES {
        TotalIsExactIff(nf, i + 1, SaturatingSub(t, nf[i].size));
      } else {
        TotalIsExactIff(nf, i + 1, t);
        assert Sweep(nf, i, total).0[1..] == Sweep(nf, i + 1, t).0;
      }
    }
  }

  /** With sizes no file system can report the saturating total loses count: 10 bytes, then
    * a removed file of 2^64-1, then a whole budget, and the kept bytes exceed the budget. */
  lemma SaturationLosesCount()
    ensures var a, b, c := Snapshot(1, MAX_BYTES), Snapshot(2, U64_MAX), Snapshot(3, 10);
      && Kept([a, b, c], 5) == [c, a]
      && Bytes(Kept([a, b, c], 5)) == MAX_BYTES + 10
  {
    var a, b, c := Snapshot(1, MAX_BYTES), Snapshot(2, U64_MAX), Snapshot(3, 10);
    var nf := Recent([a, b, c], 5);
    assert nf == [c, b, a];
    var none: seq<Snapshot> := [];
    assert [a] + none == [a] && [b] + none == [b] && [c] + [a] == [c, a];
    assert Sweep(nf, 3, MAX_BYTES) == ([], []);
    assert Sweep(nf, 2, 0) == ([a], []);
    assert Sweep(nf, 1, 10) == ([a], [b]);
    assert Sweep(nf, 0, 0) == ([c, a], [b]);
    assert Bytes([c, a]) == 10 + Bytes([a]) by { assert [c, a][1..] == [a]; }
    assert Bytes([a]) == MAX_BYTES by { assert [a][1..] == []; }
  }
}
