/** Directory listings in name order, and which of the listed files clean-up takes. */
module CheckpointListing {
  import opened WalFormat
  import opened CheckpointDisk
  import Names
  import Retention

  type Listing = seq<Retention.Snapshot>

  predicate NameLess(a: nat, b: nat) {
    Names.TextLess(Names.SnapshotName(a), Names.SnapshotName(b))
  }

  ghost predicate NameSorted(l: Listing) {
    forall i, j | 0 <= i < j < |l| :: NameLess(l[i].turn, l[j].turn)
  }

  /** Insert a snapshot into a sorted listing. */
  function Insert(l: Listing, x: Retention.Snapshot): (r: Listing)
    ensures multiset(r) == multiset(l) + multiset{x}
  {
    if l == [] then [x]
    else if NameLess(x.turn, l[0].turn) then [x] + l
    else
      assert l == [l[0]] + l[1..];
      [l[0]] + Insert(l[1..], x)
  }

  lemma {:induction false} InsertSorted(l: Listing, x: Retention.Snapshot)
    requires NameSorted(l) && forall i | 0 <= i < |l| :: l[i].turn != x.turn
    ensures NameSorted(Insert(l, x))
  {
    if l != [] {
      if NameLess(x.turn, l[0].turn) {
        forall j | 0 <= j < |l| ensures NameLess(x.turn, l[j].turn) {
          if j > 0 {
            Names.TextLessTransitive(
              Names.SnapshotName(x.turn), Names.SnapshotName(l[0].turn), Names.SnapshotName(l[j].turn));
          }
        }
      } else {
        InsertSorted(l[1..], x);
        if Names.SnapshotName(x.turn) == Names.SnapshotName(l[0].turn) {
          Names.SnapshotNameInjective(x.turn, l[0].turn);
        }
        Names.TextLessIsStrict(Names.SnapshotName(x.turn), Names.SnapshotName(l[0].turn));
        var rest := Insert(l[1..], x);
        forall j | 0 <= j < |rest| ensures NameLess(l[0].turn, rest[j].turn) {
          assert rest[j] in multiset(rest);
          assert rest[j] == x || rest[j] in multiset(l[1..]);
          if rest[j] != x {
            var i :| 0 <= i < |l[1..]| && l[1..][i] == rest[j];
            assert l[i + 1] == rest[j];
          }
        }
      }
    }
  }

  lemma InMultiset(s: Listing, x: Retention.Snapshot)
    requires x in multiset(s)
    ensures exists i :: 0 <= i < |s| && s[i] == x
  {
  }

  /** Which entries a listing has; `NameSorted` says in which order. */
  ghost predicate Lists(files: map<nat, seq<byte>>, l: Listing) {
    && (forall i | 0 <= i < |l| :: l[i].turn in files && l[i].size == |files[l[i].turn]|)
    && (forall t | t in files :: Retention.Snapshot(t, |files[t]|) in multiset(l))
  }

  lemma ListsIsListing(files: map<nat, seq<byte>>, l: Listing)
    requires Lists(files, l) && NameSorted(l)
    ensures IsListing(files, l)
  {
    forall t | t in files ensures exists i :: 0 <= i < |l| && l[i].turn == t {
      InMultiset(l, Retention.Snapshot(t, |files[t]|));
    }
  }

  /** Listing one more file. */
  lemma InsertLists(files: map<nat, seq<byte>>, t: nat, l0: Listing)
    requires t in files && Lists(files - {t}, l0)
    ensures Lists(files, Insert(l0, Retention.Snapshot(t, |files[t]|)))
  {
    var x := Retention.Snapshot(t, |files[t]|);
    var l := Insert(l0, x);
    forall i | 0 <= i < |l| ensures l[i].turn in files && l[i].size == |files[l[i].turn]| {
      assert l[i] in multiset(l);
      if l[i] != x {
        InMultiset(l0, l[i]);
      }
    }
    forall u | u in files ensures Retention.Snapshot(u, |files[u]|) in multiset(l) {
      if u != t {
        assert u in files - {t};
      }
    }
  }

  /** A directory has a listing in name order. */
  lemma {:induction false} ListingExists(files: map<nat, seq<byte>>) returns (l: Listing)
    ensures Lists(files, l) && NameSorted(l)
    decreases |files|
  {
    if files == map[] {
      l := [];
    } else {
      var t :| t in files;
      assert |files - {t}| < |files| by {
        assert (files - {t}).Keys == files.Keys - {t};
      }
      var l0 := ListingExists(files - {t});
      var x := Retention.Snapshot(t, |files[t]|);
      InsertLists(files, t, l0);
      assert forall i | 0 <= i < |l0| :: l0[i].turn in files - {t};
      InsertSorted(l0, x);
      l := Insert(l0, x);
    }
  }

  lemma HasListing(files: map<nat, seq<byte>>)
    ensures exists l :: IsListing(files, l)
  {
    var l := ListingExists(files);
    ListsIsListing(files, l);
  }

  ghost function ListingOf(files: map<nat, seq<byte>>): (l: Listing)
    ensures IsListing(files, l)
  {
    HasListing(files);
    var l :| IsListing(files, l);
    l
  }

  // ── Clean-up and name order ───────────────────────────────────────

  /** A listing names each file once. */
  lemma SortedIsDistinct(l: Listing)
    requires NameSorted(l)
    ensures Retention.DistinctTurns(l)
  {
    forall i, j | 0 <= i < j < |l| ensures l[i].turn != l[j].turn {
      assert NameLess(l[i].turn, l[j].turn);
      Names.TextLessIsStrict(Names.SnapshotName(l[i].turn), Names.SnapshotName(l[j].turn));
    }
  }

  /** Where a file stands in the listing. */
  lemma RankOf(files: map<nat, seq<byte>>, l: Listing, t: nat) returns (p: nat)
    requires IsListing(files, l) && t in files
    ensures p < |l| && l[p].turn == t
    ensures forall i | 0 <= i < |l| && l[i].turn == t :: i == p
  {
    p :| 0 <= p < |l| && l[p].turn == t;
    SortedIsDistinct(l);
  }

  /** The files whose names sort after that of turn `t`. */
  ghost function NamesAfter(files: map<nat, seq<byte>>, t: nat): set<nat> {
    set u | u in files && NameLess(t, u)
  }

  function Turns(l: Listing): (turns: set<nat>) {
    set i | 0 <= i < |l| :: l[i].turn
  }

  lemma {:induction false} TurnsAreCounted(l: Listing)
    requires Retention.DistinctTurns(l)
    ensures |Turns(l)| == |l|
  {
    if l != [] {
      var n := |l| - 1;
      TurnsAreCounted(l[..n]);
      forall t ensures t in Turns(l) <==> t in Turns(l[..n]) || t == l[n].turn {
        if t in Turns(l) {
          var i :| 0 <= i < |l| && l[i].turn == t;
          assert i < n ==> l[..n][i].turn == t;
        }
        if t in Turns(l[..n]) {
          var i :| 0 <= i < n && l[..n][i].turn == t;
          assert l[i].turn == t;
        }
      }
      assert Turns(l) == Turns(l[..n]) + {l[n].turn};
      assert l[n].turn !in Turns(l[..n]);
    }
  }

  lemma TailIsAfter(files: map<nat, seq<byte>>, l: Listing, p: nat)
    requires IsListing(files, l) && p < |l|
    ensures NamesAfter(files, l[p].turn) == Turns(l[p + 1..])
  {
    var tail := l[p + 1..];
    forall u ensures u in NamesAfter(files, l[p].turn) <==> u in Turns(tail) {
      if u in NamesAfter(files, l[p].turn) {
        var i :| 0 <= i < |l| && l[i].turn == u;
        if i < p {
          assert NameLess(l[i].turn, l[p].turn);
        }
        Names.TextLessIsStrict(Names.SnapshotName(u), Names.SnapshotName(l[p].turn));
        assert i > p;
        assert tail[i - p - 1].turn == u;
      }
      if u in Turns(tail) {
        var j :| 0 <= j < |tail| && tail[j].turn == u;
        assert NameLess(l[p].turn, l[p + 1 + j].turn);
      }
    }
  }

  /** Clean-up takes a file if and only if at least `KEEP` names sort after it, or the byte sweep
    * reaches it. */
  lemma TakenIff(files: map<nat, seq<byte>>, l: Listing, t: nat)
    requires IsListing(files, l) && t in files
    ensures |NamesAfter(files, t)| < |l|
    ensures Retention.IsRemoved(l, KEEP, t) <==> Retention.IsTaken(l, KEEP, |NamesAfter(files, t)|)
  {
    var p := RankIs(files, l, t);
    TakenByRank(l, KEEP, p, t, |NamesAfter(files, t)|);
  }

  lemma TakenByRank(l: Listing, keep: nat, p: nat, t: nat, after: nat)
    requires NameSorted(l) && p < |l| && l[p].turn == t && after == |l| - 1 - p
    ensures Retention.IsRemoved(l, keep, t) <==> Retention.IsTaken(l, keep, after)
  {
    SortedIsDistinct(l);
    Retention.RemovedIff(l, keep, p);
  }

  lemma RankIs(files: map<nat, seq<byte>>, l: Listing, t: nat) returns (p: nat)
    requires IsListing(files, l) && t in files
    ensures p < |l| && l[p].turn == t && |NamesAfter(files, t)| == |l| - 1 - p
  {
    p := RankOf(files, l, t);
    SortedIsDistinct(l);
    TailIsAfter(files, l, p);
    DistinctTail(l, p + 1);
    TurnsAreCounted(l[p + 1..]);
  }

  lemma DistinctTail(l: Listing, p: nat)
    requires Retention.DistinctTurns(l) && p <= |l|
    ensures Retention.DistinctTurns(l[p..])
  {
  }

  /** No file sorts after the name of turn `t`. */
  ghost predicate NameIsLast(t: nat, files: map<nat, seq<byte>>) {
    forall u | u in files && u != t :: NameLess(u, t)
  }

  /** Clean-up does not take the file whose name sorts last. */
  lemma LastNameSurvives(files: map<nat, seq<byte>>, l: Listing, t: nat)
    requires IsListing(files, l) && t in files && NameIsLast(t, files)
    ensures !Retention.IsRemoved(l, KEEP, t)
  {
    TakenIff(files, l, t);
    forall u | u in files ensures !NameLess(t, u) {
      Names.TextLessIsStrict(Names.SnapshotName(u), Names.SnapshotName(t));
    }
    assert NamesAfter(files, t) == {};
  }

  /** Of more than `KEEP` files, it takes the one whose name sorts first. */
  lemma FirstNameIsTaken(files: map<nat, seq<byte>>, l: Listing, t: nat)
    requires IsListing(files, l) && |files| > KEEP && t in files
    requires forall u | u in files && u != t :: NameLess(t, u)
    ensures Retention.IsRemoved(l, KEEP, t)
  {
    TakenIff(files, l, t);
    AllButFirst(files, t);
  }

  lemma AllButFirst(files: map<nat, seq<byte>>, t: nat)
    requires t in files && forall u | u in files && u != t :: NameLess(t, u)
    ensures |NamesAfter(files, t)| == |files| - 1
  {
    Names.TextLessIsStrict(Names.SnapshotName(t), Names.SnapshotName(t));
    assert NamesAfter(files, t) == files.Keys - {t};
    assert |files| == |files.Keys|;
  }

  /** Below turn 1000 a newer file sorts last. */
  lemma SmallTurnsSortLast(files: map<nat, seq<byte>>, t: nat)
    requires t < 1000 && forall u | u in files :: u <= t
    ensures NameIsLast(t, files)
  {
    forall u | u in files && u != t ensures NameLess(u, t) {
      Names.SmallNamesSortByTurn(u, t);
    }
  }
}
