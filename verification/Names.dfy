/** Decimal numbers as text, and the order in which snapshot file names sort. */
module Names {

  function Digit(d: nat): (c: char)
    requires d < 10
  {
    '0' + d as char
  }

  function Digits(n: nat): (s: string)
    ensures |s| > 0
    ensures forall i | 0 <= i < |s| :: '0' <= s[i] <= '9'
  {
    (if n < 10 then "" else Digits(n / 10)) + [Digit(n % 10)]
  }

  lemma {:induction false} DigitsInjective(m: nat, n: nat)
    requires Digits(m) == Digits(n)
    ensures m == n
  {
    var dm, dn := Digits(m), Digits(n);
    assert dm[|dm| - 1] == Digit(m % 10) && dn[|dn| - 1] == Digit(n % 10);
    assert m % 10 == n % 10;
    if m >= 10 && n >= 10 {
      assert dm[..|dm| - 1] == Digits(m / 10) && dn[..|dn| - 1] == Digits(n / 10);
      DigitsInjective(m / 10, n / 10);
    }
  }

  // ── Digits with leading zeros ─────────────────────────────────────

  function Repeat(c: char, n: nat): (s: string)
    ensures |s| == n
  {
    seq(n, _ => c)
  }

  /** The `width` lowest digits. */
  function Padded(n: nat, width: nat): (s: string)
    ensures |s| == width && forall i | 0 <= i < width :: '0' <= s[i] <= '9'
  {
    if width == 0 then "" else Padded(n / 10, width - 1) + [Digit(n % 10)]
  }

  /** The number has at most `width` digits. */
  predicate HasWidth(n: nat, width: nat) {
    if width == 0 then n == 0 else HasWidth(n / 10, width - 1)
  }

  /** The number without its `k` lowest digits. */
  function Cut(n: nat, k: nat): nat {
    if k == 0 then n else Cut(n / 10, k - 1)
  }

  lemma {:induction false} ZeroIsPadded(width: nat)
    ensures Padded(0, width) == Repeat('0', width) && HasWidth(0, width)
  {
    if width > 0 {
      ZeroIsPadded(width - 1);
    }
  }

  lemma {:induction false} DigitsArePadded(n: nat, width: nat)
    requires width >= |Digits(n)|
    ensures Padded(n, width) == Repeat('0', width - |Digits(n)|) + Digits(n) && HasWidth(n, width)
  {
    if n < 10 {
      ZeroIsPadded(width - 1);
    } else {
      DigitsArePadded(n / 10, width - 1);
    }
  }

  lemma {:induction false} PaddedStart(n: nat, width: nat, k: nat)
    ensures Padded(n, width + k)[..width] == Padded(Cut(n, k), width)
  {
    if k > 0 {
      PaddedStart(n / 10, width, k - 1);
    }
  }

  // ── Text order ────────────────────────────────────────────────────

  /** Text order, as file names are sorted. */
  predicate TextLess(a: string, b: string) {
    if |b| == 0 then false
    else if |a| == 0 then true
    else if a[0] != b[0] then a[0] < b[0]
    else TextLess(a[1..], b[1..])
  }

  lemma {:induction false} TextLessIsStrict(a: string, b: string)
    ensures TextLess(a, b) ==> !TextLess(b, a) && a != b
    ensures a != b ==> TextLess(a, b) || TextLess(b, a)
  {
    if |a| > 0 && |b| > 0 && a[0] == b[0] {
      TextLessIsStrict(a[1..], b[1..]);
      assert a == [a[0]] + a[1..] && b == [b[0]] + b[1..];
    }
  }

  lemma {:induction false} TextLessTransitive(a: string, b: string, c: string)
    requires TextLess(a, b) && TextLess(b, c)
    ensures TextLess(a, c)
  {
    if |a| > 0 && a[0] == b[0] && b[0] == c[0] {
      TextLessTransitive(a[1..], b[1..], c[1..]);
    }
  }

  lemma {:induction false} TextLessAppend(x: string, s: string, y: string, t: string)
    requires |x| == |y|
    ensures TextLess(x + s, y + t) <==> if x == y then TextLess(s, t) else TextLess(x, y)
    decreases x
  {
    if x == [] {
      assert x + s == s && y + t == t;
    } else {
      TextLessAppend(x[1..], s, y[1..], t);
      assert (x + s)[1..] == x[1..] + s && (y + t)[1..] == y[1..] + t;
      assert x[0] == y[0] ==> (x == y <==> x[1..] == y[1..]) by {
        assert x == [x[0]] + x[1..] && y == [y[0]] + y[1..];
      }
    }
  }

  lemma {:induction false} PaddedOrder(m: nat, n: nat, width: nat)
    requires HasWidth(m, width) && HasWidth(n, width)
    ensures TextLess(Padded(m, width), Padded(n, width)) <==> m < n
    ensures Padded(m, width) == Padded(n, width) <==> m == n
  {
    if width > 0 {
      var x, y := Padded(m / 10, width - 1), Padded(n / 10, width - 1);
      PaddedOrder(m / 10, n / 10, width - 1);
      TextLessAppend(x, [Digit(m % 10)], y, [Digit(n % 10)]);
      assert Padded(m, width)[..width - 1] == x && Padded(n, width)[..width - 1] == y;
      assert Padded(m, width)[width - 1] == Digit(m % 10) && Padded(n, width)[width - 1] == Digit(n % 10);
    }
  }

  // ── Snapshot names ────────────────────────────────────────────────

  /** What tells the snapshots of one session apart: the turn in at least three digits. */
  function SnapshotName(turn: nat): (s: string) {
    var d := Digits(turn);
    (if |d| < 3 then Repeat('0', 3 - |d|) else "") + d + ".json"
  }

  function Width(turn: nat): (width: nat) {
    if |Digits(turn)| < 3 then 3 else |Digits(turn)|
  }

  lemma NameIsPadded(turn: nat)
    ensures SnapshotName(turn) == Padded(turn, Width(turn)) + ".json" && HasWidth(turn, Width(turn))
  {
    DigitsArePadded(turn, Width(turn));
    assert Repeat('0', 0) == "";
  }

  /** How the names of two turns sort: like the turns if they are equally long; a longer one is first
    * cut to the length of the shorter one, and comes second if that leaves the two equal. */
  lemma NamesSortIff(a: nat, b: nat)
    ensures TextLess(SnapshotName(a), SnapshotName(b))
       <==> if Width(a) == Width(b) then a < b
            else if Width(a) < Width(b) then a <= Cut(b, Width(b) - Width(a))
            else Cut(a, Width(a) - Width(b)) < b
  {
    NameIsPadded(a);
    NameIsPadded(b);
    if Width(a) <= Width(b) {
      PaddedSortIff(a, b, Width(a), Width(b) - Width(a), ".json");
    } else {
      PaddedSortIff(b, a, Width(b), Width(a) - Width(b), ".json");
    }
  }

  lemma {:induction false} CutHasWidth(n: nat, width: nat, k: nat)
    requires HasWidth(n, width + k)
    ensures HasWidth(Cut(n, k), width)
  {
    if k > 0 {
      CutHasWidth(n / 10, width, k - 1);
    }
  }

  lemma PaddedSortIff(a: nat, b: nat, width: nat, k: nat, end: string)
    requires HasWidth(a, width) && HasWidth(b, width + k) && end != "" && end[0] < '0'
    ensures TextLess(Padded(a, width) + end, Padded(b, width + k) + end)
       <==> if k == 0 then a < b else a <= Cut(b, k)
    ensures TextLess(Padded(b, width + k) + end, Padded(a, width) + end) <==> Cut(b, k) < a
  {
    var x, y := Padded(a, width), Padded(b, width + k);
    var start, rest := y[..width], y[width..];
    PaddedStart(b, width, k);
    CutHasWidth(b, width, k);
    PaddedOrder(a, Cut(b, k), width);
    PaddedOrder(Cut(b, k), a, width);
    assert y + end == start + (rest + end);
    TextLessAppend(x, end, start, rest + end);
    TextLessAppend(start, rest + end, x, end);
    if k == 0 {
      assert rest + end == end;
      TextLessIsStrict(end, end);
    } else {
      assert (rest + end)[0] == y[width];
    }
  }

  lemma {:induction false} DigitsGrow(m: nat, n: nat)
    requires m <= n
    ensures |Digits(m)| <= |Digits(n)|
  {
    if m >= 10 {
      DigitsGrow(m / 10, n / 10);
    }
  }

  lemma ThreeDigits(turn: nat)
    requires turn < 1000
    ensures Width(turn) == 3
  {
    DigitsGrow(turn, 999);
    assert |Digits(999)| == |Digits(99)| + 1 == |Digits(9)| + 2;
  }

  /** Below turn 1000 the names sort like the turns. */
  lemma SmallNamesSortByTurn(a: nat, b: nat)
    requires a < b < 1000
    ensures TextLess(SnapshotName(a), SnapshotName(b))
  {
    ThreeDigits(a);
    ThreeDigits(b);
    NamesSortIff(a, b);
  }

  /** From turn 1000 on they do not: turn 1000 sorts before exactly those from turn 101 on. */
  lemma ThousandSortsBefore(t: nat)
    requires t < 1000
    ensures TextLess(SnapshotName(1000), SnapshotName(t)) <==> t >= 101
  {
    ThreeDigits(t);
    assert |Digits(1000)| == |Digits(100)| + 1 == |Digits(10)| + 2 == |Digits(1)| + 3;
    NamesSortIff(1000, t);
    assert Cut(1000, 1) == Cut(100, 0) == 100;
  }

  /** Different turns get different file names. */
  lemma SnapshotNameInjective(a: nat, b: nat)
    requires SnapshotName(a) == SnapshotName(b)
    ensures a == b
  {
    NameIsPadded(a);
    NameIsPadded(b);
    assert |SnapshotName(a)| == Width(a) + 5 && |SnapshotName(b)| == Width(b) + 5;
    assert SnapshotName(a)[..Width(a)] == Padded(a, Width(a)) && SnapshotName(b)[..Width(b)] == Padded(b, Width(b));
    PaddedOrder(a, b, Width(a));
  }
}
