/** The editor that sets or removes one `key = "value"` line of one `[section]` of a text file and
  * leaves every other line alone. */
module SectionEditor {
  import opened Wrappers
  import opened Text

  // ── Lines ─────────────────────────────────────────────────────────

  /** The index of the first '='. */
  function Equals(s: string): (i: Option<nat>)
    ensures i.Some? ==> i.value < |s| && s[i.value] == '=' && '=' !in s[..i.value]
    ensures i.None? ==> '=' !in s
  {
    if s == "" then None
    else if s[0] == '=' then Some(0)
    else
      match Equals(s[1..])
      case Some(i) =>
        assert s[..i + 1] == [s[0]] + s[1..][..i];
        Some(i + 1)
      case None =>
        assert s == [s[0]] + s[1..];
        None
  }

  /** What the editor sees in a line.  A line in brackets begins a section, and is never searched
    * for a key, so it does not matter if it holds a '=' too. */
  datatype Line<N> = Blank | Begins(section: N) | Sets(key: N, value: N) | Other

  function Classify(line: string): (l: Line<string>) {
    var t := Trim(line);
    if t == "" then Blank
    else if t[0] == '[' && t[|t| - 1] == ']' then Begins(t[1..|t| - 1])
    else
      match Equals(t)
      case Some(i) => if t[0] == '#' then Other else Sets(Trim(t[..i]), Trim(t[i + 1..]))
      case None => Other
  }

  function Classes(lines: seq<string>): (ls: seq<Line<string>>)
    ensures |ls| == |lines| && forall i | 0 <= i < |ls| :: ls[i] == Classify(lines[i])
  {
    seq(|lines|, i requires 0 <= i < |lines| => Classify(lines[i]))
  }

  function Header(section: string): string {
    "[" + section + "]"
  }

  function Entry(key: string, value: string): string {
    key + " = \"" + value + "\""
  }

  // ── Sections ──────────────────────────────────────────────────────

  predicate IsKey<N(==)>(l: Line<N>, key: N) {
    l.Sets? && l.key == key
  }

  function FindHeader<N(==)>(ls: seq<Line<N>>, section: N, i: nat): (r: Option<nat>)
    requires i <= |ls|
    ensures r.Some? ==> i <= r.value < |ls| && ls[r.value] == Begins(section)
    ensures r.Some? ==> forall j | i <= j < r.value :: ls[j] != Begins(section)
    ensures r.None? ==> forall j | i <= j < |ls| :: ls[j] != Begins(section)
    decreases |ls| - i
  {
    if i == |ls| then None else if ls[i] == Begins(section) then Some(i) else FindHeader(ls, section, i + 1)
  }

  function SectionEnd<N>(ls: seq<Line<N>>, i: nat): (r: nat)
    requires i <= |ls|
    ensures i <= r <= |ls| && forall j | i <= j < r :: !ls[j].Begins?
    ensures r < |ls| ==> ls[r].Begins?
    decreases |ls| - i
  {
    if i == |ls| || ls[i].Begins? then i else SectionEnd(ls, i + 1)
  }

  /** From the header of a section to the next header or the end. */
  datatype Bounds = Bounds(start: nat, end: nat)

  predicate IsBounds<N(==)>(ls: seq<Line<N>>, section: N, b: Bounds) {
    && b.start < b.end <= |ls|
    && ls[b.start] == Begins(section) && (forall j | 0 <= j < b.start :: ls[j] != Begins(section))
    && (forall j | b.start < j < b.end :: !ls[j].Begins?)
    && (b.end < |ls| ==> ls[b.end].Begins?)
  }

  function SectionBounds<N(==)>(ls: seq<Line<N>>, section: N): (r: Option<Bounds>)
    ensures r.Some? ==> IsBounds(ls, section, r.value)
    ensures r.None? ==> forall j | 0 <= j < |ls| :: ls[j] != Begins(section)
  {
    match FindHeader(ls, section, 0)
    case Some(start) => Some(Bounds(start, SectionEnd(ls, start + 1)))
    case None => None
  }

  function FirstKey<N(==)>(ls: seq<Line<N>>, key: N, lo: nat, hi: nat): (r: Option<nat>)
    requires lo <= hi <= |ls|
    ensures r.Some? ==> lo <= r.value < hi && IsKey(ls[r.value], key)
    ensures r.Some? ==> forall j | lo <= j < r.value :: !IsKey(ls[j], key)
    ensures r.None? ==> forall j | lo <= j < hi :: !IsKey(ls[j], key)
    decreases hi - lo
  {
    if lo == hi then None else if IsKey(ls[lo], key) then Some(lo) else FirstKey(ls, key, lo + 1, hi)
  }

  /** Where the section's last line that is not blank ends. */
  function ContentEnd<N>(ls: seq<Line<N>>, start: nat, end: nat): (r: nat)
    requires start < end <= |ls|
    ensures start < r <= end && forall j | r <= j < end :: ls[j].Blank?
    ensures r > start + 1 ==> !ls[r - 1].Blank?
    decreases end
  {
    if end > start + 1 && ls[end - 1].Blank? then ContentEnd(ls, start, end - 1) else end
  }

  // ── Reading, setting, removing ────────────────────────────────────

  function Lookup<N(==)>(ls: seq<Line<N>>, section: N, key: N): (value: Option<N>) {
    match SectionBounds(ls, section)
    case None => None
    case Some(b) =>
      match FirstKey(ls, key, b.start + 1, b.end)
      case Some(i) => Some(ls[i].value)
      case None => None
  }

  function Insert<T>(lines: seq<T>, i: nat, line: T): (r: seq<T>)
    requires i <= |lines|
    ensures |r| == |lines| + 1 && r[i] == line
    ensures forall j | 0 <= j < i :: r[j] == lines[j]
    ensures forall j | i < j < |r| :: r[j] == lines[j - 1]
  {
    lines[..i] + [line] + lines[i..]
  }

  predicate AllBlank<N>(ls: seq<Line<N>>) {
    forall i | 0 <= i < |ls| :: ls[i].Blank?
  }

  /** Where the line of a key goes: over the one it has, into its section, or into a new section
    * at the end, set off by a blank line. */
  datatype Place = At(i: nat) | In(i: nat) | New(blank: bool)

  predicate Fits(place: Place, n: nat) {
    match place
    case At(i) => i < n
    case In(i) => i <= n
    case New(_) => true
  }

  function Where<N(==)>(ls: seq<Line<N>>, section: N, key: N): (place: Place)
    ensures Fits(place, |ls|)
  {
    match SectionBounds(ls, section)
    case Some(b) =>
      (match FirstKey(ls, key, b.start + 1, b.end)
       case Some(i) => At(i)
       case None => In(ContentEnd(ls, b.start, b.end)))
    case None => New(!AllBlank(ls))
  }

  function Put<T>(lines: seq<T>, place: Place, blank: T, header: T, entry: T): (r: seq<T>)
    requires Fits(place, |lines|)
  {
    match place
    case At(i) => lines[i := entry]
    case In(i) => Insert(lines, i, entry)
    case New(apart) => (if apart then lines + [blank] else lines) + [header] + [entry]
  }

  function Upsert(lines: seq<string>, section: string, key: string, value: string): (r: seq<string>) {
    Put(lines, Where(Classes(lines), section, key), "", Header(section), Entry(key, value))
  }

  function Remove(lines: seq<string>, section: string, key: string): (r: (seq<string>, bool)) {
    match Where(Classes(lines), section, key)
    case At(i) => (lines[..i] + lines[i + 1..], true)
    case In(_) | New(_) => (lines, false)
  }

  // ── Lines that are written ────────────────────────────────────────

  /** A key the editor can find again. */
  predicate GoodKey(key: string) {
    Trim(key) == key && '=' !in key && '\n' !in key && (key == "" || key[0] != '#')
  }

  lemma TrimmedIsBare(s: string)
    requires Trim(s) == s && s != ""
    ensures !IsSpace(s[0]) && !IsSpace(s[|s| - 1])
  {
    TrimmedEnds(s);
    TrimmedEnds(TrimStart(s));
  }

  lemma HeaderBegins(section: string)
    ensures Classify(Header(section)) == Begins(section) && Classify("") == Blank
  {
    BareIsTrimmed(Header(section));
    assert section == Header(section)[1..|section| + 1];
  }

  lemma TrimSpaced(key: string)
    requires Trim(key) == key
    ensures Trim(key + " ") == key && Trim(" " + key) == key
  {
    if key == "" {
      TrimStartIs(" ", "");
      assert " " + "" == " " && "" + " " == " ";
    } else {
      TrimmedIsBare(key);
      TrimStartIs("", key + " ");
      TrimEndIs(key, " ");
      TrimStartIs(" ", key);
      TrimEndIs(key, "");
      assert "" + (key + " ") == key + " " && key + "" == key;
    }
  }

  lemma EqualsAt(name: string, rest: string)
    requires '=' !in name
    ensures Equals(name + "=" + rest) == Some(|name|)
  {
    var s := name + "=" + rest;
    assert s[|name|] == '=';
    assert forall i | 0 <= i < |name| :: s[i] == name[i];
    var i := Equals(s);
    assert i.Some?;
    assert forall j | 0 <= j < i.value :: s[..i.value][j] == s[j];
  }

  lemma TrimEntry(key: string, value: string)
    requires GoodKey(key)
    ensures Trim(Entry(key, value)) == (if key == "" then "" else key + " ") + "=" + (" \"" + value + "\"")
  {
    var tail := "=" + (" \"" + value + "\"");
    var e := Entry(key, value);
    assert e == (key + " ") + tail;
    if key == "" {
      assert e == " " + tail;
      TrimStartIs(" ", tail);
      TrimEndIs(tail, "");
      assert tail + "" == tail;
    } else {
      TrimmedIsBare(key);
      BareIsTrimmed(e);
      assert e == (key + " ") + "=" + (" \"" + value + "\"");
    }
  }

  lemma ClassifyTrimmed(line: string, name: string, rest: string)
    requires Trim(line) == name + "=" + rest && '=' !in name
    requires name == "" || (name[0] != '#' && name[0] != '[')
    ensures Classify(line) == Sets(Trim(name), Trim(rest))
  {
    EqualsAt(name, rest);
    var t := Trim(line);
    assert t[..|name|] == name && t[|name| + 1..] == rest;
  }

  lemma ClassifyBracket(line: string, name: string, rest: string)
    requires Trim(line) == name + "=" + rest && '=' !in name
    requires name != "" && name[0] == '[' && rest != "" && rest[|rest| - 1] != ']'
    ensures Classify(line) == Sets(Trim(name), Trim(rest))
  {
    EqualsAt(name, rest);
    var t := Trim(line);
    assert t[|t| - 1] == rest[|rest| - 1];
    assert t[..|name|] == name && t[|name| + 1..] == rest;
  }

  /** The written line sets the key to the quoted value. */
  lemma EntrySets(key: string, value: string)
    requires GoodKey(key)
    ensures Classify(Entry(key, value)) == Sets(key, "\"" + value + "\"")
  {
    var name, quoted := if key == "" then "" else key + " ", "\"" + value + "\"";
    TrimEntry(key, value);
    assert " \"" + value + "\"" == " " + quoted;
    TrimSpaced(key);
    BareIsTrimmed(quoted);
    TrimSpaced(quoted);
    if name != "" && name[0] == '[' {
      ClassifyBracket(Entry(key, value), name, " " + quoted);
    } else {
      ClassifyTrimmed(Entry(key, value), name, " " + quoted);
    }
  }

  // ── Where things are ──────────────────────────────────────────────

  lemma BoundsAre<N>(ls: seq<Line<N>>, section: N, b: Bounds)
    requires IsBounds(ls, section, b)
    ensures SectionBounds(ls, section) == Some(b)
  {
    var r := SectionBounds(ls, section).value;
    assert r.start == b.start;
  }

  /** What is read of `key`, told by its position. */
  predicate Reads<N(==)>(ls: seq<Line<N>>, b: Bounds, key: N, at: Option<nat>)
    requires b.start < b.end <= |ls|
  {
    match at
    case Some(i) => b.start < i < b.end && IsKey(ls[i], key) && forall j | b.start < j < i :: !IsKey(ls[j], key)
    case None => forall j | b.start < j < b.end :: !IsKey(ls[j], key)
  }

  lemma LookupIs<N>(ls: seq<Line<N>>, section: N, b: Bounds, key: N, at: Option<nat>)
    requires IsBounds(ls, section, b) && Reads(ls, b, key, at)
    ensures SectionBounds(ls, section) == Some(b) && FirstKey(ls, key, b.start + 1, b.end) == at
    ensures Lookup(ls, section, key) == if at.Some? then Some(ls[at.value].value) else None
  {
    BoundsAre(ls, section, b);
  }

  // ── Setting a value ───────────────────────────────────────────────

  /** A line that begins no section is replaced by one that begins none: all sections stay. */
  lemma ReplaceBounds<N>(ls: seq<Line<N>>, i: nat, l: Line<N>, section: N, b: Bounds)
    requires i < |ls| && !ls[i].Begins? && !l.Begins? && IsBounds(ls, section, b)
    ensures IsBounds(ls[i := l], section, b)
  {
  }

  lemma ReplaceReads<N>(ls: seq<Line<N>>, i: nat, l: Line<N>, c: Bounds, k: N, at: Option<nat>)
    requires i < |ls| && c.start < c.end <= |ls| && Reads(ls, c, k, at)
    requires c.start < i < c.end ==> !IsKey(ls[i], k) && !IsKey(l, k)
    ensures Reads(ls[i := l], c, k, at)
  {
  }

  /** Sections with different names do not overlap. */
  lemma Apart<N>(ls: seq<Line<N>>, s: N, b: Bounds, t: N, c: Bounds)
    requires s != t && IsBounds(ls, s, b) && IsBounds(ls, t, c)
    ensures b.end <= c.start || c.end <= b.start
  {
  }

  /** The line of the key is replaced: it alone is read differently. */
  lemma ReplaceLaws<N>(ls: seq<Line<N>>, section: N, b: Bounds, i: nat, key: N, value: N)
    requires IsBounds(ls, section, b) && Reads(ls, b, key, Some(i))
    ensures var r := ls[i := Sets(key, value)]; IsBounds(r, section, b) && Reads(r, b, key, Some(i))
  {
    ReplaceBounds(ls, i, Sets(key, value), section, b);
  }

  lemma ReplaceKeepsOthers<N>(ls: seq<Line<N>>, section: N, b: Bounds, i: nat, key: N, value: N, s: N, k: N)
    requires IsBounds(ls, section, b) && Reads(ls, b, key, Some(i)) && (s != section || k != key)
    ensures Lookup(ls[i := Sets(key, value)], s, k) == Lookup(ls, s, k)
  {
    var r := ls[i := Sets(key, value)];
    match SectionBounds(ls, s)
    case None =>
      assert SectionBounds(r, s) == None;
    case Some(c) =>
      var at := FirstKey(ls, k, c.start + 1, c.end);
      if s == section {
        BoundsAre(ls, section, b);
      } else {
        Apart(ls, section, b, s, c);
      }
      ReplaceBounds(ls, i, Sets(key, value), s, c);
      ReplaceReads(ls, i, Sets(key, value), c, k, at);
      LookupIs(r, s, c, k, at);
  }

  /** Where a line before which one line is inserted at `p` comes to stand. */
  function Shift(i: nat, p: nat): nat {
    if i < p then i else i + 1
  }

  function ShiftAt(at: Option<nat>, p: nat): Option<nat> {
    if at.Some? then Some(Shift(at.value, p)) else None
  }

  function ShiftBounds(b: Bounds, p: nat): Bounds {
    Bounds(Shift(b.start, p), if p <= b.end then b.end + 1 else b.end)
  }

  /** A line that begins no section is inserted. */
  lemma InsertBounds<N>(ls: seq<Line<N>>, p: nat, l: Line<N>, section: N, b: Bounds)
    requires p <= |ls| && !l.Begins? && IsBounds(ls, section, b)
    ensures IsBounds(Insert(ls, p, l), section, ShiftBounds(b, p))
  {
  }

  lemma InsertReads<N>(ls: seq<Line<N>>, p: nat, l: Line<N>, c: Bounds, k: N, at: Option<nat>)
    requires p <= |ls| && c.start < c.end <= |ls| && Reads(ls, c, k, at)
    requires c.start < p <= c.end ==> !IsKey(l, k)
    ensures Reads(Insert(ls, p, l), ShiftBounds(c, p), k, ShiftAt(at, p))
  {
  }

  /** The lookup of a key that the inserted line does not set. */
  lemma InsertKeeps<N>(ls: seq<Line<N>>, p: nat, l: Line<N>, s: N, k: N)
    requires p <= |ls| && !l.Begins?
    requires var c := SectionBounds(ls, s); c.Some? && c.value.start < p <= c.value.end ==> !IsKey(l, k)
    ensures Lookup(Insert(ls, p, l), s, k) == Lookup(ls, s, k)
  {
    var r := Insert(ls, p, l);
    match SectionBounds(ls, s)
    case None =>
      assert SectionBounds(r, s) == None;
    case Some(c) =>
      var at := FirstKey(ls, k, c.start + 1, c.end);
      InsertBounds(ls, p, l, s, c);
      InsertReads(ls, p, l, c, k, at);
      LookupIs(r, s, ShiftBounds(c, p), k, ShiftAt(at, p));
  }

  /** A line for the key is inserted inside its section: it is read, and nothing else changes. */
  lemma InsertLaws<N>(ls: seq<Line<N>>, section: N, b: Bounds, p: nat, key: N, value: N)
    requires IsBounds(ls, section, b) && Reads(ls, b, key, None) && b.start < p <= b.end
    ensures var r := Insert(ls, p, Sets(key, value));
      IsBounds(r, section, Bounds(b.start, b.end + 1)) && Reads(r, Bounds(b.start, b.end + 1), key, Some(p))
  {
    InsertBounds(ls, p, Sets(key, value), section, b);
  }

  lemma InsertKeepsOthers<N>(ls: seq<Line<N>>, section: N, b: Bounds, p: nat, key: N, value: N, s: N, k: N)
    requires IsBounds(ls, section, b) && b.start < p <= b.end && (s != section || k != key)
    ensures Lookup(Insert(ls, p, Sets(key, value)), s, k) == Lookup(ls, s, k)
  {
    if SectionBounds(ls, s).Some? && s != section {
      Apart(ls, section, b, s, SectionBounds(ls, s).value);
    }
    InsertKeeps(ls, p, Sets(key, value), s, k);
  }

  /** The line of a key is removed from its section: no other key of any section is read differently. */
  lemma RemoveKeepsLookups<N>(ls: seq<Line<N>>, section: N, b: Bounds, i: nat, key: N, s: N, k: N)
    requires IsBounds(ls, section, b) && b.start < i < b.end && IsKey(ls[i], key) && (s != section || k != key)
    ensures Lookup(ls[..i] + ls[i + 1..], s, k) == Lookup(ls, s, k)
  {
    var r := ls[..i] + ls[i + 1..];
    RemovedBounds(ls, section, b, i, r);
    assert Insert(r, i, Sets(key, ls[i].value)) == ls;
    InsertKeepsOthers(r, section, Bounds(b.start, b.end - 1), i, key, ls[i].value, s, k);
  }

  lemma RemovedBounds<N>(ls: seq<Line<N>>, section: N, b: Bounds, i: nat, r: seq<Line<N>>)
    requires IsBounds(ls, section, b) && b.start < i < b.end && r == ls[..i] + ls[i + 1..]
    ensures IsBounds(r, section, Bounds(b.start, b.end - 1))
  {
    assert forall j | 0 <= j < |r| :: r[j] == ls[if j < i then j else j + 1];
  }

  /** A header at the end ends the last section and begins its own. */
  lemma HeaderLaws<N>(ls: seq<Line<N>>, section: N)
    requires SectionBounds(ls, section) == None
    ensures IsBounds(ls + [Begins(section)], section, Bounds(|ls|, |ls| + 1))
    ensures forall k :: Lookup(ls + [Begins(section)], section, k) == None == Lookup(ls, section, k)
  {
    BoundsAre(ls + [Begins(section)], section, Bounds(|ls|, |ls| + 1));
  }

  lemma HeaderKeepsOthers<N>(ls: seq<Line<N>>, section: N, s: N, k: N)
    requires SectionBounds(ls, section) == None && s != section
    ensures Lookup(ls + [Begins(section)], s, k) == Lookup(ls, s, k)
  {
    var r := ls + [Begins(section)];
    match SectionBounds(ls, s)
    case None =>
      assert SectionBounds(r, s) == None;
    case Some(c) =>
      assert IsBounds(r, s, c);
      var at := FirstKey(ls, k, c.start + 1, c.end);
      assert Reads(r, c, k, at);
      LookupIs(r, s, c, k, at);
  }

  lemma AppendLaws<N>(ls: seq<Line<N>>, section: N, key: N, value: N) returns (b: Bounds)
    requires SectionBounds(ls, section) == None
    ensures var r := Put(ls, New(!AllBlank(ls)), Blank, Begins(section), Sets(key, value));
      IsBounds(r, section, b) && b.end == |r| && Reads(r, b, key, Some(b.end - 1))
  {
    var base := if AllBlank(ls) then ls else ls + [Blank];
    assert SectionBounds(base, section) == None;
    HeaderLaws(base, section);
    var n := |base| + 1;
    InsertLaws(base + [Begins(section)], section, Bounds(|base|, n), n, key, value);
    assert Insert(base + [Begins(section)], n, Sets(key, value)) == base + [Begins(section)] + [Sets(key, value)];
    b := Bounds(|base|, n + 1);
  }

  lemma AppendKeepsOthers<N>(ls: seq<Line<N>>, section: N, key: N, value: N, s: N, k: N)
    requires SectionBounds(ls, section) == None && (s != section || k != key)
    ensures Lookup(Put(ls, New(!AllBlank(ls)), Blank, Begins(section), Sets(key, value)), s, k) == Lookup(ls, s, k)
  {
    var base := if AllBlank(ls) then ls else ls + [Blank];
    assert base == ls || base == Insert(ls, |ls|, Blank);
    InsertKeeps(ls, |ls|, Blank, s, k);
    assert SectionBounds(base, section) == None;
    HeaderLaws(base, section);
    if s != section {
      HeaderKeepsOthers(base, section, s, k);
    }
    var n := |base| + 1;
    InsertKeepsOthers(base + [Begins(section)], section, Bounds(|base|, n), n, key, value, s, k);
    assert Insert(base + [Begins(section)], n, Sets(key, value)) == base + [Begins(section)] + [Sets(key, value)];
  }

  /** Where the entry comes to stand. */
  function Landing(place: Place, n: nat): nat {
    match place
    case At(i) => i
    case In(i) => i
    case New(apart) => if apart then n + 2 else n + 1
  }

  lemma PutLands<T>(lines: seq<T>, place: Place, blank: T, header: T, entry: T, again: T)
    requires Fits(place, |lines|)
    ensures var r, at := Put(lines, place, blank, header, entry), Landing(place, |lines|);
      at < |r| && r[at] == entry && r[at := again] == Put(lines, place, blank, header, again)
  {
    var r, at := Put(lines, place, blank, header, entry), Landing(place, |lines|);
    assert |r| == |Put(lines, place, blank, header, again)|;
    forall j | 0 <= j < |r| ensures r[at := again][j] == Put(lines, place, blank, header, again)[j] {
    }
  }

  lemma WhereIs<N>(ls: seq<Line<N>>, section: N, b: Bounds, key: N, at: nat)
    requires IsBounds(ls, section, b) && Reads(ls, b, key, Some(at))
    ensures Where(ls, section, key) == At(at) && Lookup(ls, section, key) == Some(ls[at].value)
  {
    LookupIs(ls, section, b, key, Some(at));
  }

  lemma InSectionIsFound<N>(ls: seq<Line<N>>, section: N, b: Bounds, key: N, v: N)
    requires SectionBounds(ls, section) == Some(b)
    ensures var place := Where(ls, section, key);
      !place.New? && Where(Put(ls, place, Blank, Begins(section), Sets(key, v)), section, key) == At(place.i)
  {
    var at := FirstKey(ls, key, b.start + 1, b.end);
    if at.Some? {
      ReplaceLaws(ls, section, b, at.value, key, v);
      WhereIs(ls[at.value := Sets(key, v)], section, b, key, at.value);
    } else {
      var p := ContentEnd(ls, b.start, b.end);
      InsertLaws(ls, section, b, p, key, v);
      WhereIs(Insert(ls, p, Sets(key, v)), section, Bounds(b.start, b.end + 1), key, p);
    }
  }

  lemma FoundIsRead<N>(ls: seq<Line<N>>, section: N, key: N)
    ensures Where(ls, section, key).At? ==> Lookup(ls, section, key) == Some(ls[Where(ls, section, key).i].value)
  {
  }

  /** After setting, the key is where it was put and has the value. */
  lemma PutIsFound<N>(ls: seq<Line<N>>, section: N, key: N, v: N)
    ensures var r := Put(ls, Where(ls, section, key), Blank, Begins(section), Sets(key, v));
      var at := Landing(Where(ls, section, key), |ls|);
      Where(r, section, key) == At(at) && Lookup(r, section, key) == Some(v)
  {
    var place := Where(ls, section, key);
    var r := Put(ls, place, Blank, Begins(section), Sets(key, v));
    PutLands(ls, place, Blank, Begins(section), Sets(key, v), Sets(key, v));
    if SectionBounds(ls, section).Some? {
      InSectionIsFound(ls, section, SectionBounds(ls, section).value, key, v);
    } else {
      var b := AppendLaws(ls, section, key, v);
      WhereIs(r, section, b, key, b.end - 1);
    }
    FoundIsRead(r, section, key);
  }

  /** Every other key of every section reads as before. */
  lemma PutKeepsOthers<N>(ls: seq<Line<N>>, section: N, key: N, v: N, s: N, k: N)
    requires s != section || k != key
    ensures Lookup(Put(ls, Where(ls, section, key), Blank, Begins(section), Sets(key, v)), s, k) == Lookup(ls, s, k)
  {
    match SectionBounds(ls, section)
    case Some(b) =>
      var at := FirstKey(ls, key, b.start + 1, b.end);
      if at.Some? {
        ReplaceKeepsOthers(ls, section, b, at.value, key, v, s, k);
      } else {
        InsertKeepsOthers(ls, section, b, ContentEnd(ls, b.start, b.end), key, v, s, k);
      }
    case None => AppendKeepsOthers(ls, section, key, v, s, k);
  }

  // ── Text ──────────────────────────────────────────────────────────

  const MIN_KEY_LEN := 8

  /** `validate_key`. */
  predicate ValidValue(value: string) {
    |value| >= MIN_KEY_LEN
    && forall c | c in value ::
      'a' <= c <= 'z' || 'A' <= c <= 'Z' || '0' <= c <= '9' || c == '-' || c == '_' || c == '.'
  }

  function NewlineAt(s: string): (n: nat)
    ensures n <= |s| && '\n' !in s[..n] && (n < |s| ==> s[n] == '\n')
  {
    if s == "" || s[0] == '\n' then 0
    else
      var n := NewlineAt(s[1..]);
      assert s[..n + 1] == [s[0]] + s[1..][..n];
      n + 1
  }

  function StripReturn(s: string): string {
    if s != "" && s[|s| - 1] == '\r' then s[..|s| - 1] else s
  }

  /** `lines()`. */
  function Lines(text: string): (lines: seq<string>)
    decreases |text|
  {
    var n := NewlineAt(text);
    if text == "" then [] else if n == |text| then [text] else [StripReturn(text[..n])] + Lines(text[n + 1..])
  }

  function Joined(lines: seq<string>): (text: string) {
    if lines == [] then "" else if |lines| == 1 then lines[0] else lines[0] + "\n" + Joined(lines[1..])
  }

  /** `upsert_section_value` on text. */
  function SetText(text: string, section: string, key: string, value: string): string {
    Joined(Upsert(Lines(text), section, key, value)) + "\n"
  }

  function RemoveText(text: string, section: string, key: string): (string, bool) {
    var (lines, removed) := Remove(Lines(text), section, key);
    (if Joined(lines) == "" then "" else Joined(lines) + "\n", removed)
  }

  function GetText(text: string, section: string, key: string): Option<string> {
    Lookup(Classes(Lines(text)), section, key)
  }

  /** A line that is read back as it is written. */
  predicate CleanLine(line: string) {
    StripReturn(line) == line
  }

  predicate CleanLines(lines: seq<string>) {
    forall i | 0 <= i < |lines| :: CleanLine(lines[i])
  }

  predicate NoNewlines(lines: seq<string>) {
    forall i | 0 <= i < |lines| :: '\n' !in lines[i]
  }

  function Stripped(lines: seq<string>): (r: seq<string>)
    ensures |r| == |lines| && forall i | 0 <= i < |r| :: r[i] == StripReturn(lines[i])
  {
    seq(|lines|, i requires 0 <= i < |lines| => StripReturn(lines[i]))
  }

  lemma {:induction false} LinesHaveNoNewlines(text: string)
    ensures NoNewlines(Lines(text))
    decreases |text|
  {
    var n := NewlineAt(text);
    if n < |text| {
      LinesHaveNoNewlines(text[n + 1..]);
    }
  }

  lemma NewlineIs(head: string, tail: string)
    requires '\n' !in head
    ensures NewlineAt(head + "\n" + tail) == |head|
  {
    var s := head + "\n" + tail;
    assert forall i | 0 <= i < |head| :: s[i] == head[i];
    assert s[|head|] == '\n' && '\n' !in s[..NewlineAt(s)];
  }

  /** What is written is read back line by line, but for a return at the end of a line. */
  lemma {:induction false} LinesOfJoined(lines: seq<string>)
    requires lines != [] && NoNewlines(lines)
    ensures Lines(Joined(lines) + "\n") == Stripped(lines)
  {
    var head, tail := lines[0], if |lines| == 1 then "" else Joined(lines[1..]) + "\n";
    assert Joined(lines) + "\n" == head + "\n" + tail;
    var text := head + "\n" + tail;
    NewlineIs(head, tail);
    assert text[..|head|] == head && text[|head| + 1..] == tail;
    if |lines| > 1 {
      LinesOfJoined(lines[1..]);
    }
  }

  lemma {:induction false} TrimStartSnoc(s: string, c: char)
    requires IsSpace(c)
    ensures TrimStart(s + [c]) == if TrimStart(s) == "" then "" else TrimStart(s) + [c]
  {
    if s != "" && IsSpace(s[0]) {
      TrimStartSnoc(s[1..], c);
      assert (s + [c])[1..] == s[1..] + [c];
    } else if s == "" {
      assert s + [c] == [c] && [c][1..] == "";
    }
  }

  lemma TrimReturn(front: string)
    ensures Trim(front + ['\r']) == Trim(front)
  {
    TrimStartSnoc(front, '\r');
    var t := TrimStart(front);
    assert (t + ['\r'])[..|t|] == t;
  }

  /** The editor does not see the return. */
  lemma ReturnIsUnseen(line: string)
    ensures Classify(StripReturn(line)) == Classify(line)
  {
    if line != "" && line[|line| - 1] == '\r' {
      assert line == StripReturn(line) + ['\r'];
      TrimReturn(StripReturn(line));
    }
  }

  lemma StrippedClasses(lines: seq<string>)
    ensures Classes(Stripped(lines)) == Classes(lines)
  {
    forall i | 0 <= i < |lines| ensures Classify(Stripped(lines)[i]) == Classify(lines[i]) {
      ReturnIsUnseen(lines[i]);
    }
  }

  lemma {:induction false} StrippedIsShorter(lines: seq<string>)
    ensures CleanLines(lines) ==> Stripped(lines) == lines
    ensures !CleanLines(lines) ==> |Joined(Stripped(lines))| < |Joined(lines)|
  {
    if |lines| > 1 {
      StrippedIsShorter(lines[1..]);
      assert Stripped(lines)[1..] == Stripped(lines[1..]);
      assert CleanLines(lines) <==> CleanLine(lines[0]) && CleanLines(lines[1..]);
    }
  }

  lemma PutClasses(lines: seq<string>, place: Place, blank: string, header: string, entry: string)
    requires Fits(place, |lines|)
    ensures Classes(Put(lines, place, blank, header, entry))
         == Put(Classes(lines), place, Classify(blank), Classify(header), Classify(entry))
  {
    var a, b := Classes(Put(lines, place, blank, header, entry)),
                Put(Classes(lines), place, Classify(blank), Classify(header), Classify(entry));
    assert |a| == |b|;
    forall j | 0 <= j < |a| ensures a[j] == b[j] {
    }
  }

  lemma UpsertClasses(lines: seq<string>, section: string, key: string, value: string)
    requires GoodKey(key)
    ensures Classes(Upsert(lines, section, key, value))
         == Put(Classes(lines), Where(Classes(lines), section, key), Blank, Begins(section),
                Sets(key, "\"" + value + "\""))
  {
    EntrySets(key, value);
    HeaderBegins(section);
    PutClasses(lines, Where(Classes(lines), section, key), "", Header(section), Entry(key, value));
  }

  /** All lines but the one that is replaced are read back as they are written. */
  predicate OthersClean(lines: seq<string>, place: Place) {
    forall i | 0 <= i < |lines| && place != At(i) :: CleanLine(lines[i])
  }

  lemma PutIsClean(lines: seq<string>, place: Place, header: string, entry: string)
    requires Fits(place, |lines|) && CleanLine(header) && CleanLine(entry)
    requires NoNewlines(lines) && '\n' !in header && '\n' !in entry
    ensures var r := Put(lines, place, "", header, entry);
      r != [] && NoNewlines(r) && (CleanLines(r) <==> OthersClean(lines, place))
  {
    var r := Put(lines, place, "", header, entry);
    match place
    case At(i) =>
      assert forall j | 0 <= j < |lines| && j != i :: r[j] == lines[j];
    case In(i) =>
      assert forall j | 0 <= j < |lines| :: lines[j] == r[if j < i then j else j + 1];
    case New(_) =>
      assert forall j | 0 <= j < |lines| :: lines[j] == r[j];
  }

  lemma EntryIsClean(section: string, key: string, value: string)
    requires GoodKey(key) && '\n' !in section && ValidValue(value)
    ensures CleanLine(Entry(key, value)) && CleanLine(Header(section))
    ensures '\n' !in Entry(key, value) && '\n' !in Header(section)
  {
    var e, h := Entry(key, value), Header(section);
    assert e[|e| - 1] == '"' && h[|h| - 1] == ']';
  }

  /** What can be set: the section and the key fit on a line of their own. */
  predicate Settable(section: string, key: string) {
    GoodKey(key) && '\n' !in section
  }

  lemma SetLines(text: string, section: string, key: string, value: string)
    requires Settable(section, key) && ValidValue(value)
    ensures var lines := Upsert(Lines(text), section, key, value);
      && Lines(SetText(text, section, key, value)) == Stripped(lines)
      && Classes(Stripped(lines)) == Classes(lines)
      && (CleanLines(lines) <==> OthersClean(Lines(text), Where(Classes(Lines(text)), section, key)))
  {
    var lines := Upsert(Lines(text), section, key, value);
    LinesHaveNoNewlines(text);
    EntryIsClean(section, key, value);
    PutIsClean(Lines(text), Where(Classes(Lines(text)), section, key), Header(section), Entry(key, value));
    LinesOfJoined(lines);
    StrippedClasses(lines);
  }

  // ── The laws ──────────────────────────────────────────────────────

  /** What was set is read back. */
  lemma SetThenGet(text: string, section: string, key: string, value: string)
    requires Settable(section, key) && ValidValue(value)
    ensures GetText(SetText(text, section, key, value), section, key) == Some("\"" + value + "\"")
  {
    SetLines(text, section, key, value);
    UpsertClasses(Lines(text), section, key, value);
    PutIsFound(Classes(Lines(text)), section, key, "\"" + value + "\"");
  }

  /** Every other key of every section reads as before. */
  lemma SetKeepsOthers(text: string, section: string, key: string, value: string, s: string, k: string)
    requires Settable(section, key) && ValidValue(value) && (s != section || k != key)
    ensures GetText(SetText(text, section, key, value), s, k) == GetText(text, s, k)
  {
    SetLines(text, section, key, value);
    UpsertClasses(Lines(text), section, key, value);
    PutKeepsOthers(Classes(Lines(text)), section, key, "\"" + value + "\"", s, k);
  }

  lemma StrippedUpdate(lines: seq<string>, i: nat, entry: string)
    requires i < |lines| && CleanLine(entry)
    ensures Stripped(lines)[i := entry] == Stripped(lines[i := entry])
  {
  }

  lemma StrippedInsert(lines: seq<string>, i: nat, entry: string)
    requires i <= |lines|
    ensures var r := Stripped(Insert(lines, i, entry)); r[..i] + r[i + 1..] == Stripped(lines)
  {
  }

  lemma HeaderStays(lines: seq<string>, section: string)
    requires SectionBounds(Classes(lines), section).Some?
    ensures Joined(Stripped(lines)) != ""
  {
    var b := SectionBounds(Classes(lines), section).value;
    HeaderBegins(section);
    ReturnIsUnseen(lines[b.start]);
    assert Classes(lines)[b.start] == Begins(section) == Classify(Stripped(lines)[b.start]);
    JoinedIsNotEmpty(Stripped(lines), b.start);
  }

  lemma RemoveAt(text: string, lines: seq<string>, section: string, key: string, i: nat)
    requires i < |Lines(text)| && Where(Classes(Lines(text)), section, key) == At(i)
    requires Lines(text)[..i] + Lines(text)[i + 1..] == lines && Joined(lines) != ""
    ensures RemoveText(text, section, key) == (Joined(lines) + "\n", true)
  {
  }

  /** Setting twice writes the lines of setting once, less a return at the end of each. */
  lemma SetAgain(text: string, section: string, key: string, value: string, again: string)
    requires Settable(section, key) && ValidValue(value) && ValidValue(again)
    ensures SetText(SetText(text, section, key, value), section, key, again)
         == Joined(Stripped(Upsert(Lines(text), section, key, again))) + "\n"
  {
    var lines := Lines(text);
    var place := Where(Classes(lines), section, key);
    var at, once := Landing(place, |lines|), Upsert(lines, section, key, value);
    SetLines(text, section, key, value);
    UpsertClasses(lines, section, key, value);
    PutIsFound(Classes(lines), section, key, "\"" + value + "\"");
    PutLands(lines, place, "", Header(section), Entry(key, value), Entry(key, again));
    EntryIsClean(section, key, again);
    StrippedUpdate(once, at, Entry(key, again));
  }

  /** Setting twice is setting once if and only if no line but the one that is replaced ends in a return
    * of its own, before the line end. */
  lemma SetTwiceIff(text: string, section: string, key: string, value: string, again: string)
    requires Settable(section, key) && ValidValue(value) && ValidValue(again)
    ensures SetText(SetText(text, section, key, value), section, key, again) == SetText(text, section, key, again)
       <==> OthersClean(Lines(text), Where(Classes(Lines(text)), section, key))
  {
    SetAgain(text, section, key, value, again);
    SetLines(text, section, key, again);
    StrippedIsShorter(Upsert(Lines(text), section, key, again));
  }

  lemma PlaceInSection<N>(ls: seq<Line<N>>, section: N, key: N) returns (b: Bounds, i: nat)
    requires Where(ls, section, key).In?
    ensures Where(ls, section, key) == In(i) && IsBounds(ls, section, b) && b.start < i <= b.end
    ensures !ls[i - 1].Blank? && forall j | i <= j < b.end :: ls[j].Blank?
  {
    b, i := SectionBounds(ls, section).value, Where(ls, section, key).i;
    assert i == ContentEnd(ls, b.start, b.end);
  }

  lemma UpsertIn(lines: seq<string>, section: string, key: string, value: string, i: nat)
    requires Where(Classes(lines), section, key) == In(i)
    ensures i <= |lines| && Upsert(lines, section, key, value) == lines[..i] + [Entry(key, value)] + lines[i..]
  {
  }

  /** A new entry of a section stands right after the last line of the section that is not blank: from there
    * to the next header, or the end, there are only blank lines. */
  lemma NewEntryPlace(lines: seq<string>, section: string, key: string, value: string)
    returns (start: nat, i: nat, end: nat)
    requires Where(Classes(lines), section, key).In?
    ensures start < i <= end <= |lines|
    ensures Upsert(lines, section, key, value) == lines[..i] + [Entry(key, value)] + lines[i..]
    ensures Classify(lines[start]) == Begins(section)
    ensures forall j | 0 <= j < start :: Classify(lines[j]) != Begins(section)
    ensures forall j | start < j < end :: !Classify(lines[j]).Begins?
    ensures end < |lines| ==> Classify(lines[end]).Begins?
    ensures Trim(lines[i - 1]) != "" && forall j | i <= j < end :: Trim(lines[j]) == ""
  {
    var b;
    b, i := PlaceInSection(Classes(lines), section, key);
    start, end := b.start, b.end;
    UpsertIn(lines, section, key, value, i);
    SectionLines(lines, section, b, i);
  }

  lemma SectionLines(lines: seq<string>, section: string, b: Bounds, i: nat)
    requires IsBounds(Classes(lines), section, b) && b.start < i <= b.end
    requires !Classes(lines)[i - 1].Blank? && forall j | i <= j < b.end :: Classes(lines)[j].Blank?
    ensures Classify(lines[b.start]) == Begins(section)
    ensures forall j | 0 <= j < b.start :: Classify(lines[j]) != Begins(section)
    ensures forall j | b.start < j < b.end :: !Classify(lines[j]).Begins?
    ensures b.end < |lines| ==> Classify(lines[b.end]).Begins?
    ensures Trim(lines[i - 1]) != "" && forall j | i <= j < b.end :: Trim(lines[j]) == ""
  {
    var ls := Classes(lines);
    forall j | 0 <= j < b.start ensures Classify(lines[j]) != Begins(section) {
      assert ls[j] == Classify(lines[j]);
    }
    forall j | b.start < j < b.end ensures !Classify(lines[j]).Begins? {
      assert ls[j] == Classify(lines[j]);
    }
    NotBlank(lines[i - 1]);
    forall j | i <= j < b.end ensures Trim(lines[j]) == "" {
      assert ls[j] == Classify(lines[j]);
      NotBlank(lines[j]);
    }
  }

  lemma NotBlank(line: string)
    ensures Classify(line).Blank? <==> Trim(line) == ""
  {
  }

  /** How a line is read, whatever white space stands around it and its parts: a name in brackets begins a
    * section; text before the first `=` is a key, unless it starts with `#`, and text after it its value. */
  lemma HeaderIsRead(before: string, section: string, after: string)
    requires forall c | c in before + after :: IsSpace(c)
    ensures Classify(before + "[" + section + "]" + after) == Begins(section)
  {
    var header := "[" + section + "]";
    TrimIs(before, header, after);
    assert before + "[" + section + "]" + after == before + header + after;
    assert header[1..|header| - 1] == section;
  }

  lemma CommentIsRead(before: string, comment: string)
    requires forall c | c in before :: IsSpace(c)
    ensures Classify(before + "#" + comment) == Other
  {
    TrimIs(before, "#", "");
    TrimKeepsFirst(before, "#" + comment);
    assert before + "#" + comment == before + ("#" + comment);
  }

  /** A line of a key, with white space `a` to `d` around key and value. */
  lemma KeyIsRead(a: string, key: string, b: string, c: string, value: string, d: string)
    requires forall x | x in a + b + c + d :: IsSpace(x)
    requires IsBare(key) && key != "" && '=' !in key && key[0] != '#' && key[0] != '[' && IsBare(value)
    ensures Classify(a + key + b + "=" + c + value + d) == Sets(key, value)
  {
    var name, rest := key + b, if value == "" then "" else c + value;
    var line := a + key + b + "=" + c + value + d;
    NoEquals(key, b);
    if value == "" {
      TrimIs(a, name + "=" + rest, c + d);
      assert line == a + (name + "=" + rest) + (c + d);
      TrimIs("", "", "");
    } else {
      TrimIs(a, name + "=" + rest, d);
      assert line == a + (name + "=" + rest) + d;
      TrimIs(c, value, "");
      assert c + value + "" == rest;
    }
    TrimIs("", key, b);
    assert "" + key + b == name;
    ClassifyTrimmed(line, name, rest);
  }

  lemma NoEquals(key: string, space: string)
    requires '=' !in key && forall x | x in space :: IsSpace(x)
    ensures '=' !in key + space
  {
  }

  lemma CommentLine(line: string)
    requires line == "#" || line == "#\r"
    ensures Classify(line) == Other
  {
    assert TrimStart(line) == line && TrimEnd("#") == "#";
    if line == "#\r" {
      assert TrimEnd(line) == TrimEnd(line[..1]) && line[..1] == "#";
    }
    assert Trim(line) == "#";
    assert "#"[1..] == "";
  }

  lemma OnlyComment(lines: seq<string>, section: string, key: string)
    requires lines == ["#"] || lines == ["#\r"]
    ensures Where(Classes(lines), section, key) == New(true)
  {
    CommentLine(lines[0]);
    var ls := Classes(lines);
    assert ls[0] == Other && ls == [Other];
  }

  lemma OneLine(line: string, text: string)
    requires text == line + "\n" && '\n' !in line
    ensures NewlineAt(text) == |line| && Lines(text) == [StripReturn(line)]
  {
    NewlineIs(line, "");
    assert text == line + "\n" + "";
    assert text[..|line|] == line && text[|line| + 1..] == "";
  }

  /** A comment that ends in two returns and a newline loses one of them at every setting. */
  lemma ReturnsAreLost(text: string, section: string, key: string, value: string, again: string)
    requires text == "#\r\r\n" && Settable(section, key) && ValidValue(value) && ValidValue(again)
    ensures SetText(SetText(text, section, key, value), section, key, again) != SetText(text, section, key, again)
  {
    OneLine("#\r\r", text);
    assert "#\r\r"[..2] == "#\r";
    OnlyComment(Lines(text), section, key);
    SetTwiceIff(text, section, key, value, again);
  }

  /** Removing a key that was just inserted into a section gives back the lines there were. */
  lemma SetThenRemove(text: string, section: string, key: string, value: string)
    requires Settable(section, key) && ValidValue(value) && Where(Classes(Lines(text)), section, key).In?
    ensures RemoveText(SetText(text, section, key, value), section, key)
         == (Joined(Stripped(Lines(text))) + "\n", true)
  {
    var lines := Lines(text);
    var ls := Classes(lines);
    var p := Where(ls, section, key).i;
    SetLines(text, section, key, value);
    UpsertClasses(lines, section, key, value);
    PutIsFound(ls, section, key, "\"" + value + "\"");
    StrippedInsert(lines, p, Entry(key, value));
    HeaderStays(lines, section);
    RemoveAt(SetText(text, section, key, value), Stripped(lines), section, key, p);
  }

  lemma RemovedClasses(lines: seq<string>, i: nat, left: seq<string>)
    requires i < |lines| && left == lines[..i] + lines[i + 1..]
    ensures Classes(left) == Classes(lines)[..i] + Classes(lines)[i + 1..]
  {
    var want := Classes(lines)[..i] + Classes(lines)[i + 1..];
    forall j | 0 <= j < |left| ensures Classes(left)[j] == want[j] {
      assert left[j] == lines[if j < i then j else j + 1];
    }
  }

  lemma FoundIsInside<N>(ls: seq<Line<N>>, section: N, key: N) returns (b: Bounds)
    requires Where(ls, section, key).At?
    ensures var i := Where(ls, section, key).i; IsBounds(ls, section, b) && b.start < i < b.end && IsKey(ls[i], key)
  {
    b := SectionBounds(ls, section).value;
  }

  lemma RemovedLines(lines: seq<string>, section: string, key: string, s: string, k: string)
    requires s != section || k != key
    ensures Lookup(Classes(Remove(lines, section, key).0), s, k) == Lookup(Classes(lines), s, k)
  {
    var ls := Classes(lines);
    if Where(ls, section, key).At? {
      var i := Where(ls, section, key).i;
      var b := FoundIsInside(ls, section, key);
      RemoveKeepsLookups(ls, section, b, i, key, s, k);
      RemovedClasses(lines, i, Remove(lines, section, key).0);
    }
  }

  lemma JoinedHasBreak(lines: seq<string>)
    requires |lines| > 1
    ensures Joined(lines) != ""
  {
    assert Joined(lines)[|lines[0]|] == '\n';
  }

  lemma EmptyReadsNothing(lines: seq<string>, s: string, k: string)
    requires lines == [] || lines == [""]
    ensures Lookup(Classes(lines), s, k) == None
  {
    HeaderBegins("");
  }

  /** What is written is read as the lines were. */
  lemma WrittenReads(lines: seq<string>, s: string, k: string)
    requires NoNewlines(lines)
    ensures Lookup(Classes(Lines(if Joined(lines) == "" then "" else Joined(lines) + "\n")), s, k)
         == Lookup(Classes(lines), s, k)
  {
    if Joined(lines) != "" {
      LinesOfJoined(lines);
      StrippedClasses(lines);
    } else {
      if |lines| > 1 {
        JoinedHasBreak(lines);
      }
      EmptyReadsNothing(lines, s, k);
      EmptyReadsNothing([], s, k);
    }
  }

  lemma RemovedHasNoNewlines(lines: seq<string>, section: string, key: string)
    requires NoNewlines(lines)
    ensures NoNewlines(Remove(lines, section, key).0)
  {
  }

  /** Every other key of every section reads as before, in every text, whether a line was removed or not. */
  lemma RemoveKeepsOthers(text: string, section: string, key: string, s: string, k: string)
    requires s != section || k != key
    ensures GetText(RemoveText(text, section, key).0, s, k) == GetText(text, s, k)
  {
    LinesHaveNoNewlines(text);
    RemovedHasNoNewlines(Lines(text), section, key);
    RemovedLines(Lines(text), section, key, s, k);
    WrittenReads(Remove(Lines(text), section, key).0, s, k);
  }

  lemma {:induction false} JoinedIsNotEmpty(lines: seq<string>, i: nat)
    requires i < |lines| && lines[i] != ""
    ensures Joined(lines) != ""
  {
    if |lines| > 1 && i > 0 {
      JoinedIsNotEmpty(lines[1..], i - 1);
    }
  }

  // ── The same, as the program does it ──────────────────────────────

  /** Step back over the blank lines that separate a section from the next header. */
  method FindContentEnd<N>(ls: seq<Line<N>>, start: nat, end: nat) returns (at: nat)
    requires start < end <= |ls|
    ensures at == ContentEnd(ls, start, end)
  {
    at := end;
    while at > start + 1 && ls[at - 1].Blank?
      invariant start < at <= end && ContentEnd(ls, start, end) == ContentEnd(ls, start, at)
    {
      at := at - 1;
    }
  }

  method FindPlace<N(==)>(ls: seq<Line<N>>, section: N, key: N) returns (place: Place)
    ensures place == Where(ls, section, key)
  {
    var b := SectionBounds(ls, section);
    if b.None? {
      return New(!AllBlank(ls));
    }
    var i := FirstKey(ls, key, b.value.start + 1, b.value.end);
    if i.Some? {
      return At(i.value);
    }
    var at := FindContentEnd(ls, b.value.start, b.value.end);
    place := In(at);
  }

  method UpsertLines(lines: seq<string>, section: string, key: string, value: string) returns (r: seq<string>)
    ensures r == Upsert(lines, section, key, value)
  {
    var place := FindPlace(Classes(lines), section, key);
    match place {
      case At(i) => r := lines[i := Entry(key, value)];
      case In(i) => r := Insert(lines, i, Entry(key, value));
      case New(apart) =>
        r := if apart then lines + [""] else lines;
        r := r + [Header(section)];
        r := r + [Entry(key, value)];
    }
  }

  /** `upsert_section_value`. */
  method UpsertSectionValue(text: string, section: string, key: string, value: string) returns (out: string)
    ensures out == SetText(text, section, key, value)
  {
    var lines := UpsertLines(Lines(text), section, key, value);
    out := Joined(lines) + "\n";
  }

  method FindLine<N(==)>(ls: seq<Line<N>>, section: N, key: N) returns (i: Option<nat>)
    ensures i == if Where(ls, section, key).At? then Some(Where(ls, section, key).i) else None
  {
    var b := SectionBounds(ls, section);
    if b.None? {
      return None;
    }
    i := FirstKey(ls, key, b.value.start + 1, b.value.end);
  }

  method RemoveLine(lines: seq<string>, section: string, key: string) returns (r: seq<string>, removed: bool)
    ensures (r, removed) == Remove(lines, section, key)
  {
    var i := FindLine(Classes(lines), section, key);
    match i {
      case Some(at) => r, removed := lines[..at] + lines[at + 1..], true;
      case None => r, removed := lines, false;
    }
  }

  /** `remove_section_value`. */
  method RemoveSectionValue(text: string, section: string, key: string) returns (out: string, removed: bool)
    ensures (out, removed) == RemoveText(text, section, key)
  {
    var lines, done := RemoveLine(Lines(text), section, key);
    out, removed := Joined(lines), done;
    if out != "" {
      out := out + "\n";
    }
  }
}
