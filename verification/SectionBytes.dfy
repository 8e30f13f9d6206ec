/** Which bytes of a text an edit of one line leaves as they were. */
module SectionBytes {
  import opened Collections
  import opened SectionEditor

  /** The bytes of the lines, each with its end. */
  function Chunks(text: string): (chunks: seq<string>)
    decreases |text|
  {
    var n := NewlineAt(text);
    if text == "" then [] else if n == |text| then [text] else [text[..n + 1]] + Chunks(text[n + 1..])
  }

  function Concat(chunks: seq<string>): (text: string) {
    if chunks == [] then "" else chunks[0] + Concat(chunks[1..])
  }

  function LineOf(chunk: string): (line: string) {
    if chunk != "" && chunk[|chunk| - 1] == '\n' then StripReturn(chunk[..|chunk| - 1]) else chunk
  }

  /** The line ends in a newline, and not in CRLF. */
  predicate EndsInNewline(chunk: string) {
    chunk != "" && chunk[|chunk| - 1] == '\n' && (|chunk| > 1 ==> chunk[|chunk| - 2] != '\r')
  }

  predicate AllEndInNewline(chunks: seq<string>) {
    forall i | 0 <= i < |chunks| :: EndsInNewline(chunks[i])
  }

  /** A line with its end: only the last one of a text may have none. */
  predicate IsChunk(chunk: string, last: bool) {
    chunk != "" && '\n' !in chunk[..|chunk| - 1] && (!last ==> chunk[|chunk| - 1] == '\n')
  }

  predicate AreChunks(chunks: seq<string>) {
    forall i | 0 <= i < |chunks| :: IsChunk(chunks[i], i == |chunks| - 1)
  }

  function LinesOf(chunks: seq<string>): (lines: seq<string>)
    ensures |lines| == |chunks| && forall i | 0 <= i < |lines| :: lines[i] == LineOf(chunks[i])
  {
    seq(|chunks|, i requires 0 <= i < |chunks| => LineOf(chunks[i]))
  }

  /** What is written for the lines. */
  function Written(lines: seq<string>): (text: string) {
    if lines == [] then "" else (lines[0] + "\n") + Written(lines[1..])
  }

  lemma ChunksCons(chunk: string, rest: seq<string>, all: seq<string>)
    requires all == [chunk] + rest && IsChunk(chunk, rest == []) && AreChunks(rest)
    ensures AreChunks(all)
  {
    forall i | 0 <= i < |all| ensures IsChunk(all[i], i == |all| - 1) {
      if i > 0 {
        assert all[i] == rest[i - 1] && IsChunk(rest[i - 1], i - 1 == |rest| - 1);
      }
    }
  }

  lemma LinesCons(chunk: string, rest: seq<string>, all: seq<string>)
    requires all == [chunk] + rest
    ensures LinesOf(all) == [LineOf(chunk)] + LinesOf(rest) && Concat(all) == chunk + Concat(rest)
  {
    assert all[1..] == rest;
  }

  lemma FirstLineIsChunk(text: string, n: nat, chunk: string)
    requires n == NewlineAt(text) && text != "" && chunk == if n == |text| then text else text[..n + 1]
    ensures IsChunk(chunk, n == |text| || n + 1 == |text|)
    ensures LineOf(chunk) == if n == |text| then text else StripReturn(text[..n])
  {
    if n == |text| {
      assert text[..n] == text;
    } else {
      assert chunk[..n] == text[..n];
    }
  }

  lemma {:induction false} TextIsChunks(text: string)
    ensures Concat(Chunks(text)) == text && AreChunks(Chunks(text)) && Lines(text) == LinesOf(Chunks(text))
    decreases |text|
  {
    var n := NewlineAt(text);
    if text != "" && n == |text| {
      FirstLineIsChunk(text, n, text);
      ChunksCons(text, [], [text]);
      LinesCons(text, [], [text]);
      assert text + "" == text;
    } else if text != "" {
      var chunk, rest := text[..n + 1], text[n + 1..];
      FirstLineIsChunk(text, n, chunk);
      TextIsChunks(rest);
      assert text == chunk + rest;
      assert rest != "" || Chunks(rest) == [];
      ChunksCons(chunk, Chunks(rest), Chunks(text));
      LinesCons(chunk, Chunks(rest), Chunks(text));
    }
  }

  lemma {:induction false} JoinedIsWritten(lines: seq<string>)
    requires lines != []
    ensures Joined(lines) + "\n" == Written(lines)
  {
    if |lines| == 1 {
      assert Written(lines[1..]) == "";
      assert lines[0] + "\n" + "" == lines[0] + "\n";
    } else {
      JoinedIsWritten(lines[1..]);
      assert lines[0] + "\n" + Joined(lines[1..]) + "\n" == (lines[0] + "\n") + (Joined(lines[1..]) + "\n");
    }
  }

  lemma {:induction false} WrittenAppend(a: seq<string>, b: seq<string>)
    ensures Written(a + b) == Written(a) + Written(b)
  {
    if a == [] {
      assert a + b == b;
    } else {
      WrittenAppend(a[1..], b);
      assert (a + b)[1..] == a[1..] + b;
      assert (a[0] + "\n") + (Written(a[1..]) + Written(b)) == ((a[0] + "\n") + Written(a[1..])) + Written(b);
    }
  }

  lemma {:induction false} ConcatAppend(a: seq<string>, b: seq<string>)
    ensures Concat(a + b) == Concat(a) + Concat(b)
  {
    if a == [] {
      assert a + b == b;
    } else {
      ConcatAppend(a[1..], b);
      assert (a + b)[1..] == a[1..] + b;
      assert a[0] + (Concat(a[1..]) + Concat(b)) == (a[0] + Concat(a[1..])) + Concat(b);
    }
  }

  /** One line is written as it was exactly if it ends in a newline alone; if it ends in CRLF, the text
    * differs there, whatever follows; without an end it gets longer. */
  lemma ChunkWritten(chunk: string, last: bool, x: string, y: string)
    requires IsChunk(chunk, last)
    ensures EndsInNewline(chunk) ==> LineOf(chunk) + "\n" == chunk
    ensures !EndsInNewline(chunk) && chunk[|chunk| - 1] == '\n' ==> LineOf(chunk) + "\n" + x != chunk + y
    ensures chunk[|chunk| - 1] != '\n' ==> |LineOf(chunk) + "\n"| == |chunk| + 1
  {
    var n := |chunk| - 1;
    if chunk[n] == '\n' {
      if EndsInNewline(chunk) {
        assert chunk == chunk[..n] + "\n";
      } else {
        var a, b := LineOf(chunk) + "\n" + x, chunk + y;
        assert a[n - 1] == '\n' && b[n - 1] == '\r';
      }
    }
  }

  /** Lines that are left alone reappear byte for byte, with `inserted` among them, if and only if each of
    * them ends in a newline alone. */
  lemma {:induction false} OuterBytesIff(a: seq<string>, inserted: string, b: seq<string>)
    requires AreChunks(a + b)
    ensures Written(LinesOf(a)) + (inserted + Written(LinesOf(b))) == Concat(a) + (inserted + Concat(b))
       <==> AllEndInNewline(a + b)
  {
    if a == [] {
      assert a + b == b;
      LaterBytesIff(b);
      SamePrefix(inserted, Written(LinesOf(b)), Concat(b));
      assert "" + (inserted + Written(LinesOf(b))) == inserted + Written(LinesOf(b));
      assert "" + (inserted + Concat(b)) == inserted + Concat(b);
    } else {
      var tail := a[1..];
      assert (a + b)[0] == a[0] && (a + b)[1..] == tail + b;
      FirstChunk(a + b);
      assert LinesOf(a)[1..] == LinesOf(tail);
      var x, y := Written(LinesOf(tail)) + (inserted + Written(LinesOf(b))), Concat(tail) + (inserted + Concat(b));
      Regroup(LineOf(a[0]) + "\n", Written(LinesOf(tail)), inserted + Written(LinesOf(b)));
      Regroup(a[0], Concat(tail), inserted + Concat(b));
      ChunkWritten(a[0], |a + b| == 1, x, y);
      if EndsInNewline(a[0]) {
        OuterBytesIff(tail, inserted, b);
        SamePrefix(a[0], x, y);
      } else if a[0][|a[0]| - 1] != '\n' {
        assert tail == [] && b == [];
      }
    }
  }

  lemma {:induction false} LaterBytesIff(b: seq<string>)
    requires AreChunks(b)
    ensures Written(LinesOf(b)) == Concat(b) <==> AllEndInNewline(b)
  {
    if b != [] {
      FirstChunk(b);
      assert LinesOf(b)[1..] == LinesOf(b[1..]);
      var x, y := Written(LinesOf(b[1..])), Concat(b[1..]);
      ChunkWritten(b[0], |b| == 1, x, y);
      if EndsInNewline(b[0]) {
        LaterBytesIff(b[1..]);
        SamePrefix(b[0], x, y);
      } else if b[0][|b[0]| - 1] != '\n' {
        assert b[1..] == [];
      }
    }
  }

  lemma FirstChunk(chunks: seq<string>)
    requires AreChunks(chunks) && chunks != []
    ensures IsChunk(chunks[0], |chunks| == 1) && AreChunks(chunks[1..])
    ensures AllEndInNewline(chunks) <==> EndsInNewline(chunks[0]) && AllEndInNewline(chunks[1..])
  {
    forall i | 0 <= i < |chunks| - 1 ensures chunks[1..][i] == chunks[i + 1] {}
    assert forall i | 0 < i < |chunks| :: chunks[i] == chunks[1..][i - 1];
  }

  lemma SamePrefix(p: string, x: string, y: string)
    ensures p + x == p + y <==> x == y
  {
    assert (p + x)[|p|..] == x && (p + y)[|p|..] == y;
  }

  // ── Setting and removing ──────────────────────────────────────────

  function Before(chunks: seq<string>, place: Place): (r: seq<string>)
    requires Fits(place, |chunks|)
  {
    if place.New? then chunks else chunks[..place.i]
  }

  /** After the place, without the line that is replaced. */
  function After(chunks: seq<string>, place: Place): (r: seq<string>)
    requires Fits(place, |chunks|)
  {
    match place
    case At(i) => chunks[i + 1..]
    case In(i) => chunks[i..]
    case New(_) => []
  }

  /** What an edit writes at its place. */
  function Inserted(place: Place, section: string, entry: string): (text: string) {
    Written(NewLines(place, "", Header(section), entry))
  }

  lemma OuterAreChunks(chunks: seq<string>, place: Place)
    requires Fits(place, |chunks|) && AreChunks(chunks)
    ensures AreChunks(Before(chunks, place) + After(chunks, place))
  {
    var r := Before(chunks, place) + After(chunks, place);
    forall j | 0 <= j < |r| ensures IsChunk(r[j], j == |r| - 1) {
      var at := if place.At? && j >= place.i then j + 1 else j;
      assert r[j] == chunks[at] && IsChunk(chunks[at], at == |chunks| - 1);
    }
  }

  /** The lines written anew at a place. */
  function NewLines<T>(place: Place, blank: T, header: T, entry: T): (r: seq<T>) {
    match place
    case New(apart) => (if apart then [blank] else []) + [header, entry]
    case _ => [entry]
  }

  lemma PutIsInserted<T>(lines: seq<T>, place: Place, blank: T, header: T, entry: T)
    requires Fits(place, |lines|)
    ensures place.At? ==> Put(lines, place, blank, header, entry) == lines[..place.i] + ([entry] + lines[place.i + 1..])
    ensures place.In? ==> Put(lines, place, blank, header, entry) == lines[..place.i] + ([entry] + lines[place.i..])
    ensures place.New? ==> Put(lines, place, blank, header, entry) == lines + NewLines(place, blank, header, entry)
  {}

  lemma OuterLines(chunks: seq<string>, place: Place)
    requires Fits(place, |chunks|)
    ensures var lines := LinesOf(chunks);
      && LinesOf(Before(chunks, place)) == (if place.New? then lines else lines[..place.i])
      && LinesOf(After(chunks, place))
         == (match place case At(i) => lines[i + 1..] case In(i) => lines[i..] case New(_) => [])
  {
    if !place.New? {
      assert LinesOf(chunks[..place.i]) == LinesOf(chunks)[..place.i];
      assert LinesOf(chunks[place.i..]) == LinesOf(chunks)[place.i..];
    }
    if place.At? {
      assert LinesOf(chunks[place.i + 1..]) == LinesOf(chunks)[place.i + 1..];
    }
  }

  lemma WrittenParts(a: seq<string>, mid: seq<string>, b: seq<string>)
    ensures Written(a + (mid + b)) == Written(a) + (Written(mid) + Written(b))
  {
    WrittenAppend(a, mid + b);
    WrittenAppend(mid, b);
  }

  lemma PutIsWritten(lines: seq<string>, place: Place, header: string, entry: string, a: seq<string>, b: seq<string>)
    requires Fits(place, |lines|)
    requires a == if place.New? then lines else lines[..place.i]
    requires b == match place case At(i) => lines[i + 1..] case In(i) => lines[i..] case New(_) => []
    ensures Written(Put(lines, place, "", header, entry))
         == Written(a) + (Written(NewLines(place, "", header, entry)) + Written(b))
  {
    var mid := NewLines(place, "", header, entry);
    PutIsInserted(lines, place, "", header, entry);
    assert place.New? ==> mid + b == mid;
    WrittenParts(a, mid, b);
  }

  /** Setting a value leaves every byte before and after the place of the entry as it was, if and only if
    * no line there ends in CRLF and the last of them has its newline. */
  lemma SetKeepsBytesIff(text: string, section: string, key: string, value: string)
    ensures var chunks, place := Chunks(text), Where(Classes(Lines(text)), section, key);
      && Fits(place, |chunks|)
      && (SetText(text, section, key, value)
            == Concat(Before(chunks, place))
             + (Inserted(place, section, Entry(key, value)) + Concat(After(chunks, place)))
          <==> AllEndInNewline(Before(chunks, place) + After(chunks, place)))
  {
    var chunks, place := Chunks(text), Where(Classes(Lines(text)), section, key);
    var lines := Upsert(Lines(text), section, key, value);
    TextIsChunks(text);
    OuterAreChunks(chunks, place);
    JoinedIsWritten(lines);
    OuterLines(chunks, place);
    PutIsWritten(Lines(text), place, Header(section), Entry(key, value),
                 LinesOf(Before(chunks, place)), LinesOf(After(chunks, place)));
    OuterBytesIff(Before(chunks, place), Inserted(place, section, Entry(key, value)), After(chunks, place));
  }

  lemma ChunksAreCut(a: seq<string>, mid: string, b: seq<string>)
    ensures Concat(a + ([mid] + b)) == Concat(a) + (mid + Concat(b))
    ensures Concat(a + b) == Concat(a) + ("" + Concat(b))
  {
    ConcatAppend(a, [mid] + b);
    ConcatAppend(a, b);
    assert ([mid] + b)[1..] == b;
    assert "" + Concat(b) == Concat(b);
  }

  /** What an edit replaces at its place: one line, or nothing. */
  function Replaced(chunks: seq<string>, place: Place): (text: string)
    requires Fits(place, |chunks|)
  {
    if place.At? then chunks[place.i] else ""
  }

  lemma PlaceCuts(chunks: seq<string>, place: Place)
    requires Fits(place, |chunks|)
    ensures chunks == Before(chunks, place)
                    + if place.At? then [Replaced(chunks, place)] + After(chunks, place) else After(chunks, place)
  {}

  /** The text is what stands before the place, the line that is replaced, if any, and what stands after. */
  lemma TextIsCut(text: string, chunks: seq<string>, place: Place)
    requires chunks == Chunks(text) && Fits(place, |chunks|)
    ensures text == Concat(Before(chunks, place)) + (Replaced(chunks, place) + Concat(After(chunks, place)))
  {
    TextIsChunks(text);
    PlaceCuts(chunks, place);
    ChunksAreCut(Before(chunks, place), Replaced(chunks, place), After(chunks, place));
  }

  lemma RemoveBytes(chunks: seq<string>, place: Place, left: seq<string>)
    requires AreChunks(chunks) && Fits(place, |chunks|) && place.At?
    requires left == LinesOf(chunks)[..place.i] + LinesOf(chunks)[place.i + 1..] && left != []
    ensures Joined(left) + "\n" == Concat(Before(chunks, place)) + ("" + Concat(After(chunks, place)))
       <==> AllEndInNewline(Before(chunks, place) + After(chunks, place))
  {
    var a, b := Before(chunks, place), After(chunks, place);
    OuterAreChunks(chunks, place);
    OuterLines(chunks, place);
    JoinedIsWritten(left);
    WrittenAppend(LinesOf(a), LinesOf(b));
    assert "" + Written(LinesOf(b)) == Written(LinesOf(b));
    OuterBytesIff(a, "", b);
  }

  /** The same for removing a line. */
  lemma RemoveKeepsBytesIff(text: string, section: string, key: string)
    requires Where(Classes(Lines(text)), section, key).At?
    ensures var chunks, place := Chunks(text), Where(Classes(Lines(text)), section, key);
      && Fits(place, |chunks|)
      && (RemoveText(text, section, key).0 == Concat(Before(chunks, place)) + ("" + Concat(After(chunks, place)))
          <==> AllEndInNewline(Before(chunks, place) + After(chunks, place)))
  {
    TextIsChunks(text);
    RemovedIsNotEmpty(Lines(text), section, key);
    RemoveBytes(Chunks(text), Where(Classes(Lines(text)), section, key), Remove(Lines(text), section, key).0);
  }

  lemma RemovedIsNotEmpty(lines: seq<string>, section: string, key: string)
    requires Where(Classes(lines), section, key).At?
    ensures Remove(lines, section, key).0 != [] && Joined(Remove(lines, section, key).0) != ""
  {
    var b, i := SectionBounds(Classes(lines), section).value, Where(Classes(lines), section, key).i;
    HeaderBegins(section);
    var left := Remove(lines, section, key).0;
    assert left[b.start] == lines[b.start] && Classes(lines)[b.start] == Begins(section);
    JoinedIsNotEmpty(left, b.start);
  }

  /** If there is nothing to remove, the text is rewritten all the same: every byte is kept if and only if
    * every line ends in a newline alone, and the text is not just one empty line. */
  lemma RemoveNothingIff(text: string, section: string, key: string)
    requires !Where(Classes(Lines(text)), section, key).At?
    ensures RemoveText(text, section, key).0 == text <==> AllEndInNewline(Chunks(text)) && text != "\n"
  {
    var chunks, lines := Chunks(text), Lines(text);
    TextIsChunks(text);
    LaterBytesIff(chunks);
    if |lines| > 1 {
      JoinedHasBreak(lines);
    }
    if Joined(lines) != "" {
      JoinedIsWritten(lines);
    } else if lines != [] {
      assert lines == [""];
      assert |chunks| == 1 && LineOf(chunks[0]) == "" && Concat(chunks) == chunks[0] + "" == chunks[0];
    }
  }

  /** The smallest text that loses a byte: a comment that ends in CRLF. */
  lemma ReturnIsLost(text: string, section: string, key: string, value: string)
    requires text == "#\r\n"
    ensures SetText(text, section, key, value) == "#\n" + Inserted(New(true), section, Entry(key, value))
    ensures RemoveText(text, section, key) == ("#\n", false)
  {
    OneLine("#\r", text);
    assert "#\r"[..1] == "#";
    OnlyComment(Lines(text), section, key);
    var put := Upsert(Lines(text), section, key, value);
    JoinedIsWritten(put);
    assert Remove(Lines(text), section, key) == (["#"], false) && Joined(["#"]) == "#";
    assert "#" + "\n" == "#\n";
    assert put == ["#"] + NewLines(New(true), "", Header(section), Entry(key, value));
  }
}
