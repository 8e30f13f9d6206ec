/** White space and trimming, as `trim` does it. */
module Text {

  /** Unicode white space. */
  predicate IsSpace(c: char) {
    || '\U{9}' <= c <= '\U{D}' || c == ' ' || c == '\U{85}' || c == '\U{A0}' || c == '\U{1680}'
    || '\U{2000}' <= c <= '\U{200A}' || c == '\U{2028}' || c == '\U{2029}' || c == '\U{202F}'
    || c == '\U{205F}' || c == '\U{3000}'
  }

  function TrimStart(s: string): (r: string) {
    if s != "" && IsSpace(s[0]) then TrimStart(s[1..]) else s
  }

  function TrimEnd(s: string): (r: string) {
    if s != "" && IsSpace(s[|s| - 1]) then TrimEnd(s[..|s| - 1]) else s
  }

  function Trim(s: string): (r: string) {
    TrimEnd(TrimStart(s))
  }

  /** No white space at either end. */
  predicate IsBare(s: string) {
    s == "" || (!IsSpace(s[0]) && !IsSpace(s[|s| - 1]))
  }

  lemma {:induction false} TrimStartIs(space: string, s: string)
    requires (forall c | c in space :: IsSpace(c)) && (s == "" || !IsSpace(s[0]))
    ensures TrimStart(space + s) == s
  {
    if space == "" {
      assert space + s == s;
    } else {
      assert (space + s)[1..] == space[1..] + s;
      TrimStartIs(space[1..], s);
    }
  }

  lemma {:induction false} TrimEndIs(s: string, space: string)
    requires (forall c | c in space :: IsSpace(c)) && (s == "" || !IsSpace(s[|s| - 1]))
    ensures TrimEnd(s + space) == s
  {
    if space == "" {
      assert s + space == s;
    } else {
      var n := |space| - 1;
      assert (s + space)[..|s| + n] == s + space[..n];
      TrimEndIs(s, space[..n]);
    }
  }

  lemma {:induction false} TrimmedEnds(s: string)
    ensures var t := TrimStart(s); t == "" || !IsSpace(t[0])
    ensures var t := TrimEnd(s); t <= s && (t == "" || !IsSpace(t[|t| - 1]))
    decreases |s|
  {
    if s != "" {
      if IsSpace(s[0]) {
        TrimmedEnds(s[1..]);
      }
      if IsSpace(s[|s| - 1]) {
        TrimmedEnds(s[..|s| - 1]);
      }
    }
  }

  lemma BareIsTrimmed(s: string)
    requires s == "" || (!IsSpace(s[0]) && !IsSpace(s[|s| - 1]))
    ensures Trim(s) == s
  {
    TrimStartIs("", s);
    TrimEndIs(s, "");
    assert "" + s == s == s + "";
  }

  /** Trimming takes away exactly the white space at both ends. */
  lemma TrimIs(before: string, s: string, after: string)
    requires (forall c | c in before + after :: IsSpace(c)) && IsBare(s)
    ensures Trim(before + s + after) == s
  {
    if s == "" {
      TrimStartIs(before + after, "");
      assert before + "" + after == (before + after) + "";
    } else {
      TrimStartIs(before, s + after);
      TrimEndIs(s, after);
      assert before + s + after == before + (s + after);
    }
  }

  lemma TrimKeepsFirst(before: string, s: string)
    requires (forall c | c in before :: IsSpace(c)) && s != "" && !IsSpace(s[0])
    ensures Trim(before + s) != "" && Trim(before + s)[0] == s[0]
  {
    TrimStartIs(before, s);
    TrimmedEnds(s);
    EndKeepsFirst(s);
  }

  lemma {:induction false} EndKeepsFirst(s: string)
    requires s != "" && !IsSpace(s[0])
    ensures TrimEnd(s) != "" && TrimEnd(s)[0] == s[0]
    decreases |s|
  {
    if |s| > 1 && IsSpace(s[|s| - 1]) {
      EndKeepsFirst(s[..|s| - 1]);
    }
  }
}
