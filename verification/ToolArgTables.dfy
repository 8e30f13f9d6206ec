/** The alias tables of the curated tools, and the laws of canonicalisation for them. */
module ToolArgTables {
  import opened Wrappers
  import opened Collections
  import opened ToolArgs

  const CODE: Group := Group("code", [
    "cmd", "command", "commandline", "shell", "script", "bash", "sh", "code_run", "coderun", "source",
    "content", "input", "snippet", "program", "python", "text"])
  const CODE_TYPE: Group := Group("type", [
    "mode", "lang", "language", "interpreter", "kind", "runtime", "codelang"])
  const CODE_TIMEOUT: Group := Group("timeout", [
    "timeoutsecs", "timeoutseconds", "maxtime", "maxseconds", "timeoutvalue"])
  const CODE_MODE: Group := Group("mode", [])
  const FILE: Group := Group("file_path", [
    "path", "file", "filename", "filepath", "filepaths", "target", "source", "src", "dest", "destination",
    "absolutepath", "fullpath", "inputfile", "fileordir", "readpath", "writepath"])
  const CONTENT: Group := Group("content", [
    "text", "data", "body", "contents", "filecontent", "newcontent", "payload", "output", "value", "code", "script"])
  const OLD: Group := Group("old_string", [
    "old", "oldtext", "oldstr", "oldcontent", "find", "search", "before", "from", "original", "targettext", "oldvalue"])
  const NEW: Group := Group("new_string", [
    "new", "newtext", "newstr", "newcontent", "replace", "replacement", "replacementtext", "with", "after", "to",
    "newvalue"])
  const START: Group := Group("start", ["startline", "offset", "from", "begin", "firstline", "linestart"])
  const COUNT: Group := Group("count", ["lines", "limit", "numlines", "linecount", "maxlines", "length"])
  const PATTERN: Group := Group("pattern", ["regex", "regexp", "query", "match", "globpattern", "filepattern"])
  const DIR: Group := Group("path", [
    "directory", "dir", "base", "basepath", "root", "folder", "searchpath", "cwd"])
  const INCLUDE: Group := Group("include", ["glob", "filter", "fileglob", "includepattern", "include_pattern"])
  const QUESTION: Group := Group("question", ["q", "prompt", "query", "text", "message", "ask"])
  const CANDIDATES: Group := Group("candidates", ["options", "choices", "suggestions", "answers"])

  const CODE_RUN_NAMES: seq<string> := ["coderun", "bash", "shell", "run", "execute", "exec", "terminal"]
  const READ_NAMES: seq<string> := ["read", "fileread", "readfile", "cat", "view"]
  const WRITE_NAMES: seq<string> := ["write", "filewrite", "writefile", "create", "save", "writefilecontent"]
  const EDIT_NAMES: seq<string> := ["edit", "patch", "fileedit", "editfile", "replace", "strreplace", "applypatch"]
  const GLOB_NAMES: seq<string> := ["glob", "listfiles", "find"]
  const GREP_NAMES: seq<string> := ["grep", "search", "rg", "searchfiles"]
  const LS_NAMES: seq<string> := ["ls", "list", "listdir", "dir"]

  /** The table of a tool, by its normalised name. */
  function GroupsFor(toolNorm: string): (g: Option<seq<Group>>)
    ensures g.Some? ==> g.value != []
  {
    if toolNorm in CODE_RUN_NAMES then Some(CODE_TABLE)
    else if toolNorm in READ_NAMES then Some([FILE, START, COUNT])
    else if toolNorm in WRITE_NAMES then Some([FILE, CONTENT])
    else if toolNorm in EDIT_NAMES then Some([FILE, OLD, NEW])
    else if toolNorm in GLOB_NAMES then Some([PATTERN, DIR])
    else if toolNorm in GREP_NAMES then Some([PATTERN, DIR, INCLUDE])
    else if toolNorm in LS_NAMES then Some([DIR, FILE])
    else if toolNorm == "askuser" then Some([QUESTION, CANDIDATES])
    else None
  }

  const CORRUPT_CALL_KEY: string := "__oz_corrupted_call"

  /** Re-key the arguments of a call to `tool`; `order` is how its map is walked. */
  function Canonicalize(tool: string, args: Args, order: seq<string>): (r: Args) {
    match args
    case Bare(_) => args
    case Obj(m) =>
      var groups := GroupsFor(NormKey(tool));
      if CORRUPT_CALL_KEY in m || groups.None? then args
      else Obj(Canonical(groups.value, NormKey(tool), m, order))
  }

  ghost predicate WalksArgs(order: seq<string>, args: Args) {
    args.Obj? ==> Walks(order, args.fields.Keys)
  }

  // ── The tables satisfy what the laws need ─────────────────────────

  /** A name with one character that normalising drops. */
  lemma {:induction false} NormDropsOne(s: string, p: nat, n: nat)
    requires p < n <= |s| && !IsAlphanumeric(s[p])
    requires IsNormal(s[..p]) && IsNormal(s[p + 1..n])
    ensures NormPrefix(s, n) == s[..p] + s[p + 1..n]
  {
    if n == p + 1 {
      NormalPrefix(s, p);
      assert s[p + 1..n] == "";
    } else {
      var tail := s[p + 1..n];
      assert tail[|tail| - 1] == s[n - 1];
      assert tail[..|tail| - 1] == s[p + 1..n - 1];
      NormDropsOne(s, p, n - 1);
    }
  }

  lemma NormOfTwoWords(s: string, p: nat, norm: string)
    requires p < |s| && s[p] == '_' && IsNormal(s[..p]) && IsNormal(s[p + 1..])
    requires norm == s[..p] + s[p + 1..]
    ensures NormKey(s) == norm
  {
    assert s[p + 1..|s|] == s[p + 1..];
    NormDropsOne(s, p, |s|);
  }

  lemma CodeNorms()
    ensures NormKey("code") == "code" && NormKey("type") == "type"
    ensures NormKey("timeout") == "timeout" && NormKey("mode") == "mode"
  {
    NormalIsFixed("code");
    NormalIsFixed("type");
    NormalIsFixed("timeout");
    NormalIsFixed("mode");
  }

  lemma FileNorms()
    ensures NormKey("file_path") == "filepath" && NormKey("content") == "content"
    ensures NormKey("old_string") == "oldstring" && NormKey("new_string") == "newstring"
  {
    NormOfTwoWords("file_path", 4, "filepath");
    NormalIsFixed("content");
    NormOfTwoWords("old_string", 3, "oldstring");
    NormOfTwoWords("new_string", 3, "newstring");
  }

  lemma SearchNorms()
    ensures NormKey("start") == "start" && NormKey("count") == "count" && NormKey("pattern") == "pattern"
    ensures NormKey("path") == "path" && NormKey("include") == "include"
  {
    NormalIsFixed("start");
    NormalIsFixed("count");
    NormalIsFixed("pattern");
    NormalIsFixed("path");
    NormalIsFixed("include");
  }

  lemma AskNorms()
    ensures NormKey("question") == "question" && NormKey("candidates") == "candidates"
  {
    NormalIsFixed("question");
    NormalIsFixed("candidates");
  }

  /** No canonical key of the table is `type`, reads like `type`, or reads like the tool. */
  predicate PlainTable(groups: seq<Group>, toolNorm: string) {
    forall i | 0 <= i < |groups| ::
      groups[i].canon != "type" && NormKey(groups[i].canon) != "type" && NormKey(groups[i].canon) != toolNorm
  }

  lemma PlainTableIsProtected(groups: seq<Group>, toolNorm: string)
    requires groups != [] && PlainTable(groups, toolNorm)
    ensures Protected(groups, toolNorm)
    ensures forall k | IsCanonical(groups, k) :: !IsTypeNorm(groups, NormKey(k))
  {
    forall k | IsCanonical(groups, k) ensures !IsTypeNorm(groups, NormKey(k)) {
      var g :| g in groups && g.canon == k;
      var i :| 0 <= i < |groups| && groups[i] == g;
    }
  }

  lemma ReadIsPlain(toolNorm: string)
    requires toolNorm in READ_NAMES
    ensures PlainTable([FILE, START, COUNT], toolNorm)
  {
    FileNorms();
    SearchNorms();
  }

  lemma WriteIsPlain(toolNorm: string)
    requires toolNorm in WRITE_NAMES
    ensures PlainTable([FILE, CONTENT], toolNorm)
  {
    FileNorms();
  }

  lemma EditIsPlain(toolNorm: string)
    requires toolNorm in EDIT_NAMES
    ensures PlainTable([FILE, OLD, NEW], toolNorm)
  {
    FileNorms();
  }

  lemma GlobIsPlain(toolNorm: string)
    requires toolNorm in GLOB_NAMES
    ensures PlainTable([PATTERN, DIR], toolNorm)
  {
    SearchNorms();
  }

  lemma GrepIsPlain(toolNorm: string)
    requires toolNorm in GREP_NAMES
    ensures PlainTable([PATTERN, DIR, INCLUDE], toolNorm)
  {
    SearchNorms();
  }

  lemma LsIsPlain(toolNorm: string)
    requires toolNorm in LS_NAMES
    ensures PlainTable([DIR, FILE], toolNorm)
  {
    SearchNorms();
    FileNorms();
  }

  lemma AskIsPlain()
    ensures PlainTable([QUESTION, CANDIDATES], "askuser")
  {
    AskNorms();
  }

  lemma PlainTables(toolNorm: string)
    requires GroupsFor(toolNorm).Some? && toolNorm !in CODE_RUN_NAMES
    ensures PlainTable(GroupsFor(toolNorm).value, toolNorm)
  {
    if toolNorm in READ_NAMES {
      ReadIsPlain(toolNorm);
    } else if toolNorm in WRITE_NAMES {
      WriteIsPlain(toolNorm);
    } else if toolNorm in EDIT_NAMES {
      EditIsPlain(toolNorm);
    } else if toolNorm in GLOB_NAMES {
      GlobIsPlain(toolNorm);
    } else if toolNorm in GREP_NAMES {
      GrepIsPlain(toolNorm);
    } else if toolNorm in LS_NAMES {
      LsIsPlain(toolNorm);
    } else {
      AskIsPlain();
    }
  }

  const CODE_TABLE: seq<Group> := [CODE, CODE_TYPE, CODE_TIMEOUT, CODE_MODE]

  /** The names that may hold the language are `type` and its aliases. */
  lemma CodeTypeNames(norm: string)
    requires IsTypeNorm(CODE_TABLE, norm)
    ensures norm == "type" || norm in CODE_TYPE.aliases
  {
    if norm != "type" {
      var i :| 0 <= i < |CODE_TABLE| && CODE_TABLE[i].canon == "type" && IsAlias(CODE_TABLE[i], norm);
      assert CODE_TABLE[i] == CODE_TYPE;
      var a :| a in CODE_TYPE.aliases && NormKey(a) == norm;
      AliasIsNormal(a);
    }
  }

  lemma AliasIsNormal(a: string)
    requires a in CODE_TYPE.aliases
    ensures NormKey(a) == a
  {
    assert forall i | 0 <= i < |CODE_TYPE.aliases| :: IsNormal(CODE_TYPE.aliases[i]);
    NormalIsFixed(a);
  }

  /** In the code table only `mode` reads like a type key without being `type`. */
  lemma CodeCanonical(k: string)
    requires IsCanonical(CODE_TABLE, k) && IsTypeNorm(CODE_TABLE, NormKey(k))
    ensures k == "type" || k == "mode"
  {
    CodeNorms();
    CodeTypeNames(NormKey(k));
    assert k in ["code", "type", "timeout", "mode"];
  }

  lemma CodeTableIsProtected(toolNorm: string)
    requires toolNorm in CODE_RUN_NAMES
    ensures Protected(CODE_TABLE, toolNorm)
  {
    CodeNorms();
    forall i | 0 <= i < |CODE_TABLE| && IsTypeNorm(CODE_TABLE, NormKey(CODE_TABLE[i].canon))
      ensures CODE_TABLE[i].canon == "type" || CODE_TABLE[i] == CODE_MODE
    {
      assert CODE_TABLE[i] in CODE_TABLE;
      CodeCanonical(CODE_TABLE[i].canon);
    }
  }

  lemma TablesAreProtected(toolNorm: string)
    requires GroupsFor(toolNorm).Some?
    ensures Protected(GroupsFor(toolNorm).value, toolNorm)
  {
    if toolNorm in CODE_RUN_NAMES {
      CodeTableIsProtected(toolNorm);
    } else {
      PlainTables(toolNorm);
      PlainTableIsProtected(GroupsFor(toolNorm).value, toolNorm);
    }
  }

  // ── The laws ──────────────────────────────────────────────────────

  /** A corrupted call reaches the dispatcher as it is, whatever the tool: its one unknown string is not
    * taken for an argument.  So do a bare value, and the arguments of a tool without a table. */
  lemma OthersPassThrough(tool: string, args: Args, order: seq<string>)
    requires args.Bare? || "__oz_corrupted_call" in args.fields || GroupsFor(NormKey(tool)).None?
    ensures Canonicalize(tool, args, order) == args
  {
  }

  /** Canonicalising the arguments of any call twice is canonicalising them once. */
  lemma CanonicalizeIsIdempotent(tool: string, args: Args, order: seq<string>, order': seq<string>)
    requires WalksArgs(order, args) && WalksArgs(order', Canonicalize(tool, args, order))
    ensures Canonicalize(tool, Canonicalize(tool, args, order), order') == Canonicalize(tool, args, order)
  {
    var groups := GroupsFor(NormKey(tool));
    if args.Obj? && CORRUPT_CALL_KEY !in args.fields && groups.Some? {
      TablesAreProtected(NormKey(tool));
      CanonicalIsIdempotent(groups.value, NormKey(tool), args.fields, order, order');
    }
  }

  /** For a curated tool: no canonical key of the call is overwritten, and the only one that
    * can be moved is code_run's `mode`, when it holds a language and there is no `type`; every
    * value of the result is one of the call; and a key that is gone had its value moved or
    * names a canonical key that is present. */
  lemma CanonicalizeIsFaithful(tool: string, m: Object, order: seq<string>)
    requires Walks(order, m.Keys) && "__oz_corrupted_call" !in m && GroupsFor(NormKey(tool)).Some?
    ensures var groups, out := GroupsFor(NormKey(tool)).value, Canonicalize(tool, Obj(m), order).fields;
      && (forall k | k in m && IsCanonical(groups, k) ::
            || (k in out && out[k] == m[k])
            || (k == "mode" && NormKey(tool) in CODE_RUN_NAMES && IsLanguage(m[k]) && "type" !in m
                && k !in out && "type" in out && out["type"] == m[k]))
      && (forall k | k in out :: if k in m then out[k] == m[k] else IsCanonical(groups, k) && HasValue(m, out[k]))
      && (forall k | k in m && k !in out ::
            || (exists c :: c in out && c !in m && IsCanonical(groups, c) && out[c] == m[k])
            || (!IsCanonical(groups, k) && IsRedundant(groups, NormKey(tool), out, NormKey(k))))
  {
    var toolNorm := NormKey(tool);
    var groups := GroupsFor(toolNorm).value;
    TablesAreProtected(toolNorm);
    CanonicalIsFaithful(groups, toolNorm, m, order);
    var out := Canonicalize(tool, Obj(m), order).fields;
    forall k | k in m && IsCanonical(groups, k) && k !in out
      ensures k == "mode" && toolNorm in CODE_RUN_NAMES
    {
      if toolNorm in CODE_RUN_NAMES {
        CodeCanonical(k);
      } else {
        PlainTables(toolNorm);
        PlainTableIsProtected(groups, toolNorm);
      }
    }
  }
}
