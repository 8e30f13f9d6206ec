/** Rebuilding the conversation an agent sees from the stored messages of a session. */
module History {
  import opened Wrappers
  import opened Collections

  // ── Stored messages ───────────────────────────────────────────────

  /** A stored tool result; a missing field reads as "". */
  datatype Stored = Stored(id: string, content: string)

  /** A stored tool use: the id only if it is text. */
  datatype Use = Use(id: Option<string>, name: string, input: string)

  datatype Results = Absent | NotAList | Listed(list: seq<Stored>)

  datatype Role = User | Assistant | Tool | OtherRole | NoRole

  /** A stored message; `uses` is None if `tool_use_blocks` is missing or no list. */
  datatype Record = Record(role: Role, content: string, uses: Option<seq<Use>>, results: Results,
                           toolId: string, toolName: string)

  // ── Conversation ──────────────────────────────────────────────────

  datatype Block =
    | Text(s: string)
    | ToolUse(id: string, name: string, input: string)
    | ToolResult(tool: string, content: string)

  datatype Message =
    | Says(content: string)
    | Replies(content: string)
    | UserBlocks(blocks: seq<Block>)
    | AssistantBlocks(blocks: seq<Block>)

  function ResultBlock(id: string, content: string): seq<Block> {
    if id != "" then [ToolResult(id, content)] else []
  }

  /** The results with an id, as blocks. */
  function ResultBlocks(list: seq<Stored>): (r: seq<Block>) {
    if list == [] then []
    else ResultBlocks(list[..|list| - 1]) + ResultBlock(list[|list| - 1].id, list[|list| - 1].content)
  }

  /** The length of the run of tool messages from `i` on. */
  function RunLength(slice: seq<Record>, i: nat): (n: nat)
    requires i <= |slice|
    ensures i + n <= |slice| && forall j | i <= j < i + n :: slice[j].role.Tool?
    ensures i + n < |slice| ==> !slice[i + n].role.Tool?
    decreases |slice| - i
  {
    if i < |slice| && slice[i].role.Tool? then 1 + RunLength(slice, i + 1) else 0
  }

  /** The tool uses that the run of tool messages implies. */
  function LegacyUses(run: seq<Record>): (uses: seq<Use>) {
    if run == [] then []
    else
      var last := run[|run| - 1];
      LegacyUses(run[..|run| - 1]) + if last.toolId != "" then [Use(Some(last.toolId), last.toolName, "{}")] else []
  }

  predicate HasToolUses(m: Record) {
    m.uses.Some? && exists u :: u in m.uses.value && u.id.Some?
  }

  /** The uses an assistant message is emitted with. */
  function UsesOf(slice: seq<Record>, i: nat): (uses: seq<Use>)
    requires i < |slice|
  {
    var m := slice[i];
    var legacy := if HasToolUses(m) then [] else LegacyUses(slice[i + 1..i + 1 + RunLength(slice, i + 1)]);
    if m.uses.Some? then m.uses.value else legacy
  }

  function IdOf(u: Use): string {
    if u.id.Some? then u.id.value else ""
  }

  /** `blocks` and the uses with an id, each id once. */
  function AddUses(blocks: seq<Block>, uses: seq<Use>): (r: seq<Block>) {
    if uses == [] then blocks
    else
      var front, u := AddUses(blocks, uses[..|uses| - 1]), uses[|uses| - 1];
      if IdOf(u) != "" && IdOf(u) !in Ids(uses[..|uses| - 1])
      then front + [ToolUse(IdOf(u), u.name, u.input)] else front
  }

  function Ids(uses: seq<Use>): set<string> {
    set u | u in uses && IdOf(u) != "" :: IdOf(u)
  }

  function AssistantMessage(content: string, uses: seq<Use>): Message {
    if uses == [] then Replies(content)
    else
      var blocks := AddUses(if content != "" then [Text(content)] else [], uses);
      AssistantBlocks(if blocks == [] then [Text("")] else blocks)
  }

  // ── The loop ──────────────────────────────────────────────────────

  datatype State = State(out: seq<Message>, pending: seq<Block>, skip: bool)

  function Flush(out: seq<Message>, pending: seq<Block>): seq<Message> {
    if pending == [] then out else out + [UserBlocks(pending)]
  }

  /** The next message is plain user text, which is merged into this one. */
  predicate MergesNext(slice: seq<Record>, i: nat)
    requires i < |slice|
  {
    && slice[i].content == "" && i + 1 < |slice|
    && slice[i + 1].role.User? && slice[i + 1].results.Absent? && slice[i + 1].content != ""
  }

  function UserStep(slice: seq<Record>, i: nat, out: seq<Message>): State
    requires i < |slice|
  {
    var m := slice[i];
    if m.results.Listed? then
      var text := if m.content != "" then [Text(m.content)]
                  else if MergesNext(slice, i) then [Text(slice[i + 1].content)] else [];
      State(Flush(out, ResultBlocks(m.results.list) + text), [], MergesNext(slice, i))
    else State(out + [Says(m.content)], [], false)
  }

  function Step(slice: seq<Record>, i: nat, st: State): State
    requires i < |slice|
  {
    var m := slice[i];
    if st.skip then st.(skip := false)
    else
      match m.role
      case User => UserStep(slice, i, Flush(st.out, st.pending))
      case Assistant => State(Flush(st.out, st.pending) + [AssistantMessage(m.content, UsesOf(slice, i))], [], false)
      case Tool => st.(pending := st.pending + ResultBlock(m.toolId, m.content))
      case OtherRole | NoRole => st
  }

  function Fold(slice: seq<Record>, i: nat): (st: State)
    requires i <= |slice|
  {
    if i == 0 then State([], [], false) else Step(slice, i - 1, Fold(slice, i - 1))
  }

  /** The last message is the one being answered. */
  function Slice(messages: seq<Record>): seq<Record> {
    if messages == [] then [] else messages[..|messages| - 1]
  }

  function Build(messages: seq<Record>): (out: seq<Message>) {
    var st := Fold(Slice(messages), |Slice(messages)|);
    Flush(st.out, st.pending)
  }

  // ── The same, as the program does it ──────────────────────────────

  lemma RunSnoc(slice: seq<Record>, i: nat, j: nat)
    requires i <= j < |slice|
    ensures LegacyUses(slice[i..j + 1]) == LegacyUses(slice[i..j])
      + if slice[j].toolId != "" then [Use(Some(slice[j].toolId), slice[j].toolName, "{}")] else []
  {
    assert slice[i..j + 1][..j - i] == slice[i..j];
  }

  method CollectLegacyUses(slice: seq<Record>, i: nat) returns (acc: seq<Use>)
    requires i < |slice|
    ensures acc == LegacyUses(slice[i + 1..i + 1 + RunLength(slice, i + 1)])
  {
    acc := [];
    var j := i + 1;
    while j < |slice| && slice[j].role.Tool?
      invariant i < j <= |slice| && acc == LegacyUses(slice[i + 1..j])
      invariant RunLength(slice, i + 1) == j - (i + 1) + RunLength(slice, j)
      decreases |slice| - j
    {
      RunSnoc(slice, i + 1, j);
      if slice[j].toolId != "" {
        acc := acc + [Use(Some(slice[j].toolId), slice[j].toolName, "{}")];
      }
      j := j + 1;
    }
  }

  lemma UsesPrefix(blocks: seq<Block>, uses: seq<Use>, i: nat)
    requires i < |uses|
    ensures var u, front := uses[i], uses[..i];
      && AddUses(blocks, uses[..i + 1]) == (if IdOf(u) != "" && IdOf(u) !in Ids(front)
           then AddUses(blocks, front) + [ToolUse(IdOf(u), u.name, u.input)] else AddUses(blocks, front))
      && Ids(uses[..i + 1]) == Ids(front) + if IdOf(u) != "" then {IdOf(u)} else {}
  {
    assert uses[..i + 1][..i] == uses[..i];
    assert forall x :: x in uses[..i + 1] <==> x in uses[..i] || x == uses[i];
  }

  method EmitUses(content: string, uses: seq<Use>) returns (blocks: seq<Block>)
    ensures blocks == AddUses(if content != "" then [Text(content)] else [], uses)
  {
    blocks := if content != "" then [Text(content)] else [];
    ghost var text := blocks;
    var seen: set<string> := {};
    for i := 0 to |uses|
      invariant blocks == AddUses(text, uses[..i]) && seen == Ids(uses[..i])
    {
      UsesPrefix(text, uses, i);
      var id := IdOf(uses[i]);
      if id != "" && id !in seen {
        seen := seen + {id};
        blocks := blocks + [ToolUse(id, uses[i].name, uses[i].input)];
      }
    }
    assert uses[..|uses|] == uses;
  }

  method PushResults(list: seq<Stored>) returns (pending: seq<Block>)
    ensures pending == ResultBlocks(list)
  {
    pending := [];
    for i := 0 to |list|
      invariant pending == ResultBlocks(list[..i])
    {
      assert list[..i + 1][..i] == list[..i];
      pending := pending + ResultBlock(list[i].id, list[i].content);
    }
    assert list[..|list|] == list;
  }

  /** One assistant message. */
  method AssistantTurn(slice: seq<Record>, i: nat) returns (msg: Message)
    requires i < |slice|
    ensures msg == AssistantMessage(slice[i].content, UsesOf(slice, i))
  {
    var m := slice[i];
    var uses;
    if m.uses.Some? {
      uses := m.uses.value;
    } else {
      uses := CollectLegacyUses(slice, i);
    }
    if uses == [] {
      return Replies(m.content);
    }
    var blocks := EmitUses(m.content, uses);
    msg := AssistantBlocks(if blocks == [] then [Text("")] else blocks);
  }

  /** `build_history_messages`. */
  method BuildHistoryMessages(messages: seq<Record>) returns (out: seq<Message>)
    ensures out == Build(messages)
  {
    if messages == [] {
      return [];
    }
    var slice := messages[..|messages| - 1];
    out := [];
    var pending: seq<Block>, skip := [], false;
    for i := 0 to |slice|
      invariant State(out, pending, skip) == Fold(slice, i)
    {
      var m := slice[i];
      if skip {
        skip := false;
      } else if m.role.User? || m.role.Assistant? {
        if pending != [] {
          out, pending := out + [UserBlocks(pending)], [];
        }
        if m.role.Assistant? {
          var msg := AssistantTurn(slice, i);
          out := out + [msg];
        } else if m.results.Listed? {
          pending := PushResults(m.results.list);
          if m.content != "" {
            pending := pending + [Text(m.content)];
          } else if MergesNext(slice, i) {
            pending := pending + [Text(slice[i + 1].content)];
            skip := true;
          } else {
            assert pending + [] == pending;
          }
          if pending != [] {
            out, pending := out + [UserBlocks(pending)], [];
          }
        } else {
          out := out + [Says(m.content)];
        }
      } else if m.role.Tool? {
        pending := pending + ResultBlock(m.toolId, m.content);
      }
    }
    if pending != [] {
      out := out + [UserBlocks(pending)];
    }
  }

  // ── Nothing is lost ───────────────────────────────────────────────

  /** What is said: the results with an id and the texts that are not empty. */
  datatype Piece = Result(tool: string, content: string) | UserText(s: string) | AssistantText(s: string)

  function Spoken(p: Piece, s: string): seq<Piece> {
    if s != "" then [p] else []
  }

  function StoredPieces(list: seq<Stored>): (r: seq<Piece>) {
    if list == [] then []
    else
      var last := list[|list| - 1];
      StoredPieces(list[..|list| - 1]) + Spoken(Result(last.id, last.content), last.id)
  }

  function RecordPieces(m: Record): seq<Piece> {
    match m.role
    case User =>
      (if m.results.Listed? then StoredPieces(m.results.list) else []) + Spoken(UserText(m.content), m.content)
    case Assistant => Spoken(AssistantText(m.content), m.content)
    case Tool => Spoken(Result(m.toolId, m.content), m.toolId)
    case OtherRole | NoRole => []
  }

  /** What the first `i` stored messages say. */
  function Said(slice: seq<Record>, i: nat): (r: seq<Piece>)
    requires i <= |slice|
  {
    if i == 0 then [] else Said(slice, i - 1) + RecordPieces(slice[i - 1])
  }

  function BlockPieces(b: Block, byUser: bool): seq<Piece> {
    match b
    case Text(s) => Spoken(if byUser then UserText(s) else AssistantText(s), s)
    case ToolUse(_, _, _) => []
    case ToolResult(tool, content) => [Result(tool, content)]
  }

  function BlocksPieces(blocks: seq<Block>, byUser: bool): (r: seq<Piece>) {
    if blocks == [] then []
    else BlocksPieces(blocks[..|blocks| - 1], byUser) + BlockPieces(blocks[|blocks| - 1], byUser)
  }

  function MessagePieces(m: Message): seq<Piece> {
    match m
    case Says(s) => Spoken(UserText(s), s)
    case Replies(s) => Spoken(AssistantText(s), s)
    case UserBlocks(blocks) => BlocksPieces(blocks, true)
    case AssistantBlocks(blocks) => BlocksPieces(blocks, false)
  }

  /** What the conversation says. */
  function Heard(out: seq<Message>): (r: seq<Piece>) {
    if out == [] then [] else Heard(out[..|out| - 1]) + MessagePieces(out[|out| - 1])
  }

  lemma HeardSnoc(out: seq<Message>, m: Message)
    ensures Heard(out + [m]) == Heard(out) + MessagePieces(m)
  {
    assert (out + [m])[..|out|] == out;
  }

  lemma BlocksSnoc(a: seq<Block>, b: Block, byUser: bool)
    ensures BlocksPieces(a + [b], byUser) == BlocksPieces(a, byUser) + BlockPieces(b, byUser)
  {
    assert (a + [b])[..|a|] == a;
  }

  lemma {:induction false} BlocksAppend(a: seq<Block>, b: seq<Block>, byUser: bool)
    ensures BlocksPieces(a + b, byUser) == BlocksPieces(a, byUser) + BlocksPieces(b, byUser)
  {
    if b == [] {
      assert a + b == a;
    } else {
      var front, last := b[..|b| - 1], b[|b| - 1];
      BlocksAppend(a, front, byUser);
      assert a + b == (a + front) + [last];
      BlocksSnoc(a + front, last, byUser);
      Regroup(BlocksPieces(a, byUser), BlocksPieces(front, byUser), BlockPieces(last, byUser));
    }
  }

  lemma {:induction false} ResultsSay(list: seq<Stored>)
    ensures BlocksPieces(ResultBlocks(list), true) == StoredPieces(list)
  {
    if list != [] {
      var front, last := list[..|list| - 1], list[|list| - 1];
      ResultsSay(front);
      ResultSays(last.id, last.content);
      BlocksAppend(ResultBlocks(front), ResultBlock(last.id, last.content), true);
    }
  }

  lemma ResultSays(id: string, content: string)
    ensures BlocksPieces(ResultBlock(id, content), true) == Spoken(Result(id, content), id)
  {
  }

  lemma {:induction false} UsesSayNothing(blocks: seq<Block>, uses: seq<Use>)
    ensures BlocksPieces(AddUses(blocks, uses), false) == BlocksPieces(blocks, false)
  {
    if uses != [] {
      var front, u := uses[..|uses| - 1], uses[|uses| - 1];
      UsesSayNothing(blocks, front);
      if IdOf(u) != "" && IdOf(u) !in Ids(front) {
        var added := AddUses(blocks, front) + [ToolUse(IdOf(u), u.name, u.input)];
        assert added[..|added| - 1] == AddUses(blocks, front);
      }
    }
  }

  lemma AssistantSays(content: string, uses: seq<Use>)
    ensures MessagePieces(AssistantMessage(content, uses)) == Spoken(AssistantText(content), content)
  {
    if uses != [] {
      var text: seq<Block> := if content != "" then [Text(content)] else [];
      UsesSayNothing(text, uses);
      assert BlocksPieces(text, false) == Spoken(AssistantText(content), content);
    }
  }

  lemma FlushSays(out: seq<Message>, pending: seq<Block>)
    ensures Heard(Flush(out, pending)) == Heard(out) + BlocksPieces(pending, true)
  {
    if pending == [] {
      assert Heard(out) + [] == Heard(out);
    } else {
      HeardSnoc(out, UserBlocks(pending));
    }
  }

  /** What has been said once `i` messages are done, and one more if that is to be skipped. */
  function Due(slice: seq<Record>, i: nat, skip: bool): seq<Piece>
    requires i <= |slice|
  {
    if skip && i < |slice| then Said(slice, i + 1) else Said(slice, i)
  }

  /** The loop invariant: what was heard or is pending is what was said, and a message that is
    * skipped has been heard already. */
  predicate Kept(slice: seq<Record>, i: nat, st: State)
    requires i <= |slice|
  {
    && Heard(Flush(st.out, st.pending)) == Due(slice, i, st.skip)
    && (st.skip ==> i < |slice| && slice[i].role.User?)
  }

  lemma FlushMore(out: seq<Message>, pending: seq<Block>, more: seq<Block>)
    ensures Heard(Flush(out, pending + more)) == Heard(Flush(out, pending)) + BlocksPieces(more, true)
  {
    FlushSays(out, pending);
    FlushSays(out, pending + more);
    BlocksAppend(pending, more, true);
    Regroup(Heard(out), BlocksPieces(pending, true), BlocksPieces(more, true));
  }

  /** What a user message adds, with the text of the next one if that is merged into it. */
  function UserBlocksOf(slice: seq<Record>, i: nat): seq<Block>
    requires i < |slice| && slice[i].results.Listed?
  {
    ResultBlocks(slice[i].results.list)
    + if slice[i].content != "" then [Text(slice[i].content)]
      else if MergesNext(slice, i) then [Text(slice[i + 1].content)] else []
  }

  lemma OneText(s: string)
    ensures BlocksPieces([Text(s)], true) == Spoken(UserText(s), s)
    ensures BlocksPieces([], true) == []
  {
    assert [Text(s)][..0] == [];
  }

  lemma UserSays(slice: seq<Record>, i: nat, said: seq<Piece>)
    requires i < |slice| && slice[i].role.User? && slice[i].results.Listed?
    ensures said + BlocksPieces(UserBlocksOf(slice, i), true)
         == if MergesNext(slice, i) then said + RecordPieces(slice[i]) + RecordPieces(slice[i + 1])
            else said + RecordPieces(slice[i])
  {
    var m := slice[i];
    var results := StoredPieces(m.results.list);
    ResultsSay(m.results.list);
    if m.content != "" {
      OneText(m.content);
      BlocksAppend(ResultBlocks(m.results.list), [Text(m.content)], true);
    } else if MergesNext(slice, i) {
      OneText(slice[i + 1].content);
      BlocksAppend(ResultBlocks(m.results.list), [Text(slice[i + 1].content)], true);
      assert RecordPieces(m) == results + [] == results;
      assert RecordPieces(slice[i + 1]) == [] + Spoken(UserText(slice[i + 1].content), slice[i + 1].content);
      Regroup(said, results, RecordPieces(slice[i + 1]));
    } else {
      assert UserBlocksOf(slice, i) == ResultBlocks(m.results.list);
      assert RecordPieces(m) == results + [] == results;
    }
  }

  lemma SaidNext(slice: seq<Record>, i: nat)
    requires i < |slice|
    ensures Said(slice, i + 1) == Said(slice, i) + RecordPieces(slice[i])
  {
  }

  lemma UserKeeps(slice: seq<Record>, i: nat, out: seq<Message>)
    requires i < |slice| && slice[i].role.User? && Heard(out) == Said(slice, i)
    ensures Kept(slice, i + 1, UserStep(slice, i, out))
  {
    var m, st := slice[i], UserStep(slice, i, out);
    SaidNext(slice, i);
    if m.results.Listed? {
      if MergesNext(slice, i) {
        SaidNext(slice, i + 1);
      }
      UserSays(slice, i, Said(slice, i));
      FlushSays(out, UserBlocksOf(slice, i));
    } else {
      HeardSnoc(out, Says(m.content));
      assert RecordPieces(m) == [] + Spoken(UserText(m.content), m.content) == Spoken(UserText(m.content), m.content);
    }
  }

  lemma AssistantKeeps(slice: seq<Record>, i: nat, out: seq<Message>)
    requires i < |slice| && slice[i].role.Assistant? && Heard(out) == Said(slice, i)
    ensures Kept(slice, i + 1, State(out + [AssistantMessage(slice[i].content, UsesOf(slice, i))], [], false))
  {
    AssistantSays(slice[i].content, UsesOf(slice, i));
    HeardSnoc(out, AssistantMessage(slice[i].content, UsesOf(slice, i)));
  }

  lemma ToolKeeps(slice: seq<Record>, i: nat, st: State)
    requires i < |slice| && slice[i].role.Tool? && !st.skip && Kept(slice, i, st)
    ensures Kept(slice, i + 1, st.(pending := st.pending + ResultBlock(slice[i].toolId, slice[i].content)))
  {
    ResultSays(slice[i].toolId, slice[i].content);
    FlushMore(st.out, st.pending, ResultBlock(slice[i].toolId, slice[i].content));
  }

  lemma SkipKeeps(slice: seq<Record>, i: nat, st: State)
    requires i < |slice| && Kept(slice, i, st)
    requires st.skip || slice[i].role.OtherRole? || slice[i].role.NoRole?
    ensures Kept(slice, i + 1, st.(skip := false))
  {
    if !st.skip {
      assert Said(slice, i) + [] == Said(slice, i);
    }
  }

  lemma StepKeeps(slice: seq<Record>, i: nat, st: State, n: nat, next: State)
    requires i < |slice| && Kept(slice, i, st) && n == i + 1 && next == Step(slice, i, st)
    ensures Kept(slice, n, next)
  {
    if st.skip || slice[i].role.OtherRole? || slice[i].role.NoRole? {
      SkipKeeps(slice, i, st);
    } else if slice[i].role.Tool? {
      ToolKeeps(slice, i, st);
    } else if slice[i].role.User? {
      UserKeeps(slice, i, Flush(st.out, st.pending));
    } else {
      AssistantKeeps(slice, i, Flush(st.out, st.pending));
    }
  }

  lemma StartIsKept(slice: seq<Record>, st: State)
    requires st == State([], [], false)
    ensures Kept(slice, 0, st)
  {
  }

  lemma FoldNext(slice: seq<Record>, i: nat, st: State, n: nat, next: State)
    requires i < |slice| && n == i + 1 && st == Fold(slice, i) && next == Fold(slice, n)
    ensures next == Step(slice, i, st)
  {
  }

  lemma StepFold(slice: seq<Record>, i: nat, st: State, n: nat) returns (next: State)
    requires i < |slice| && n == i + 1 && st == Fold(slice, i) && Kept(slice, i, st)
    ensures next == Fold(slice, n)
    ensures Kept(slice, n, next)
  {
    next := Fold(slice, n);
    FoldNext(slice, i, st, n, next);
    StepKeeps(slice, i, st, n, next);
  }

  lemma FoldKeeps(slice: seq<Record>, i: nat) returns (st: State)
    requires i <= |slice|
    ensures st == Fold(slice, i)
    ensures Kept(slice, i, st)
  {
    st := State([], [], false);
    StartIsKept(slice, st);
    var k := 0;
    while k < i
      invariant k <= i && st == Fold(slice, k)
      invariant Kept(slice, k, st)
    {
      st := StepFold(slice, k, st, k + 1);
      k := k + 1;
    }
  }

  /** Every tool result with an id and every text that is not empty is heard exactly once, in the
    * order it was stored, from the same speaker; nothing else is. */
  lemma HistoryIsConserved(messages: seq<Record>)
    ensures Heard(Build(messages)) == Said(Slice(messages), |Slice(messages)|)
  {
    var slice := Slice(messages);
    var st := FoldKeeps(slice, |slice|);
  }

  // ── Tool results stand next to their tool uses ────────────────────

  /** The results of a run of tool messages. */
  function RunResults(run: seq<Record>): (r: seq<Block>) {
    if run == [] then []
    else RunResults(run[..|run| - 1]) + ResultBlock(run[|run| - 1].toolId, run[|run| - 1].content)
  }

  function RunIds(run: seq<Record>): set<string> {
    set m | m in run && m.toolId != "" :: m.toolId
  }

  function UseIds(blocks: seq<Block>): set<string> {
    set b | b in blocks && b.ToolUse? :: b.id
  }

  function ResultIds(blocks: seq<Block>): set<string> {
    set b | b in blocks && b.ToolResult? :: b.tool
  }

  function BlocksIn(m: Message): seq<Block> {
    if m.UserBlocks? || m.AssistantBlocks? then m.blocks else []
  }

  /** The ids of an emitted assistant message are those of the uses it was made from. */
  lemma {:induction false} AddedIds(blocks: seq<Block>, uses: seq<Use>)
    requires UseIds(blocks) == {}
    ensures UseIds(AddUses(blocks, uses)) == Ids(uses)
  {
    if uses != [] {
      var n := |uses| - 1;
      AddedIds(blocks, uses[..n]);
      UsesPrefix(blocks, uses, n);
      assert uses[..n + 1] == uses;
      var front, u := AddUses(blocks, uses[..n]), uses[n];
      if IdOf(u) != "" && IdOf(u) !in Ids(uses[..n]) {
        UseIdsSnoc(front, ToolUse(IdOf(u), u.name, u.input));
      }
    }
  }

  lemma UseIdsSnoc(front: seq<Block>, b: Block)
    ensures UseIds(front + [b]) == UseIds(front) + if b.ToolUse? then {b.id} else {}
    ensures ResultIds(front + [b]) == ResultIds(front) + if b.ToolResult? then {b.tool} else {}
  {
    assert forall x :: x in front + [b] <==> x in front || x == b;
  }

  lemma MessageIds(content: string, uses: seq<Use>)
    ensures UseIds(BlocksIn(AssistantMessage(content, uses))) == Ids(uses)
  {
    if uses != [] {
      AddedIds(if content != "" then [Text(content)] else [], uses);
    }
  }

  function UseBlocks(uses: seq<Use>): (blocks: seq<Block>) {
    if uses == [] then []
    else
      var u := uses[|uses| - 1];
      UseBlocks(uses[..|uses| - 1]) + [ToolUse(IdOf(u), u.name, u.input)]
  }

  predicate OwnIds(uses: seq<Use>) {
    forall i | 0 <= i < |uses| :: IdOf(uses[i]) != "" && forall j | 0 <= j < i :: IdOf(uses[j]) != IdOf(uses[i])
  }

  lemma {:induction false} AddsInOrder(blocks: seq<Block>, uses: seq<Use>)
    requires OwnIds(uses)
    ensures AddUses(blocks, uses) == blocks + UseBlocks(uses)
  {
    if uses == [] {
      assert blocks + [] == blocks;
    } else {
      var n := |uses| - 1;
      AddsInOrder(blocks, uses[..n]);
      assert IdOf(uses[n]) !in Ids(uses[..n]);
      var b := ToolUse(IdOf(uses[n]), uses[n].name, uses[n].input);
      assert (blocks + UseBlocks(uses[..n])) + [b] == blocks + UseBlocks(uses);
    }
  }

  /** An assistant message is its text, if it has any, and then its tool uses in order, each with id, name
    * and input; a use without an id, or with that of an earlier one, adds nothing. */
  lemma AssistantMessageIs(content: string, uses: seq<Use>, u: Use)
    ensures uses == [] ==> AssistantMessage(content, uses) == Replies(content)
    ensures uses != [] && OwnIds(uses) ==>
              AssistantMessage(content, uses)
              == AssistantBlocks((if content != "" then [Text(content)] else []) + UseBlocks(uses))
    ensures uses != [] && (IdOf(u) == "" || exists i :: 0 <= i < |uses| && IdOf(uses[i]) == IdOf(u)) ==>
              AssistantMessage(content, uses + [u]) == AssistantMessage(content, uses)
  {
    var text: seq<Block> := if content != "" then [Text(content)] else [];
    if uses != [] && OwnIds(uses) {
      AddsInOrder(text, uses);
      assert UseBlocks(uses) != [];
    }
    if uses != [] && (IdOf(u) == "" || exists i :: 0 <= i < |uses| && IdOf(uses[i]) == IdOf(u)) {
      AddsNothing(text, uses, u);
    }
  }

  lemma AddsNothing(blocks: seq<Block>, uses: seq<Use>, u: Use)
    requires IdOf(u) == "" || exists i :: 0 <= i < |uses| && IdOf(uses[i]) == IdOf(u)
    ensures AddUses(blocks, uses + [u]) == AddUses(blocks, uses)
  {
    assert (uses + [u])[..|uses|] == uses;
    if i :| 0 <= i < |uses| && IdOf(uses[i]) == IdOf(u) && IdOf(u) != "" {
      assert uses[i] in uses && IdOf(u) in Ids(uses);
    }
  }

  lemma RunIdsSnoc(front: seq<Record>, m: Record)
    ensures RunIds(front + [m]) == RunIds(front) + if m.toolId != "" then {m.toolId} else {}
  {
    assert forall x :: x in front + [m] <==> x in front || x == m;
  }

  lemma {:induction false} LegacyIds(run: seq<Record>)
    ensures Ids(LegacyUses(run)) == RunIds(run)
  {
    if run != [] {
      var front, m := run[..|run| - 1], run[|run| - 1];
      assert run == front + [m];
      LegacyIds(front);
      RunIdsSnoc(front, m);
      if m.toolId != "" {
        var uses := LegacyUses(run);
        assert uses == LegacyUses(front) + [Use(Some(m.toolId), m.toolName, "{}")];
        UsesPrefix([], uses, |uses| - 1);
        assert uses[..|uses|] == uses && uses[..|uses| - 1] == LegacyUses(front);
      }
    }
  }

  lemma {:induction false} ResultIdsOfRun(run: seq<Record>)
    ensures ResultIds(RunResults(run)) == RunIds(run)
  {
    if run != [] {
      var front, m := run[..|run| - 1], run[|run| - 1];
      assert run == front + [m];
      ResultIdsOfRun(front);
      RunIdsSnoc(front, m);
      if m.toolId != "" {
        UseIdsSnoc(RunResults(front), ToolResult(m.toolId, m.content));
      }
    }
  }

  /** The messages after `i` and before `end` are a run of tool messages, that a user or assistant
    * message or the end of the list brings to an end. */
  predicate RunFollows(slice: seq<Record>, i: nat, end: nat) {
    && i < end <= |slice| && slice[i].role.Assistant?
    && (forall j | i < j < end :: slice[j].role.Tool?)
    && (end < |slice| ==> slice[end].role.User? || slice[end].role.Assistant?)
  }

  lemma NextResult(slice: seq<Record>, i: nat, j: nat)
    requires i <= j < |slice|
    ensures RunResults(slice[i..j + 1]) == RunResults(slice[i..j]) + ResultBlock(slice[j].toolId, slice[j].content)
  {
    assert slice[i..j + 1][..j - i] == slice[i..j];
  }

  /** The states the loop goes through. */
  predicate IsTrace(slice: seq<Record>, states: seq<State>) {
    && |states| == |slice| + 1 && states[0] == State([], [], false)
    && forall i | 0 <= i < |slice| :: NextAt(slice, states, i)
  }

  predicate NextAt(slice: seq<Record>, states: seq<State>, i: nat)
    requires |states| == |slice| + 1 && i < |slice|
  {
    states[i + 1] == Step(slice, i, states[i])
  }

  lemma Trace(slice: seq<Record>) returns (states: seq<State>)
    ensures IsTrace(slice, states)
    ensures forall i | 0 <= i <= |slice| :: states[i] == Fold(slice, i)
  {
    states := seq(|slice| + 1, i requires 0 <= i <= |slice| => Fold(slice, i));
    forall i | 0 <= i < |slice| ensures NextAt(slice, states, i) {
      FoldNext(slice, i, states[i], i + 1, states[i + 1]);
    }
  }

  lemma {:induction false} SkipIsUser(slice: seq<Record>, states: seq<State>, i: nat)
    requires IsTrace(slice, states) && i <= |slice|
    ensures states[i].skip ==> i < |slice| && slice[i].role.User?
  {
    if i > 0 {
      assert NextAt(slice, states, i - 1);
    }
  }

  lemma ToolStep(slice: seq<Record>, states: seq<State>, i: nat)
    requires IsTrace(slice, states) && i < |slice| && slice[i].role.Tool? && !states[i].skip
    ensures states[i + 1]
         == State(states[i].out, states[i].pending + ResultBlock(slice[i].toolId, slice[i].content), false)
  {
    assert NextAt(slice, states, i);
  }

  lemma AssistantStep(slice: seq<Record>, states: seq<State>, i: nat)
    requires IsTrace(slice, states) && i < |slice| && slice[i].role.Assistant?
    ensures states[i + 1] ==
      State(Flush(states[i].out, states[i].pending) + [AssistantMessage(slice[i].content, UsesOf(slice, i))], [], false)
  {
    SkipIsUser(slice, states, i);
    assert NextAt(slice, states, i);
  }

  lemma {:induction false} RunCollects(slice: seq<Record>, states: seq<State>, i: nat, end: nat, out: seq<Message>)
    requires IsTrace(slice, states) && i <= end <= |slice| && forall j | i <= j < end :: slice[j].role.Tool?
    requires states[i] == State(out, [], false)
    ensures states[end] == State(out, RunResults(slice[i..end]), false)
    decreases end
  {
    if i == end {
      assert slice[i..i] == [];
    } else {
      var last := end - 1;
      RunCollects(slice, states, i, last, out);
      NextResult(slice, i, last);
      ToolStep(slice, states, last);
    }
  }

  lemma StepGrows(slice: seq<Record>, i: nat, st: State)
    requires i < |slice|
    ensures st.out <= Step(slice, i, st).out
    ensures !st.skip && (slice[i].role.User? || slice[i].role.Assistant?) ==>
      Flush(st.out, st.pending) <= Step(slice, i, st).out
  {
  }

  lemma {:induction false} OutGrows(slice: seq<Record>, states: seq<State>, i: nat, k: nat)
    requires IsTrace(slice, states) && i <= k <= |slice|
    ensures states[i].out <= states[k].out
    decreases k
  {
    if i < k {
      OutGrows(slice, states, i, k - 1);
      assert NextAt(slice, states, k - 1);
      StepGrows(slice, k - 1, states[k - 1]);
    }
  }

  /** What is pending before a user or assistant message, or at the end, is emitted there. */
  lemma PendingIsFlushed(slice: seq<Record>, states: seq<State>, j: nat)
    requires IsTrace(slice, states) && j <= |slice| && !states[j].skip
    requires j < |slice| ==> slice[j].role.User? || slice[j].role.Assistant?
    ensures Flush(states[j].out, states[j].pending) <= Flush(states[|slice|].out, states[|slice|].pending)
  {
    if j < |slice| {
      assert NextAt(slice, states, j);
      StepGrows(slice, j, states[j]);
      OutGrows(slice, states, j + 1, |slice|);
    }
  }

  /** The results of a run stand in the message right after the assistant message before it. */
  lemma RunStandsNext(slice: seq<Record>, states: seq<State>, i: nat, end: nat, msg: Message, results: seq<Block>)
    returns (p: nat)
    requires IsTrace(slice, states) && RunFollows(slice, i, end)
    requires msg == AssistantMessage(slice[i].content, UsesOf(slice, i))
    requires results == RunResults(slice[i + 1..end]) && results != []
    ensures var out := Flush(states[|slice|].out, states[|slice|].pending);
      p + 1 < |out| && out[p] == msg && out[p + 1] == UserBlocks(results)
  {
    var front := Flush(states[i].out, states[i].pending);
    p := |front|;
    AssistantStep(slice, states, i);
    RunCollects(slice, states, i + 1, end, front + [msg]);
    PendingIsFlushed(slice, states, end);
    PrefixAt(front, msg, UserBlocks(results), Flush(states[|slice|].out, states[|slice|].pending));
  }

  lemma PrefixAt(front: seq<Message>, a: Message, b: Message, out: seq<Message>)
    requires front + [a] + [b] <= out
    ensures |front| + 1 < |out| && out[|front|] == a && out[|front| + 1] == b
  {
    var reached := front + [a] + [b];
    assert reached[|front|] == a && reached[|front| + 1] == b;
  }

  lemma {:induction false} RunLengthIs(slice: seq<Record>, i: nat, n: nat)
    requires i + n <= |slice| && (forall j | i <= j < i + n :: slice[j].role.Tool?)
    requires i + n < |slice| ==> !slice[i + n].role.Tool?
    ensures RunLength(slice, i) == n
    decreases n
  {
    if n > 0 {
      RunLengthIs(slice, i + 1, n - 1);
    }
  }

  /** The ids an assistant message is emitted with. */
  lemma EmittedIds(slice: seq<Record>, i: nat, end: nat)
    requires RunFollows(slice, i, end)
    ensures Ids(UsesOf(slice, i)) == if slice[i].uses.Some? then Ids(slice[i].uses.value) else RunIds(slice[i + 1..end])
  {
    if slice[i].uses.None? {
      RunLengthIs(slice, i + 1, end - i - 1);
      assert UsesOf(slice, i) == LegacyUses(slice[i + 1..end]);
      LegacyIds(slice[i + 1..end]);
    }
  }

  /** Exactly when the stored tool uses are missing, or name every result of the run, does each
    * result find its tool use in the message just before it.  A list that is present wins over what
    * the run implies, even if it is empty. */
  lemma RunIsPairedIff(messages: seq<Record>, i: nat, end: nat) returns (p: nat)
    requires RunFollows(Slice(messages), i, end) && RunResults(Slice(messages)[i + 1..end]) != []
    ensures var slice, out := Slice(messages), Build(messages);
      && p + 1 < |out|
      && out[p] == AssistantMessage(slice[i].content, UsesOf(slice, i))
      && out[p + 1] == UserBlocks(RunResults(slice[i + 1..end]))
      && (ResultIds(BlocksIn(out[p + 1])) <= UseIds(BlocksIn(out[p])) <==>
          slice[i].uses.None? || RunIds(slice[i + 1..end]) <= Ids(slice[i].uses.value))
  {
    var slice := Slice(messages);
    var states := Trace(slice);
    var msg, results := AssistantMessage(slice[i].content, UsesOf(slice, i)), RunResults(slice[i + 1..end]);
    p := RunStandsNext(slice, states, i, end, msg, results);
    MessageIds(slice[i].content, UsesOf(slice, i));
    EmittedIds(slice, i, end);
    ResultIdsOfRun(slice[i + 1..end]);
  }

  /** A stored list that is present and empty: the result that follows has no tool use before it.  Without
    * the list it has. */
  lemma EmptyListWins(messages: seq<Record>, uses: Option<seq<Use>>)
    requires |messages| == 3 && messages[0] == Record(Assistant, "done", uses, Absent, "", "")
    requires messages[1] == Record(Tool, "ok", None, Absent, "t", "run")
    ensures uses == Some([]) ==> Build(messages) == [Replies("done"), UserBlocks([ToolResult("t", "ok")])]
    ensures uses == None ==>
              Build(messages)
              == [AssistantBlocks([Text("done"), ToolUse("t", "run", "{}")]), UserBlocks([ToolResult("t", "ok")])]
  {
    var slice := Slice(messages);
    assert slice == [messages[0], messages[1]];
    assert RunLength(slice, 2) == 0 && RunLength(slice, 1) == 1;
    assert slice[1..2] == [messages[1]];
    OneLegacyUse(messages[1], [messages[1]]);
    assert Fold(slice, 0) == State([], [], false);
    assert Fold(slice, 1) == State([AssistantMessage("done", UsesOf(slice, 0))], [], false);
    assert Fold(slice, 2) == State([AssistantMessage("done", UsesOf(slice, 0))], [ToolResult("t", "ok")], false);
  }

  lemma OneLegacyUse(m: Record, run: seq<Record>)
    requires run == [m] && m.toolId != ""
    ensures var use := Use(Some(m.toolId), m.toolName, "{}");
      LegacyUses(run) == [use] && forall s | s != "" ::
        AssistantMessage(s, [use]) == AssistantBlocks([Text(s), ToolUse(m.toolId, m.toolName, "{}")])
  {
    var use := Use(Some(m.toolId), m.toolName, "{}");
    assert run[..0] == [];
    forall s | s != "" ensures AddUses([Text(s)], [use]) == [Text(s), ToolUse(m.toolId, m.toolName, "{}")] {
      assert [use][..0] == [] && Ids([]) == {};
    }
  }
}
