/** Which stored messages share a message of the conversation: one turn after the other, without the
  * state of the loop. */
module HistoryTurns {
  import opened Wrappers
  import opened History

  /** The text of this record is part of the turn of the one before it, which has results and no text. */
  predicate IsMerged(slice: seq<Record>, i: nat)
    requires i < |slice|
  {
    && i > 0 && !IsMerged(slice, i - 1)
    && slice[i - 1].role.User? && slice[i - 1].results.Listed? && slice[i - 1].content == ""
    && slice[i].role.User? && slice[i].results.Absent? && slice[i].content != ""
  }

  /** What a user record with results says: they come first, then its own text or that of the record that
    * is merged into it. */
  function TurnBlocks(slice: seq<Record>, i: nat): (blocks: seq<Block>)
    requires i < |slice| && slice[i].results.Listed?
  {
    ResultBlocks(slice[i].results.list)
    + if slice[i].content != "" then [Text(slice[i].content)]
      else if i + 1 < |slice| && IsMerged(slice, i + 1) then [Text(slice[i + 1].content)]
      else []
  }

  function OneMessage(blocks: seq<Block>): (turn: seq<Message>) {
    if blocks == [] then [] else [UserBlocks(blocks)]
  }

  /** The turn of a user or assistant record. */
  function Turn(slice: seq<Record>, i: nat): (turn: seq<Message>)
    requires i < |slice|
  {
    if IsMerged(slice, i) then []
    else
      match slice[i].role
      case User => if slice[i].results.Listed? then OneMessage(TurnBlocks(slice, i)) else [Says(slice[i].content)]
      case Assistant => [AssistantMessage(slice[i].content, UsesOf(slice, i))]
      case _ => []
  }

  /** The results of the tool messages since the last turn. */
  function Open(slice: seq<Record>, i: nat): (results: seq<Block>)
    requires i <= |slice|
  {
    if i == 0 || slice[i - 1].role.User? || slice[i - 1].role.Assistant? then []
    else if slice[i - 1].role.Tool? then Open(slice, i - 1) + ResultBlock(slice[i - 1].toolId, slice[i - 1].content)
    else Open(slice, i - 1)
  }

  /** The conversation of the first `i` records, but for the tool results since the last turn: these are
    * one message, which stands before the next turn. */
  function Turns(slice: seq<Record>, i: nat): (out: seq<Message>)
    requires i <= |slice|
  {
    if i == 0 then []
    else if slice[i - 1].role.User? || slice[i - 1].role.Assistant?
    then Turns(slice, i - 1) + OneMessage(Open(slice, i - 1)) + Turn(slice, i - 1)
    else Turns(slice, i - 1)
  }

  /** The loop is at this record. */
  predicate IsAt(slice: seq<Record>, i: nat, st: State)
    requires i <= |slice|
  {
    && st.out == Turns(slice, i) && st.pending == Open(slice, i)
    && (st.skip <==> i < |slice| && IsMerged(slice, i))
  }

  lemma MergedIsNext(slice: seq<Record>, i: nat)
    requires i + 1 < |slice| && slice[i].role.User? && slice[i].results.Listed? && !IsMerged(slice, i)
    ensures IsMerged(slice, i + 1) <==> MergesNext(slice, i)
  {
  }

  lemma FlushIsOne(out: seq<Message>, blocks: seq<Block>)
    ensures Flush(out, blocks) == out + OneMessage(blocks)
  {
  }

  lemma ResultsAreAt(slice: seq<Record>, i: nat, out: seq<Message>)
    requires i < |slice| && slice[i].role.User? && slice[i].results.Listed? && !IsMerged(slice, i)
    ensures var st := UserStep(slice, i, out);
      && st.out == out + OneMessage(TurnBlocks(slice, i)) && st.pending == []
      && (st.skip <==> i + 1 < |slice| && IsMerged(slice, i + 1))
  {
    if i + 1 < |slice| {
      MergedIsNext(slice, i);
    }
    assert UserBlocksOf(slice, i) == TurnBlocks(slice, i);
    FlushIsOne(out, TurnBlocks(slice, i));
  }

  lemma TurnIsAdded(slice: seq<Record>, i: nat, front: seq<Message>, turn: seq<Message>)
    requires i < |slice| && (slice[i].role.User? || slice[i].role.Assistant?)
    requires front == Turns(slice, i) + OneMessage(Open(slice, i)) && turn == Turn(slice, i)
    ensures Turns(slice, i + 1) == front + turn && Open(slice, i + 1) == []
  {
  }

  lemma UserIsAt(slice: seq<Record>, i: nat, st: State)
    requires i < |slice| && IsAt(slice, i, st) && slice[i].role.User? && !IsMerged(slice, i)
    ensures IsAt(slice, i + 1, UserStep(slice, i, Flush(st.out, st.pending)))
  {
    var out := Flush(st.out, st.pending);
    FlushIsOne(st.out, st.pending);
    TurnIsAdded(slice, i, out, Turn(slice, i));
    if slice[i].results.Listed? {
      ResultsAreAt(slice, i, out);
    }
  }

  lemma StepIsAt(slice: seq<Record>, i: nat, st: State)
    requires i < |slice| && IsAt(slice, i, st)
    ensures IsAt(slice, i + 1, Step(slice, i, st))
  {
    FlushIsOne(st.out, st.pending);
    if IsMerged(slice, i) {
      assert Open(slice, i) == [] && Turns(slice, i) + [] + [] == Turns(slice, i);
    } else if slice[i].role.User? {
      UserIsAt(slice, i, st);
    } else if slice[i].role.Assistant? {
      TurnIsAdded(slice, i, Flush(st.out, st.pending), Turn(slice, i));
    }
  }

  lemma {:induction false} FoldIsAt(slice: seq<Record>, i: nat)
    requires i <= |slice|
    ensures IsAt(slice, i, Fold(slice, i))
  {
    if i > 0 {
      FoldIsAt(slice, i - 1);
      StepIsAt(slice, i - 1, Fold(slice, i - 1));
    }
  }

  /** The loop rebuilds the conversation turn by turn. */
  lemma HistoryIsItsTurns(messages: seq<Record>)
    ensures var slice := Slice(messages);
      Build(messages) == Turns(slice, |slice|) + OneMessage(Open(slice, |slice|))
  {
    var slice := Slice(messages);
    FoldIsAt(slice, |slice|);
    FlushIsOne(Turns(slice, |slice|), Open(slice, |slice|));
  }

  lemma {:induction false} TurnsGrow(slice: seq<Record>, i: nat, k: nat)
    requires i <= k <= |slice|
    ensures Turns(slice, i) <= Turns(slice, k)
    decreases k
  {
    if i < k {
      TurnsGrow(slice, i, k - 1);
    }
  }

  /** A user record with results that is not merged itself adds one message, if it has anything to say: its
    * results, and then its own text or that of the record merged into it, which adds none. */
  lemma UserTurnIsOne(messages: seq<Record>, i: nat)
    requires i < |Slice(messages)| && Slice(messages)[i].role.User? && Slice(messages)[i].results.Listed?
    requires !IsMerged(Slice(messages), i)
    ensures var slice, out, m := Slice(messages), Build(messages), Slice(messages)[i];
      var merged := i + 1 < |slice| && IsMerged(slice, i + 1);
      var text := if m.content != "" then [Text(m.content)] else if merged then [Text(slice[i + 1].content)] else [];
      var blocks := ResultBlocks(m.results.list) + text;
      var before := Turns(slice, i) + OneMessage(Open(slice, i));
      && Turns(slice, i + 1) == before + (if blocks == [] then [] else [UserBlocks(blocks)]) <= out
      && (merged ==> Turns(slice, i + 2) == Turns(slice, i + 1))
  {
    var slice := Slice(messages);
    var before := Turns(slice, i) + OneMessage(Open(slice, i));
    HistoryIsItsTurns(messages);
    TurnsGrow(slice, i + 1, |slice|);
    assert Turns(slice, i + 1) == before + OneMessage(TurnBlocks(slice, i));
    if i + 1 < |slice| && IsMerged(slice, i + 1) {
      assert Open(slice, i + 1) == [] && Turns(slice, i + 1) + [] + [] == Turns(slice, i + 1);
    }
  }

  /** A result without text and the message after it are one message. */
  lemma ResultAndNextText(messages: seq<Record>)
    requires |messages| == 3
    requires messages[0] == Record(User, "", None, Listed([Stored("t", "ok")]), "", "")
    requires messages[1] == Record(User, "go on", None, Absent, "", "")
    ensures Build(messages) == [UserBlocks([ToolResult("t", "ok"), Text("go on")])]
  {
    var slice := Slice(messages);
    HistoryIsItsTurns(messages);
    UserTurnIsOne(messages, 0);
    assert !IsMerged(slice, 0) && IsMerged(slice, 1);
    var list := [Stored("t", "ok")];
    assert list[..0] == [] && ResultBlocks(list) == [ToolResult("t", "ok")];
    assert Turns(slice, 0) == [] && Open(slice, 0) == [] && Open(slice, 2) == [];
    var blocks := [ToolResult("t", "ok"), Text("go on")];
    assert [ToolResult("t", "ok")] + [Text("go on")] == blocks;
    assert Turns(slice, 1) == [UserBlocks(blocks)] && Turns(slice, 2) == [UserBlocks(blocks)];
  }
}
