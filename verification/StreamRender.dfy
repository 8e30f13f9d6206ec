/** What a reader rebuilds from an event log, and that compaction does not change it. */
module StreamRender {
  import opened Wrappers
  import opened Collections
  import opened StreamEvents

  // ── Rendering ─────────────────────────────────────────────────────

  /** The smallest things a reader shows, in the order it meets them: a character of a block, a
    * character of arguments that never became complete, a whole event, the place of a tool result. */
  datatype Token =
    | Char(kind: Kind, id: string, c: char)
    | ArgChar(call: string, c: char)
    | Whole(ev: Event)
    | Slot(call: string)

  function Chars(kind: Kind, id: string, s: string): seq<Token> {
    seq(|s|, i requires 0 <= i < |s| => Char(kind, id, s[i]))
  }

  function ArgChars(call: string, s: string): seq<Token> {
    seq(|s|, i requires 0 <= i < |s| => ArgChar(call, s[i]))
  }

  function AddOutput(m: map<string, Event>, ev: Event): map<string, Event> {
    if ev.kind.OutputAvailable? && Text(ev.call) != "" then m[Text(ev.call) := ev] else m
  }

  /** The last result of each tool call. */
  function LastOutputs(events: seq<Event>): (m: map<string, Event>) {
    if events == [] then map[] else AddOutput(LastOutputs(events[..|events| - 1]), events[|events| - 1])
  }

  function LastOf(events: seq<Event>, kind: Kind): (ev: Option<Event>) {
    if events == [] then None
    else if events[|events| - 1].kind == kind then Some(events[|events| - 1])
    else LastOf(events[..|events| - 1], kind)
  }

  /** What an event adds after the calls in `seen` had complete payloads and those in `shown`
    * results.  A call in `complete` shows its first complete payload and none of its deltas; a tool
    * result shows where the first one was. */
  function Tokens(seen: set<string>, shown: set<string>, ev: Event, complete: set<string>): seq<Token> {
    var call := Text(ev.call);
    match ev.kind
    case TextDelta | ReasoningDelta => Chars(ev.kind, Text(ev.id), Text(ev.text))
    case InputDelta => if call in complete then [] else ArgChars(call, Text(ev.delta))
    case InputAvailable => if call in seen then [] else [Whole(ev)]
    case OutputAvailable => if call == "" then [Whole(ev)] else if call in shown then [] else [Slot(call)]
    case ContextUsage | TodoUpdate => []
    case Other(_) => [Whole(ev)]
  }

  function Flow(events: seq<Event>, complete: set<string>): (r: seq<Token>) {
    if events == [] then []
    else
      var before, ev := events[..|events| - 1], events[|events| - 1];
      Flow(before, complete) + Tokens(Complete(before), LastOutputs(before).Keys, ev, complete)
  }

  datatype Rendering = Rendering(
    flow: seq<Token>, outputs: map<string, Event>, context: Option<Event>, todo: Option<Event>)

  function Render(events: seq<Event>): (r: Rendering) {
    Rendering(Flow(events, Complete(events)), LastOutputs(events),
              LastOf(events, ContextUsage), LastOf(events, TodoUpdate))
  }

  // ── Compaction keeps it ───────────────────────────────────────────

  /** At most one result per call. */
  predicate UniqueOutputs(out: seq<Event>) {
    forall i, j | 0 <= i < j < |out| && out[i].kind.OutputAvailable? && out[j].kind.OutputAvailable? ::
      Text(out[i].call) != "" ==> Text(out[i].call) != Text(out[j].call)
  }

  /** The index says where the result of each call is. */
  predicate Indexed(out: seq<Event>, outputs: map<string, nat>) {
    && (forall c | c in outputs ::
          c != "" && outputs[c] < |out| && out[outputs[c]].kind.OutputAvailable? && Text(out[outputs[c]].call) == c)
    && (forall i | 0 <= i < |out| && out[i].kind.OutputAvailable? && Text(out[i].call) != "" ::
          Text(out[i].call) in outputs && outputs[Text(out[i].call)] == i)
  }

  predicate NoStatus(out: seq<Event>) {
    forall i | 0 <= i < |out| :: !out[i].kind.ContextUsage? && !out[i].kind.TodoUpdate?
  }

  /** Two logs that show the same so far, and go on showing the same. */
  predicate Alike(a: seq<Event>, b: seq<Event>, complete: set<string>) {
    && Flow(a, complete) == Flow(b, complete)
    && Complete(a) == Complete(b)
    && LastOutputs(a) == LastOutputs(b)
  }

  predicate Shape(st: State) {
    Indexed(st.out, st.outputs) && NoStatus(st.out)
  }

  predicate Status(st: State, events: seq<Event>) {
    st.context == LastOf(events, ContextUsage) && st.todo == LastOf(events, TodoUpdate)
  }

  /** The loop invariant. */
  predicate Represents(st: State, events: seq<Event>, complete: set<string>) {
    Alike(st.out, events, complete) && st.seen == Complete(events) && Shape(st) && Status(st, events)
  }

  function AddComplete(s: set<string>, ev: Event): set<string> {
    if ev.kind.InputAvailable? && Text(ev.call) != "" then s + {Text(ev.call)} else s
  }

  lemma Snoc(events: seq<Event>, ev: Event, complete: set<string>)
    ensures Flow(events + [ev], complete) ==
      Flow(events, complete) + Tokens(Complete(events), LastOutputs(events).Keys, ev, complete)
    ensures LastOutputs(events + [ev]) == AddOutput(LastOutputs(events), ev)
    ensures Complete(events + [ev]) == AddComplete(Complete(events), ev)
  {
    assert (events + [ev])[..|events|] == events;
    assert forall e :: e in events + [ev] <==> e in events || e == ev;
  }

  /** Pushing the same event keeps logs alike. */
  lemma PushAlike(a: seq<Event>, b: seq<Event>, ev: Event, complete: set<string>)
    requires Alike(a, b, complete)
    ensures Alike(a + [ev], b + [ev], complete)
  {
    Snoc(a, ev, complete);
    Snoc(b, ev, complete);
  }

  /** An event that adds nothing can be left out. */
  lemma SkipAlike(a: seq<Event>, b: seq<Event>, ev: Event, complete: set<string>)
    requires Alike(a, b, complete) && Tokens(Complete(b), LastOutputs(b).Keys, ev, complete) == []
    requires !ev.kind.OutputAvailable? && (ev.kind.InputAvailable? ==> Text(ev.call) in Complete(b))
    ensures Alike(a, b + [ev], complete)
  {
    Snoc(b, ev, complete);
  }

  /** `joined` is the last event with the text of `ev` added to it. */
  predicate IsJoin(last: Event, ev: Event, joined: Event, complete: set<string>) {
    || (IsText(ev.kind) && MergesText(last, ev) && joined == JoinText(last, ev))
    || (ev.kind.InputDelta? && Text(ev.call) !in complete && MergesDelta(last, ev) && joined == JoinDelta(last, ev))
  }

  /** What a delta adds, whatever came before. */
  function DeltaTokens(ev: Event): seq<Token> {
    if IsText(ev.kind) then Chars(ev.kind, Text(ev.id), Text(ev.text)) else ArgChars(Text(ev.call), Text(ev.delta))
  }

  lemma JoinTokens(last: Event, ev: Event, joined: Event, complete: set<string>)
    requires IsJoin(last, ev, joined, complete)
    ensures DeltaTokens(joined) == DeltaTokens(last) + DeltaTokens(ev)
  {
  }

  predicate AddsText(ev: Event, complete: set<string>) {
    IsText(ev.kind) || (ev.kind.InputDelta? && Text(ev.call) !in complete)
  }

  /** A delta that is not superseded adds its characters and nothing else. */
  lemma DeltaAdds(events: seq<Event>, ev: Event, complete: set<string>)
    requires AddsText(ev, complete)
    ensures Flow(events + [ev], complete) == Flow(events, complete) + DeltaTokens(ev)
    ensures Complete(events + [ev]) == Complete(events) && LastOutputs(events + [ev]) == LastOutputs(events)
  {
    Snoc(events, ev, complete);
  }

  lemma JoinKeepsKind(last: Event, ev: Event, joined: Event, complete: set<string>)
    requires IsJoin(last, ev, joined, complete)
    ensures AddsText(last, complete) && AddsText(ev, complete) && AddsText(joined, complete)
  {
  }

  /** Joining a delta to the last event shows the same characters. */
  lemma JoinAlike(front: seq<Event>, last: Event, joined: Event, b: seq<Event>, ev: Event, complete: set<string>)
    requires Alike(front + [last], b, complete) && IsJoin(last, ev, joined, complete)
    ensures Alike(front + [joined], b + [ev], complete)
  {
    JoinKeepsKind(last, ev, joined, complete);
    DeltaAdds(front, last, complete);
    DeltaAdds(front, joined, complete);
    DeltaAdds(b, ev, complete);
    JoinTokens(last, ev, joined, complete);
    Regroup(Flow(front, complete), DeltaTokens(last), DeltaTokens(ev));
  }

  lemma ReplaceLast(front: seq<Event>, last: Event, ev: Event, complete: set<string>)
    requires last.kind.OutputAvailable? && ev.kind.OutputAvailable? && Text(last.call) == Text(ev.call) != ""
    ensures Flow(front + [ev], complete) == Flow(front + [last], complete)
    ensures Complete(front + [ev]) == Complete(front + [last])
    ensures LastOutputs(front + [ev]) == LastOutputs(front + [last])[Text(ev.call) := ev]
    ensures Text(ev.call) in LastOutputs(front + [last])
  {
    Snoc(front, last, complete);
    Snoc(front, ev, complete);
    OutputReplaces(LastOutputs(front), last, ev);
  }

  lemma OutputReplaces(m: map<string, Event>, last: Event, ev: Event)
    requires last.kind.OutputAvailable? && ev.kind.OutputAvailable? && Text(last.call) == Text(ev.call) != ""
    ensures AddOutput(m, ev) == AddOutput(m, last)[Text(ev.call) := ev] && Text(ev.call) in AddOutput(m, last)
  {
  }

  /** What follows shows the same after two fronts with the same calls. */
  lemma SameAfter(a: seq<Event>, b: seq<Event>, call: string, put: Event, ev: Event, complete: set<string>)
    requires Flow(b, complete) == Flow(a, complete) && Complete(b) == Complete(a)
    requires call in LastOutputs(a) && LastOutputs(b) == LastOutputs(a)[call := put]
    requires ev.kind.OutputAvailable? ==> Text(ev.call) != call
    ensures Flow(b + [ev], complete) == Flow(a + [ev], complete) && Complete(b + [ev]) == Complete(a + [ev])
    ensures LastOutputs(b + [ev]) == LastOutputs(a + [ev])[call := put] && call in LastOutputs(a + [ev])
  {
    Snoc(a, ev, complete);
    Snoc(b, ev, complete);
    OutputsCommute(LastOutputs(a), call, put, ev);
  }

  lemma OutputsCommute(m: map<string, Event>, call: string, put: Event, ev: Event)
    requires call in m && (ev.kind.OutputAvailable? ==> Text(ev.call) != call)
    ensures m[call := put].Keys == m.Keys
    ensures AddOutput(m[call := put], ev) == AddOutput(m, ev)[call := put] && call in AddOutput(m, ev)
  {
  }

  /** A later result takes the place of the earlier one. */
  lemma {:induction false} ReplaceOutput(a: seq<Event>, i: nat, ev: Event, complete: set<string>)
    requires i < |a| && UniqueOutputs(a) && a[i].kind.OutputAvailable? && ev.kind.OutputAvailable?
    requires Text(a[i].call) == Text(ev.call) != ""
    ensures Flow(a[i := ev], complete) == Flow(a, complete)
    ensures Complete(a[i := ev]) == Complete(a)
    ensures LastOutputs(a[i := ev]) == LastOutputs(a)[Text(ev.call) := ev]
    ensures Text(ev.call) in LastOutputs(a)
  {
    var front, last := a[..|a| - 1], a[|a| - 1];
    assert a == front + [last];
    if i == |a| - 1 {
      assert a[i := ev] == front + [ev];
      ReplaceLast(front, last, ev, complete);
    } else {
      assert a[i := ev] == front[i := ev] + [last];
      ReplaceOutput(front, i, ev, complete);
      SameAfter(front, front[i := ev], Text(ev.call), ev, last, complete);
    }
  }

  lemma IndexedIsUnique(st: State, events: seq<Event>, complete: set<string>)
    requires Represents(st, events, complete)
    ensures UniqueOutputs(st.out)
  {
  }

  lemma LastOfSnoc(events: seq<Event>, ev: Event, kind: Kind)
    ensures LastOf(events + [ev], kind) == if ev.kind == kind then Some(ev) else LastOf(events, kind)
  {
    assert (events + [ev])[..|events|] == events;
  }

  lemma StatusKept(st: State, events: seq<Event>, ev: Event, r: State)
    requires Status(st, events) && !ev.kind.ContextUsage? && !ev.kind.TodoUpdate?
    requires r.context == st.context && r.todo == st.todo
    ensures Status(r, events + [ev])
  {
    LastOfSnoc(events, ev, ContextUsage);
    LastOfSnoc(events, ev, TodoUpdate);
  }

  /** Changing an event in place keeps the shape if its kind and call stay. */
  lemma ShapeInPlace(st: State, i: nat, ev: Event)
    requires Shape(st) && i < |st.out| && ev.kind == st.out[i].kind && Text(ev.call) == Text(st.out[i].call)
    ensures Shape(st.(out := st.out[i := ev]))
  {
    var out := st.out[i := ev];
    assert forall j | 0 <= j < |out| :: out[j].kind == st.out[j].kind && Text(out[j].call) == Text(st.out[j].call);
  }

  lemma ShapePush(st: State, ev: Event, r: State)
    requires Shape(st) && r.out == st.out + [ev] && !ev.kind.ContextUsage? && !ev.kind.TodoUpdate?
    requires if ev.kind.OutputAvailable? && Text(ev.call) != ""
             then Text(ev.call) !in st.outputs && r.outputs == st.outputs[Text(ev.call) := |st.out|]
             else r.outputs == st.outputs
    ensures Shape(r)
  {
    var n := |st.out|;
    assert forall j | 0 <= j < n :: r.out[j] == st.out[j];
    assert r.out[n] == ev;
    if ev.kind.OutputAvailable? && Text(ev.call) != "" {
      assert forall j | 0 <= j < n && st.out[j].kind.OutputAvailable? && Text(st.out[j].call) != "" ::
        Text(st.out[j].call) in st.outputs;
    }
  }

  lemma PushRepresents(st: State, events: seq<Event>, ev: Event, complete: set<string>, r: State)
    requires Represents(st, events, complete) && r.out == st.out + [ev] && Shape(r)
    requires !ev.kind.ContextUsage? && !ev.kind.TodoUpdate?
    requires r.context == st.context && r.todo == st.todo && r.seen == AddComplete(st.seen, ev)
    ensures Represents(r, events + [ev], complete)
  {
    PushAlike(st.out, events, ev, complete);
    StatusKept(st, events, ev, r);
    Snoc(events, ev, complete);
  }

  lemma JoinRepresents(st: State, events: seq<Event>, ev: Event, complete: set<string>, joined: Event)
    requires Represents(st, events, complete) && st.out != [] && IsJoin(st.out[|st.out| - 1], ev, joined, complete)
    ensures Represents(st.(out := st.out[|st.out| - 1 := joined]), events + [ev], complete)
  {
    var front, last := st.out[..|st.out| - 1], st.out[|st.out| - 1];
    var r := st.(out := st.out[|st.out| - 1 := joined]);
    assert st.out == front + [last];
    assert r.out == front + [joined];
    JoinAlike(front, last, joined, events, ev, complete);
    ShapeInPlace(st, |st.out| - 1, joined);
    StatusKept(st, events, ev, r);
    JoinKeepsKind(last, ev, joined, complete);
    DeltaAdds(events, ev, complete);
  }

  lemma SkipRepresents(st: State, events: seq<Event>, ev: Event, complete: set<string>)
    requires Represents(st, events, complete)
    requires (ev.kind.InputDelta? && Text(ev.call) in complete) || (ev.kind.InputAvailable? && Text(ev.call) in st.seen)
    ensures Represents(st, events + [ev], complete)
  {
    SkipAlike(st.out, events, ev, complete);
    StatusKept(st, events, ev, st);
    Snoc(events, ev, complete);
  }

  lemma ReplaceRepresents(st: State, events: seq<Event>, ev: Event, complete: set<string>)
    requires Represents(st, events, complete) && ev.kind.OutputAvailable? && Text(ev.call) in st.outputs
    ensures Represents(st.(out := st.out[st.outputs[Text(ev.call)] := ev]), events + [ev], complete)
  {
    var i := st.outputs[Text(ev.call)];
    IndexedIsUnique(st, events, complete);
    ReplaceOutput(st.out, i, ev, complete);
    ShapeInPlace(st, i, ev);
    StatusKept(st, events, ev, st.(out := st.out[i := ev]));
    Snoc(events, ev, complete);
    assert LastOutputs(events) == LastOutputs(st.out);
    assert Flow(events, complete) + [] == Flow(events, complete);
  }

  lemma StatusRepresents(st: State, events: seq<Event>, ev: Event, complete: set<string>)
    requires Represents(st, events, complete) && (ev.kind.ContextUsage? || ev.kind.TodoUpdate?)
    ensures Represents(Step(st, ev, complete), events + [ev], complete)
  {
    SkipAlike(st.out, events, ev, complete);
    LastOfSnoc(events, ev, ContextUsage);
    LastOfSnoc(events, ev, TodoUpdate);
    Snoc(events, ev, complete);
  }

  /** One iteration keeps the invariant. */
  lemma StepRepresents(st: State, events: seq<Event>, ev: Event, complete: set<string>)
    requires Represents(st, events, complete)
    ensures Represents(Step(st, ev, complete), events + [ev], complete)
  {
    var r, n, call := Step(st, ev, complete), |st.out|, Text(ev.call);
    if ev.kind.ContextUsage? || ev.kind.TodoUpdate? {
      StatusRepresents(st, events, ev, complete);
    } else if ev.kind.OutputAvailable? && call != "" && call in st.outputs {
      ReplaceRepresents(st, events, ev, complete);
    } else if (ev.kind.InputDelta? && call in complete) || (ev.kind.InputAvailable? && call in st.seen) {
      SkipRepresents(st, events, ev, complete);
    } else if IsText(ev.kind) && n > 0 && MergesText(st.out[n - 1], ev) {
      JoinRepresents(st, events, ev, complete, JoinText(st.out[n - 1], ev));
    } else if ev.kind.InputDelta? && n > 0 && MergesDelta(st.out[n - 1], ev) {
      JoinRepresents(st, events, ev, complete, JoinDelta(st.out[n - 1], ev));
    } else {
      ShapePush(st, ev, r);
      PushRepresents(st, events, ev, complete, r);
    }
  }

  lemma FoldSnoc(events: seq<Event>, ev: Event, complete: set<string>)
    ensures Fold(events + [ev], complete) == Step(Fold(events, complete), ev, complete)
  {
    assert (events + [ev])[..|events|] == events;
  }

  lemma StartRepresents(complete: set<string>)
    ensures Represents(START, [], complete)
  {
  }

  lemma {:induction false} FoldRepresents(events: seq<Event>, complete: set<string>)
    ensures Represents(Fold(events, complete), events, complete)
  {
    if events == [] {
      StartRepresents(complete);
    } else {
      var front, last := events[..|events| - 1], events[|events| - 1];
      assert events == front + [last];
      FoldRepresents(front, complete);
      StepRepresents(Fold(front, complete), front, last, complete);
      FoldSnoc(front, last, complete);
    }
  }

  /** A status readout at the end adds nothing but itself. */
  lemma StatusAtEnd(out: seq<Event>, ev: Option<Event>, complete: set<string>)
    requires ev.Some? ==> ev.value.kind.ContextUsage? || ev.value.kind.TodoUpdate?
    ensures Alike(out + Opt(ev), out, complete)
    ensures forall kind ::
      LastOf(out + Opt(ev), kind) == if ev.Some? && ev.value.kind == kind then ev else LastOf(out, kind)
  {
    if ev.Some? {
      Snoc(out, ev.value, complete);
      assert (out + [ev.value])[..|out|] == out;
    } else {
      assert out + [] == out;
    }
  }

  lemma {:induction false} NoStatusNoLast(out: seq<Event>)
    requires NoStatus(out)
    ensures LastOf(out, ContextUsage) == None && LastOf(out, TodoUpdate) == None
  {
    if out != [] {
      NoStatusNoLast(out[..|out| - 1]);
    }
  }

  lemma {:induction false} LastOfKind(events: seq<Event>, kind: Kind)
    ensures LastOf(events, kind).Some? ==> LastOf(events, kind).value.kind == kind
  {
    if events != [] && events[|events| - 1].kind != kind {
      LastOfKind(events[..|events| - 1], kind);
    }
  }

  /** Before the cap, the compacted log shows exactly what the full log shows: every character of
    * every block in its place, the first complete arguments of every call or else its deltas, the
    * last result of every call, the last status readouts, and every other event. */
  lemma UncappedRendersTheSame(events: seq<Event>)
    ensures Render(Uncapped(events)) == Render(events) && Complete(Uncapped(events)) == Complete(events)
  {
    var complete := Complete(events);
    var st := Fold(events, complete);
    FoldRepresents(events, complete);
    LastOfKind(events, ContextUsage);
    LastOfKind(events, TodoUpdate);
    NoStatusNoLast(st.out);
    StatusAtEnd(st.out, st.context, complete);
    StatusAtEnd(st.out + Opt(st.context), st.todo, complete);
  }

  /** So a log that fits is stored without loss. */
  lemma CompactionRendersTheSame(events: seq<Event>)
    requires |Uncapped(events)| <= PERSIST_EVENT_CAP
    ensures Render(Compact(events)) == Render(events) && Complete(Compact(events)) == Complete(events)
  {
    UncappedRendersTheSame(events);
  }
}
