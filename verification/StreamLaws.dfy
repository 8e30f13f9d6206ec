/** Laws of the event log: coalescing before compaction makes no difference, compaction is
  * idempotent, and what a reader reads out of the log. */
module StreamLaws {
  import opened Wrappers
  import opened Collections
  import opened StreamEvents
  import opened StreamRender

  // ── Coalescing ────────────────────────────────────────────────────

  /** The deltas of the typed protocol always have their fields. */
  predicate Typed(ev: Event) {
    && (IsText(ev.kind) ==> ev.id.Str? && ev.text.Str?)
    && (ev.kind.InputDelta? ==> ev.call.Str? && ev.delta.Str?)
  }

  predicate Continues(prev: Event, ev: Event) {
    || (IsText(ev.kind) && prev.kind == ev.kind && prev.id == ev.id)
    || (ev.kind.InputDelta? && prev.kind.InputDelta? && prev.call == ev.call)
  }

  function Join(prev: Event, ev: Event): Event {
    if IsText(ev.kind) then JoinText(prev, ev) else JoinDelta(prev, ev)
  }

  /** `append_coalesced` on values. */
  function Append(buf: seq<Event>, ev: Event): (r: seq<Event>) {
    if buf != [] && Continues(buf[|buf| - 1], ev) then buf[|buf| - 1 := Join(buf[|buf| - 1], ev)] else buf + [ev]
  }

  function Coalesce(events: seq<Event>): (r: seq<Event>) {
    if events == [] then [] else Append(Coalesce(events[..|events| - 1]), events[|events| - 1])
  }

  predicate AllTyped(events: seq<Event>) {
    forall i | 0 <= i < |events| :: Typed(events[i])
  }

  /** Two steps on a delta and its continuation are one step on the joined delta. */
  lemma JoinedStep(st: State, x: Event, ev: Event, complete: set<string>)
    requires ValidIndex(st) && Typed(x) && Typed(ev) && Continues(x, ev)
    ensures Step(Step(st, x, complete), ev, complete) == Step(st, Join(x, ev), complete)
  {
    var n := |st.out|;
    var one, joined := Step(st, x, complete), Join(x, ev);
    if IsText(ev.kind) {
      if n > 0 && MergesText(st.out[n - 1], x) {
        assert one.out[n - 1] == JoinText(st.out[n - 1], x);
        var p, t, u := Text(st.out[n - 1].text), Text(x.text), Text(ev.text);
        assert p + (t + u) == (p + t) + u;
        assert JoinText(one.out[n - 1], ev) == JoinText(st.out[n - 1], joined);
      } else {
        assert one.out[n := joined] == st.out + [joined];
      }
    } else if Text(x.call) !in complete {
      if n > 0 && MergesDelta(st.out[n - 1], x) {
        assert one.out[n - 1] == JoinDelta(st.out[n - 1], x);
        var p, t, u := Text(st.out[n - 1].delta), Text(x.delta), Text(ev.delta);
        assert p + (t + u) == (p + t) + u;
        assert JoinDelta(one.out[n - 1], ev) == JoinDelta(st.out[n - 1], joined);
      } else {
        assert one.out[n := joined] == st.out + [joined];
      }
    }
  }

  lemma JoinFolds(front: seq<Event>, x: Event, ev: Event, complete: set<string>)
    requires Typed(x) && Typed(ev) && Continues(x, ev)
    ensures Fold(front + [Join(x, ev)], complete) == Step(Fold(front + [x], complete), ev, complete)
    ensures Complete(front + [Join(x, ev)]) == AddComplete(Complete(front + [x]), ev)
    ensures Typed(Join(x, ev))
  {
    JoinedStep(Fold(front, complete), x, ev, complete);
    FoldSnoc(front, x, complete);
    FoldSnoc(front, Join(x, ev), complete);
    Snoc(front, x, complete);
    Snoc(front, Join(x, ev), complete);
  }

  lemma AppendJoins(front: seq<Event>, x: Event, ev: Event)
    requires Continues(x, ev)
    ensures Append(front + [x], ev) == front + [Join(x, ev)]
  {
    assert (front + [x])[|front|] == x;
  }

  lemma AppendFolds(buf: seq<Event>, ev: Event, complete: set<string>)
    requires AllTyped(buf) && Typed(ev)
    ensures Fold(Append(buf, ev), complete) == Step(Fold(buf, complete), ev, complete)
    ensures Complete(Append(buf, ev)) == AddComplete(Complete(buf), ev)
    ensures AllTyped(Append(buf, ev))
  {
    if buf != [] && Continues(buf[|buf| - 1], ev) {
      var front, x := buf[..|buf| - 1], buf[|buf| - 1];
      assert buf == front + [x];
      AppendJoins(front, x, ev);
      JoinFolds(front, x, ev, complete);
    } else {
      FoldSnoc(buf, ev, complete);
      Snoc(buf, ev, complete);
    }
  }

  lemma {:induction false} CoalesceFolds(events: seq<Event>, complete: set<string>)
    requires AllTyped(events)
    ensures Fold(Coalesce(events), complete) == Fold(events, complete)
    ensures Complete(Coalesce(events)) == Complete(events)
    ensures AllTyped(Coalesce(events))
  {
    if events != [] {
      var front, last := events[..|events| - 1], events[|events| - 1];
      assert events == front + [last];
      CoalesceFolds(front, complete);
      AppendFolds(Coalesce(front), last, complete);
      FoldSnoc(front, last, complete);
      Snoc(front, last, complete);
    }
  }

  /** Compacting a coalesced stream is compacting the stream. */
  lemma CoalescingIsInvisible(events: seq<Event>)
    requires AllTyped(events)
    ensures Compact(Coalesce(events)) == Compact(events)
  {
    CoalesceFolds(events, Complete(events));
  }

  // ── Idempotence ───────────────────────────────────────────────────

  /** No two neighbours can be merged. */
  predicate Apart(prev: Event, ev: Event) {
    && (IsText(ev.kind) ==> !MergesText(prev, ev))
    && (ev.kind.InputDelta? ==> !MergesDelta(prev, ev))
  }

  /** At most one complete payload per call. */
  predicate UniqueInputs(out: seq<Event>) {
    forall i, j | 0 <= i < j < |out| && out[i].kind.InputAvailable? && out[j].kind.InputAvailable? ::
      Text(out[i].call) != "" ==> Text(out[i].call) != Text(out[j].call)
  }

  /** Nothing in the log is redundant. */
  predicate Normal(out: seq<Event>, complete: set<string>) {
    && (forall i | 0 < i < |out| :: Apart(out[i - 1], out[i]))
    && (forall i | 0 <= i < |out| && out[i].kind.InputDelta? :: Text(out[i].call) !in complete)
    && UniqueInputs(out)
    && UniqueOutputs(out) && NoStatus(out)
  }

  lemma NormalInPlace(out: seq<Event>, i: nat, ev: Event, complete: set<string>)
    requires Normal(out, complete) && i < |out|
    requires ev.kind == out[i].kind && Text(ev.call) == Text(out[i].call) && Text(ev.id) == Text(out[i].id)
    requires ev.kind.OutputAvailable? || (i == |out| - 1 && (IsText(ev.kind) || ev.kind.InputDelta?))
    ensures Normal(out[i := ev], complete)
  {
    var r := out[i := ev];
    forall j | 0 < j < |r| ensures Apart(r[j - 1], r[j]) {
      assert Apart(out[j - 1], out[j]);
    }
    assert forall j | 0 <= j < |r| :: r[j].kind == out[j].kind && Text(r[j].call) == Text(out[j].call);
  }

  /** No event of this kind belongs to the same call. */
  predicate IsFirst(out: seq<Event>, ev: Event) {
    forall i | 0 <= i < |out| && out[i].kind == ev.kind :: Text(out[i].call) != Text(ev.call)
  }

  lemma NormalPush(out: seq<Event>, ev: Event, complete: set<string>)
    requires Normal(out, complete) && !ev.kind.ContextUsage? && !ev.kind.TodoUpdate?
    requires out != [] ==> Apart(out[|out| - 1], ev)
    requires ev.kind.InputDelta? ==> Text(ev.call) !in complete
    requires (ev.kind.InputAvailable? || ev.kind.OutputAvailable?) && Text(ev.call) != "" ==> IsFirst(out, ev)
    ensures Normal(out + [ev], complete)
  {
    var r := out + [ev];
    forall j | 0 < j < |r| ensures Apart(r[j - 1], r[j]) {
      if j < |out| {
        assert Apart(out[j - 1], out[j]);
      }
    }
  }

  lemma InCalls(out: seq<Event>, i: nat)
    requires i < |out| && out[i].kind.InputAvailable? && Text(out[i].call) != ""
    ensures Text(out[i].call) in Complete(out)
  {
    assert out[i] in out;
  }

  /** An input event that is pushed is the first of its call, and so is an output event. */
  lemma PushedIsFirst(st: State, ev: Event)
    requires Shape(st) && st.seen == Complete(st.out) && Text(ev.call) != ""
    requires ev.kind.InputAvailable? ==> Text(ev.call) !in st.seen
    requires ev.kind.OutputAvailable? ==> Text(ev.call) !in st.outputs
    ensures ev.kind.InputAvailable? || ev.kind.OutputAvailable? ==> IsFirst(st.out, ev)
  {
    forall i | 0 <= i < |st.out| && st.out[i].kind == ev.kind && ev.kind.InputAvailable?
      ensures Text(st.out[i].call) != Text(ev.call)
    {
      if Text(st.out[i].call) != "" {
        InCalls(st.out, i);
      }
    }
  }

  /** What the loop keeps has nothing redundant in it. */
  lemma StepNormal(st: State, ev: Event, complete: set<string>)
    requires Shape(st) && st.seen == Complete(st.out) && Normal(st.out, complete)
    ensures Normal(Step(st, ev, complete).out, complete)
  {
    var n, call := |st.out|, Text(ev.call);
    match ev.kind
    case TextDelta | ReasoningDelta =>
      if n > 0 && MergesText(st.out[n - 1], ev) {
        NormalInPlace(st.out, n - 1, JoinText(st.out[n - 1], ev), complete);
      } else {
        PushNormal(st, ev, complete);
      }
    case InputDelta =>
      if call !in complete {
        if n > 0 && MergesDelta(st.out[n - 1], ev) {
          NormalInPlace(st.out, n - 1, JoinDelta(st.out[n - 1], ev), complete);
        } else {
          PushNormal(st, ev, complete);
        }
      }
    case InputAvailable =>
      if call == "" || call !in st.seen {
        PushNormal(st, ev, complete);
      }
    case OutputAvailable =>
      if call != "" && call in st.outputs {
        NormalOutput(st, ev, complete);
      } else {
        PushNormal(st, ev, complete);
      }
    case ContextUsage | TodoUpdate =>
    case Other(_) => PushNormal(st, ev, complete);
  }

  lemma PushNormal(st: State, ev: Event, complete: set<string>)
    requires Shape(st) && st.seen == Complete(st.out) && Normal(st.out, complete)
    requires !ev.kind.ContextUsage? && !ev.kind.TodoUpdate? && (st.out != [] ==> Apart(st.out[|st.out| - 1], ev))
    requires ev.kind.InputDelta? ==> Text(ev.call) !in complete
    requires ev.kind.InputAvailable? && Text(ev.call) != "" ==> Text(ev.call) !in st.seen
    requires ev.kind.OutputAvailable? && Text(ev.call) != "" ==> Text(ev.call) !in st.outputs
    ensures Normal(Step(st, ev, complete).out, complete)
  {
    if Text(ev.call) != "" {
      PushedIsFirst(st, ev);
    }
    NormalPush(st.out, ev, complete);
    assert Step(st, ev, complete).out == st.out + [ev];
  }

  lemma NormalOutput(st: State, ev: Event, complete: set<string>)
    requires Shape(st) && Normal(st.out, complete) && ev.kind.OutputAvailable? && Text(ev.call) in st.outputs
    ensures Normal(st.out[st.outputs[Text(ev.call)] := ev], complete)
  {
    var i := st.outputs[Text(ev.call)];
    var out := st.out[i := ev];
    forall j | 0 < j < |out| ensures Apart(out[j - 1], out[j]) {
      assert Apart(st.out[j - 1], st.out[j]);
    }
    assert forall j | 0 <= j < |out| :: out[j].kind == st.out[j].kind && Text(out[j].call) == Text(st.out[j].call);
  }

  lemma {:induction false} FoldNormal(events: seq<Event>, complete: set<string>)
    ensures Normal(Fold(events, complete).out, complete)
  {
    if events != [] {
      var front, last := events[..|events| - 1], events[|events| - 1];
      assert events == front + [last];
      FoldNormal(front, complete);
      FoldRepresents(front, complete);
      StepNormal(Fold(front, complete), last, complete);
      FoldSnoc(front, last, complete);
    }
  }

  /** The loop pushes the event after `front`. */
  predicate Pushed(front: seq<Event>, ev: Event, complete: set<string>) {
    && !ev.kind.ContextUsage? && !ev.kind.TodoUpdate?
    && (front != [] ==> Apart(front[|front| - 1], ev))
    && (ev.kind.InputDelta? ==> Text(ev.call) !in complete)
    && (ev.kind.InputAvailable? && Text(ev.call) != "" ==> Text(ev.call) !in Complete(front))
    && (ev.kind.OutputAvailable? && Text(ev.call) != "" ==>
          forall i | 0 <= i < |front| && front[i].kind.OutputAvailable? :: Text(front[i].call) != Text(ev.call))
  }

  lemma NormalFront(front: seq<Event>, last: Event, complete: set<string>)
    requires Normal(front + [last], complete)
    ensures Normal(front, complete) && Pushed(front, last, complete)
  {
    var out := front + [last];
    assert out[|front|] == last && forall i | 0 <= i < |front| :: out[i] == front[i];
    forall i | 0 < i < |front| ensures Apart(front[i - 1], front[i]) {
      assert Apart(out[i - 1], out[i]);
    }
    if front != [] {
      assert Apart(out[|front| - 1], out[|front|]);
    }
  }

  lemma PushedStep(st: State, ev: Event, complete: set<string>)
    requires Shape(st) && st.seen == Complete(st.out) && Pushed(st.out, ev, complete)
    ensures ValidIndex(st)
    ensures var r := Step(st, ev, complete); r.out == st.out + [ev] && r.context == st.context && r.todo == st.todo
  {
  }

  /** The loop keeps every event of a log in which nothing is redundant. */
  lemma {:induction false} NormalIsKept(out: seq<Event>, complete: set<string>)
    requires Normal(out, complete)
    ensures Fold(out, complete).out == out
    ensures Fold(out, complete).context == None && Fold(out, complete).todo == None
  {
    if out != [] {
      var front, last := out[..|out| - 1], out[|out| - 1];
      assert out == front + [last];
      NormalFront(front, last, complete);
      NormalIsKept(front, complete);
      FoldRepresents(front, complete);
      FoldSnoc(front, last, complete);
      PushedStep(Fold(front, complete), last, complete);
    }
  }

  lemma StatusFolds(out: seq<Event>, ev: Option<Event>, complete: set<string>)
    requires ev.Some? ==> ev.value.kind.ContextUsage? || ev.value.kind.TodoUpdate?
    ensures var f, r := Fold(out, complete), Fold(out + Opt(ev), complete);
      && r.out == f.out
      && r.context == (if ev.Some? && ev.value.kind.ContextUsage? then ev else f.context)
      && r.todo == (if ev.Some? && ev.value.kind.TodoUpdate? then ev else f.todo)
  {
    if ev.Some? {
      FoldSnoc(out, ev.value, complete);
    } else {
      assert out + [] == out;
    }
  }

  /** Nothing is lost or moved when what the loop kept is run through it again. */
  lemma KeptTwice(out: seq<Event>, context: Option<Event>, todo: Option<Event>, complete: set<string>)
    requires Normal(out, complete)
    requires context.Some? ==> context.value.kind.ContextUsage?
    requires todo.Some? ==> todo.value.kind.TodoUpdate?
    ensures var st := Fold(out + Opt(context) + Opt(todo), complete);
      st.out == out && st.context == context && st.todo == todo
  {
    NormalIsKept(out, complete);
    StatusFolds(out, context, complete);
    StatusFolds(out + Opt(context), todo, complete);
  }

  lemma UncappedTwice(events: seq<Event>)
    ensures Uncapped(Uncapped(events)) == Uncapped(events)
  {
    var complete, out := Complete(events), Uncapped(events);
    var st := Fold(events, complete);
    FoldRepresents(events, complete);
    FoldNormal(events, complete);
    LastOfKind(events, ContextUsage);
    LastOfKind(events, TodoUpdate);
    StatusAtEnd(st.out, st.context, complete);
    StatusAtEnd(st.out + Opt(st.context), st.todo, complete);
    KeptTwice(st.out, st.context, st.todo, complete);
  }

  /** Compacting a log that fits a second time changes nothing. */
  lemma CompactionIsIdempotent(events: seq<Event>)
    requires |Uncapped(events)| <= PERSIST_EVENT_CAP
    ensures Compact(Compact(events)) == Compact(events)
  {
    UncappedTwice(events);
  }

  // ── What a reader reads ───────────────────────────────────────────

  /** The text of a block. */
  function BlockText(events: seq<Event>, kind: Kind, id: string): (s: string) {
    if events == [] then ""
    else
      var ev := events[|events| - 1];
      BlockText(events[..|events| - 1], kind, id)
      + if IsText(kind) && ev.kind == kind && Text(ev.id) == id then Text(ev.text) else ""
  }

  /** The arguments of a call as far as they were streamed. */
  function StreamedArgs(events: seq<Event>, call: string): (s: string) {
    if events == [] then ""
    else
      var ev := events[|events| - 1];
      StreamedArgs(events[..|events| - 1], call)
      + if ev.kind.InputDelta? && Text(ev.call) == call then Text(ev.delta) else ""
  }

  /** The first complete payload of a call. */
  function FirstInput(events: seq<Event>, call: string): (ev: Option<Event>) {
    if events == [] then None
    else if events[0].kind.InputAvailable? && Text(events[0].call) == call then Some(events[0])
    else FirstInput(events[1..], call)
  }

  /** Everything that is neither a delta nor about a call nor a status readout. */
  function Others(events: seq<Event>): (r: seq<Event>) {
    if events == [] then []
    else Others(events[..|events| - 1]) + if events[|events| - 1].kind.Other? then [events[|events| - 1]] else []
  }

  function BlockChar(t: Token, kind: Kind, id: string): string {
    if t.Char? && t.kind == kind && t.id == id then [t.c] else ""
  }

  function ReadBlock(flow: seq<Token>, kind: Kind, id: string): (s: string) {
    if flow == [] then "" else BlockChar(flow[0], kind, id) + ReadBlock(flow[1..], kind, id)
  }

  function ArgOf(t: Token, call: string): string {
    if t.ArgChar? && t.call == call then [t.c] else ""
  }

  function ReadArgs(flow: seq<Token>, call: string): (s: string) {
    if flow == [] then "" else ArgOf(flow[0], call) + ReadArgs(flow[1..], call)
  }

  function OtherOf(t: Token): seq<Event> {
    if t.Whole? && t.ev.kind.Other? then [t.ev] else []
  }

  function ReadOthers(flow: seq<Token>): (r: seq<Event>) {
    if flow == [] then [] else OtherOf(flow[0]) + ReadOthers(flow[1..])
  }

  function ReadInput(flow: seq<Token>, call: string): (ev: Option<Event>) {
    if flow == [] then None
    else if flow[0].Whole? && flow[0].ev.kind.InputAvailable? && Text(flow[0].ev.call) == call then Some(flow[0].ev)
    else ReadInput(flow[1..], call)
  }

  lemma {:induction false} ReadTextAppend(a: seq<Token>, b: seq<Token>, kind: Kind, id: string, call: string)
    ensures ReadBlock(a + b, kind, id) == ReadBlock(a, kind, id) + ReadBlock(b, kind, id)
    ensures ReadArgs(a + b, call) == ReadArgs(a, call) + ReadArgs(b, call)
  {
    if a == [] {
      assert a + b == b;
    } else {
      assert (a + b)[1..] == a[1..] + b && (a + b)[0] == a[0];
      ReadTextAppend(a[1..], b, kind, id, call);
      Regroup(BlockChar(a[0], kind, id), ReadBlock(a[1..], kind, id), ReadBlock(b, kind, id));
      Regroup(ArgOf(a[0], call), ReadArgs(a[1..], call), ReadArgs(b, call));
    }
  }

  lemma {:induction false} ReadEventsAppend(a: seq<Token>, b: seq<Token>, call: string)
    ensures ReadOthers(a + b) == ReadOthers(a) + ReadOthers(b)
    ensures ReadInput(a + b, call) == if ReadInput(a, call).Some? then ReadInput(a, call) else ReadInput(b, call)
  {
    if a == [] {
      assert a + b == b;
    } else {
      assert (a + b)[1..] == a[1..] + b && (a + b)[0] == a[0];
      ReadEventsAppend(a[1..], b, call);
      Regroup(OtherOf(a[0]), ReadOthers(a[1..]), ReadOthers(b));
    }
  }

  lemma {:induction false} NoBlockRead(flow: seq<Token>, kind: Kind, id: string)
    requires forall i | 0 <= i < |flow| :: BlockChar(flow[i], kind, id) == ""
    ensures ReadBlock(flow, kind, id) == ""
  {
    if flow != [] {
      NoBlockRead(flow[1..], kind, id);
    }
  }

  lemma {:induction false} NoArgsRead(flow: seq<Token>, call: string)
    requires forall i | 0 <= i < |flow| :: ArgOf(flow[i], call) == ""
    ensures ReadArgs(flow, call) == ""
  {
    if flow != [] {
      NoArgsRead(flow[1..], call);
    }
  }

  lemma {:induction false} NoEventsRead(flow: seq<Token>, call: string)
    requires forall i | 0 <= i < |flow| :: !flow[i].Whole?
    ensures ReadOthers(flow) == [] && ReadInput(flow, call) == None
  {
    if flow != [] {
      NoEventsRead(flow[1..], call);
    }
  }

  lemma {:induction false} OwnBlockRead(kind: Kind, id: string, s: string)
    ensures ReadBlock(Chars(kind, id, s), kind, id) == s
    decreases s
  {
    if s != "" {
      assert Chars(kind, id, s)[1..] == Chars(kind, id, s[1..]);
      OwnBlockRead(kind, id, s[1..]);
      assert [s[0]] + s[1..] == s;
    }
  }

  lemma {:induction false} OwnArgsRead(call: string, s: string)
    ensures ReadArgs(ArgChars(call, s), call) == s
    decreases s
  {
    if s != "" {
      assert ArgChars(call, s)[1..] == ArgChars(call, s[1..]);
      OwnArgsRead(call, s[1..]);
      assert [s[0]] + s[1..] == s;
    }
  }

  lemma ReadChars(k: Kind, i: string, s: string, kind: Kind, id: string, call: string)
    ensures var flow := Chars(k, i, s);
      && ReadBlock(flow, kind, id) == (if k == kind && i == id then s else "")
      && ReadArgs(flow, call) == "" && ReadOthers(flow) == [] && ReadInput(flow, call) == None
  {
    NoArgsRead(Chars(k, i, s), call);
    NoEventsRead(Chars(k, i, s), call);
    if k == kind && i == id {
      OwnBlockRead(k, i, s);
    } else {
      NoBlockRead(Chars(k, i, s), kind, id);
    }
  }

  lemma ReadArgChars(c: string, s: string, kind: Kind, id: string, call: string)
    ensures var flow := ArgChars(c, s);
      && ReadArgs(flow, call) == (if c == call then s else "")
      && ReadBlock(flow, kind, id) == "" && ReadOthers(flow) == [] && ReadInput(flow, call) == None
  {
    NoBlockRead(ArgChars(c, s), kind, id);
    NoEventsRead(ArgChars(c, s), call);
    if c == call {
      OwnArgsRead(c, s);
    } else {
      NoArgsRead(ArgChars(c, s), call);
    }
  }

  lemma {:induction false} FirstInputSnoc(front: seq<Event>, ev: Event, call: string)
    ensures FirstInput(front + [ev], call) ==
      if FirstInput(front, call).Some? then FirstInput(front, call)
      else if ev.kind.InputAvailable? && Text(ev.call) == call then Some(ev) else None
    ensures call != "" ==> (FirstInput(front, call).Some? <==> call in Complete(front))
  {
    if front != [] {
      FirstInputSnoc(front[1..], ev, call);
      assert (front + [ev])[1..] == front[1..] + [ev];
      assert forall e :: e in front <==> e == front[0] || e in front[1..];
    }
  }

  /** The readings of one more event. */
  lemma ReadTokens(seen: set<string>, shown: set<string>, ev: Event, complete: set<string>, kind: Kind, id: string,
                   call: string)
    requires IsText(kind)
    ensures var flow := Tokens(seen, shown, ev, complete);
      && ReadBlock(flow, kind, id) == (if ev.kind == kind && Text(ev.id) == id then Text(ev.text) else "")
      && (call !in complete ==>
            ReadArgs(flow, call) == if ev.kind.InputDelta? && Text(ev.call) == call then Text(ev.delta) else "")
      && ReadOthers(flow) == (if ev.kind.Other? then [ev] else [])
      && ReadInput(flow, call)
         == if ev.kind.InputAvailable? && Text(ev.call) == call && call !in seen then Some(ev) else None
  {
    if IsText(ev.kind) {
      ReadChars(ev.kind, Text(ev.id), Text(ev.text), kind, id, call);
    } else if ev.kind.InputDelta? && Text(ev.call) !in complete {
      ReadArgChars(Text(ev.call), Text(ev.delta), kind, id, call);
    }
  }

  /** A reader of the flow reads what the events say. */
  lemma {:induction false} FlowIsRead(events: seq<Event>, complete: set<string>, kind: Kind, id: string, call: string)
    requires IsText(kind)
    ensures var flow := Flow(events, complete);
      && ReadBlock(flow, kind, id) == BlockText(events, kind, id)
      && (call !in complete ==> ReadArgs(flow, call) == StreamedArgs(events, call))
      && ReadOthers(flow) == Others(events)
      && (call != "" ==> ReadInput(flow, call) == FirstInput(events, call))
  {
    if events != [] {
      var front, ev := events[..|events| - 1], events[|events| - 1];
      assert events == front + [ev];
      FlowIsRead(front, complete, kind, id, call);
      FirstInputSnoc(front, ev, call);
      ReadTokens(Complete(front), LastOutputs(front).Keys, ev, complete, kind, id, call);
      var more := Tokens(Complete(front), LastOutputs(front).Keys, ev, complete);
      ReadTextAppend(Flow(front, complete), more, kind, id, call);
      ReadEventsAppend(Flow(front, complete), more, call);
    }
  }

  /** Block by block and call by call: text, first complete arguments or else the streamed ones,
    * and all other events are what they were. */
  lemma UncappedKeepsReadings(events: seq<Event>, kind: Kind, id: string, call: string)
    requires IsText(kind)
    ensures BlockText(Uncapped(events), kind, id) == BlockText(events, kind, id)
    ensures call != "" ==> FirstInput(Uncapped(events), call) == FirstInput(events, call)
    ensures call !in Complete(events) ==> StreamedArgs(Uncapped(events), call) == StreamedArgs(events, call)
    ensures Others(Uncapped(events)) == Others(events)
  {
    UncappedRendersTheSame(events);
    FlowIsRead(events, Complete(events), kind, id, call);
    FlowIsRead(Uncapped(events), Complete(events), kind, id, call);
  }

  /** So they are in a log that fits. */
  lemma CompactionKeepsReadings(events: seq<Event>, kind: Kind, id: string, call: string)
    requires IsText(kind) && |Uncapped(events)| <= PERSIST_EVENT_CAP
    ensures BlockText(Compact(events), kind, id) == BlockText(events, kind, id)
    ensures call != "" ==> FirstInput(Compact(events), call) == FirstInput(events, call)
    ensures call !in Complete(events) ==> StreamedArgs(Compact(events), call) == StreamedArgs(events, call)
    ensures Others(Compact(events)) == Others(events)
  {
    UncappedKeepsReadings(events, kind, id, call);
  }

  /** The last complete payload of a call: the one the frontend ends up with, as it applies each. */
  function LastInput(events: seq<Event>, call: string): (ev: Option<Event>) {
    if events == [] then None
    else
      var last := events[|events| - 1];
      if last.kind.InputAvailable? && Text(last.call) == call then Some(last)
      else LastInput(events[..|events| - 1], call)
  }

  lemma NoEarlierInput(front: seq<Event>, ev: Event)
    requires UniqueInputs(front + [ev]) && ev.kind.InputAvailable? && Text(ev.call) != ""
    ensures Text(ev.call) !in Complete(front)
  {
    var out := front + [ev];
    assert out[|front|] == ev;
    forall e | e in front && e.kind.InputAvailable? ensures Text(e.call) != Text(ev.call) {
      var i :| 0 <= i < |front| && front[i] == e;
      assert out[i] == e;
    }
  }

  lemma {:induction false} OnlyInputIsLast(out: seq<Event>, call: string)
    requires UniqueInputs(out) && call != ""
    ensures LastInput(out, call) == FirstInput(out, call)
  {
    if out != [] {
      var front, ev := out[..|out| - 1], out[|out| - 1];
      assert out == front + [ev];
      assert UniqueInputs(front);
      OnlyInputIsLast(front, call);
      FirstInputSnoc(front, ev, call);
      if ev.kind.InputAvailable? && Text(ev.call) == call {
        NoEarlierInput(front, ev);
      }
    }
  }

  lemma InputsAreUnique(events: seq<Event>)
    ensures UniqueInputs(Uncapped(events))
  {
    var st := Fold(events, Complete(events));
    FoldNormal(events, Complete(events));
    FoldRepresents(events, Complete(events));
    LastOfKind(events, ContextUsage);
    LastOfKind(events, TodoUpdate);
    InputsAtEnd(st.out, Opt(st.context));
    InputsAtEnd(st.out + Opt(st.context), Opt(st.todo));
  }

  lemma InputsAtEnd(out: seq<Event>, more: seq<Event>)
    requires UniqueInputs(out) && |more| <= 1 && forall i | 0 <= i < |more| :: !more[i].kind.InputAvailable?
    ensures UniqueInputs(out + more)
  {
    assert forall i | |out| <= i < |out + more| :: (out + more)[i] == more[i - |out|];
  }
}
