/** The log of stream events of one message: coalescing while it is collected, compaction before
  * it is stored, and what a reader can rebuild from it. */
module StreamEvents {
  import opened Wrappers

  /** A field of a JSON event as the program reads it: only text counts. */
  datatype Field = Missing | Str(s: string) | Odd(json: string)

  datatype Kind =
    | TextDelta
    | ReasoningDelta
    | InputDelta
    | InputAvailable
    | OutputAvailable
    | ContextUsage
    | TodoUpdate
    | Other(name: Field)

  /** An event; `rest` is everything the compaction does not look at. */
  datatype Event = Event(kind: Kind, id: Field, call: Field, text: Field, delta: Field, rest: string)

  function Text(f: Field): string {
    if f.Str? then f.s else ""
  }

  predicate IsText(k: Kind) {
    k.TextDelta? || k.ReasoningDelta?
  }

  // ── Compaction as the program does it ─────────────────────────────

  const PERSIST_EVENT_CAP := 6_000

  /** The tool calls with a complete argument payload. */
  function Complete(events: seq<Event>): set<string> {
    set ev | ev in events && ev.kind.InputAvailable? && Text(ev.call) != "" :: Text(ev.call)
  }

  datatype State = State(out: seq<Event>, outputs: map<string, nat>, seen: set<string>,
                         context: Option<Event>, todo: Option<Event>)

  predicate MergesText(prev: Event, ev: Event) {
    prev.kind == ev.kind && Text(prev.id) == Text(ev.id) && prev.text.Str?
  }

  predicate MergesDelta(prev: Event, ev: Event) {
    prev.kind.InputDelta? && Text(prev.call) == Text(ev.call)
  }

  function JoinText(prev: Event, ev: Event): Event {
    prev.(text := Str(Text(prev.text) + Text(ev.text)))
  }

  function JoinDelta(prev: Event, ev: Event): Event {
    prev.(delta := Str(Text(prev.delta) + Text(ev.delta)))
  }

  function Push(st: State, ev: Event): State {
    st.(out := st.out + [ev])
  }

  predicate ValidIndex(st: State) {
    forall c | c in st.outputs :: st.outputs[c] < |st.out|
  }

  /** One iteration of the loop. */
  function Step(st: State, ev: Event, complete: set<string>): (r: State)
    requires ValidIndex(st)
    ensures ValidIndex(r)
  {
    var n, call := |st.out|, Text(ev.call);
    match ev.kind
    case TextDelta | ReasoningDelta =>
      if n > 0 && MergesText(st.out[n - 1], ev) then st.(out := st.out[n - 1 := JoinText(st.out[n - 1], ev)])
      else Push(st, ev)
    case InputDelta =>
      if call in complete then st
      else if n > 0 && MergesDelta(st.out[n - 1], ev) then st.(out := st.out[n - 1 := JoinDelta(st.out[n - 1], ev)])
      else Push(st, ev)
    case InputAvailable =>
      if call == "" then Push(st, ev)
      else if call in st.seen then st
      else Push(st, ev).(seen := st.seen + {call})
    case OutputAvailable =>
      if call == "" then Push(st, ev)
      else if call in st.outputs then st.(out := st.out[st.outputs[call] := ev])
      else Push(st, ev).(outputs := st.outputs[call := n])
    case ContextUsage => st.(context := Some(ev))
    case TodoUpdate => st.(todo := Some(ev))
    case Other(_) => Push(st, ev)
  }

  const START := State([], map[], {}, None, None)

  function Fold(events: seq<Event>, complete: set<string>): (st: State)
    ensures ValidIndex(st)
  {
    if events == [] then START else Step(Fold(events[..|events| - 1], complete), events[|events| - 1], complete)
  }

  function Opt(ev: Option<Event>): seq<Event> {
    if ev.Some? then [ev.value] else []
  }

  /** The compacted log before the cap. */
  function Uncapped(events: seq<Event>): (out: seq<Event>) {
    var st := Fold(events, Complete(events));
    st.out + Opt(st.context) + Opt(st.todo)
  }

  /** Keep the head and the tail of a log that is too long. */
  function Cap(out: seq<Event>): (r: seq<Event>)
    ensures |r| <= PERSIST_EVENT_CAP
  {
    if |out| <= PERSIST_EVENT_CAP then out
    else out[..PERSIST_EVENT_CAP / 2] + out[|out| - PERSIST_EVENT_CAP / 2..]
  }

  function Compact(events: seq<Event>): (r: seq<Event>) {
    Cap(Uncapped(events))
  }

  lemma FoldStep(events: seq<Event>, i: nat, complete: set<string>)
    requires i < |events|
    ensures Fold(events[..i + 1], complete) == Step(Fold(events[..i], complete), events[i], complete)
  {
    assert events[..i + 1][..i] == events[..i];
  }

  method CollectComplete(events: seq<Event>) returns (complete: set<string>)
    ensures complete == Complete(events)
  {
    complete := {};
    for i := 0 to |events|
      invariant complete == Complete(events[..i])
    {
      assert events[..i + 1] == events[..i] + [events[i]];
      if events[i].kind.InputAvailable? && Text(events[i].call) != "" {
        complete := complete + {Text(events[i].call)};
      }
    }
    assert events[..|events|] == events;
  }

  /** The loop over the log. */
  method CompactLoop(events: seq<Event>, complete: set<string>)
    returns (out: seq<Event>, context: Option<Event>, todo: Option<Event>)
    ensures var st := Fold(events, complete); out == st.out && context == st.context && todo == st.todo
  {
    out, context, todo := [], None, None;
    var outputs: map<string, nat>, seen := map[], {};
    for i := 0 to |events|
      invariant State(out, outputs, seen, context, todo) == Fold(events[..i], complete)
    {
      var ev := events[i];
      FoldStep(events, i, complete);
      ghost var before := State(out, outputs, seen, context, todo);
      var n, call := |out|, Text(ev.call);
      match ev.kind {
        case TextDelta | ReasoningDelta =>
          if n > 0 && MergesText(out[n - 1], ev) {
            out := out[n - 1 := JoinText(out[n - 1], ev)];
          } else {
            out := out + [ev];
          }
        case InputDelta =>
          if call !in complete {
            if n > 0 && MergesDelta(out[n - 1], ev) {
              out := out[n - 1 := JoinDelta(out[n - 1], ev)];
            } else {
              out := out + [ev];
            }
          }
        case InputAvailable =>
          if call == "" {
            out := out + [ev];
          } else if call !in seen {
            seen := seen + {call};
            out := out + [ev];
          }
        case OutputAvailable =>
          if call == "" {
            out := out + [ev];
          } else if call in outputs {
            out := out[outputs[call] := ev];
          } else {
            outputs := outputs[call := n];
            out := out + [ev];
          }
        case ContextUsage => context := Some(ev);
        case TodoUpdate => todo := Some(ev);
        case Other(_) => out := out + [ev];
      }
      assert State(out, outputs, seen, context, todo) == Step(before, ev, complete);
    }
    assert events[..|events|] == events;
  }

  method CapEvents(out: seq<Event>) returns (r: seq<Event>)
    ensures r == Cap(out)
  {
    r := out;
    if |out| > PERSIST_EVENT_CAP {
      var head := PERSIST_EVENT_CAP / 2;
      var tail := PERSIST_EVENT_CAP - head;
      r := out[..head] + out[|out| - tail..];
    }
  }

  /** `compact_stream_events`. */
  method CompactStreamEvents(events: seq<Event>) returns (r: seq<Event>)
    ensures r == Compact(events)
  {
    var complete := CollectComplete(events);
    var out, context, todo := CompactLoop(events, complete);
    var log := out;
    if context.Some? {
      log := log + [context.value];
    }
    assert log == out + Opt(context);
    if todo.Some? {
      log := log + [todo.value];
    }
    assert log == out + Opt(context) + Opt(todo);
    r := CapEvents(log);
  }
}
