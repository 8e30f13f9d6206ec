/** The collector takes the events of a run, hands them to the window in batches, and later
  * gives each collected event its duration. */
module EventCollector {
  import opened Wrappers
  import opened StreamEvents
  import opened StreamLaws

  const BATCH_MAX := 64

  /** What the collector holds: when it started, the collected events and when they came, the
    * events not yet delivered, and the batches delivered. */
  datatype Collected = Collected(start: Option<nat>, events: seq<Event>, arrivals: seq<nat>,
                         pending: seq<Event>, batches: seq<seq<Event>>)

  const EMPTY := Collected(None, [], [], [], [])

  function Minus(a: nat, b: nat): nat {
    if a < b then 0 else a - b
  }

  predicate Shown(ev: Event) {
    ev.kind != Other(Str("tool_call_ready"))
  }

  function Flush(s: Collected): Collected {
    if s.pending == [] then s else s.(pending := [], batches := s.batches + [s.pending])
  }

  function Collect(s: Collected, ev: Event, now: nat): Collected {
    var start := if s.start.Some? then s.start.value else now;
    var merged := s.events != [] && Continues(s.events[|s.events| - 1], ev);
    s.(start := Some(start), events := Append(s.events, ev),
       arrivals := if merged then s.arrivals else s.arrivals + [Minus(now, start)])
  }

  function Queue(s: Collected, ev: Event): Collected {
    if Shown(ev) then s.(pending := s.pending + [ev]) else s
  }

  /** An event is received when the clock reads `now`. */
  function OnEvent(s: Collected, ev: Event, now: nat): Collected {
    var r := Queue(Collect(s, ev, now), ev);
    if |r.pending| >= BATCH_MAX then Flush(r) else r
  }

  /** The collector: `flush_at` only decides when `Tick` happens. */
  class Collector {
    var start: Option<nat>
    var events: seq<Event>
    var arrivals: seq<nat>
    var pending: seq<Event>
    var batches: seq<seq<Event>>

    function Value(): Collected
      reads this
    {
      Collected(start, events, arrivals, pending, batches)
    }

    constructor ()
      ensures Value() == EMPTY
    {
      start, events, arrivals, pending, batches := None, [], [], [], [];
    }

    method EmitPending()
      modifies this
      ensures Value() == Flush(old(Value()))
    {
      if pending != [] {
        batches := batches + [pending];
        pending := [];
      }
    }

    /** `append_coalesced` on the shared event vector. */
    method AppendCoalesced(ev: Event) returns (merged: bool)
      modifies this`events
      ensures events == Append(old(events), ev)
      ensures merged <==> old(events) != [] && Continues(old(events)[|old(events)| - 1], ev)
      ensures |events| == |old(events)| + if merged then 0 else 1
    {
      var n := |events|;
      if n > 0 && IsText(ev.kind) && events[n - 1].kind == ev.kind && events[n - 1].id == ev.id {
        events := events[n - 1 := JoinText(events[n - 1], ev)];
        return true;
      }
      if n > 0 && ev.kind.InputDelta? && events[n - 1].kind.InputDelta? && events[n - 1].call == ev.call {
        events := events[n - 1 := JoinDelta(events[n - 1], ev)];
        return true;
      }
      events := events + [ev];
      return false;
    }

    method Receive(ev: Event, now: nat)
      modifies this
      ensures Value() == OnEvent(old(Value()), ev, now)
    {
      if start.None? {
        start := Some(now);
      }
      var arr := Minus(now, start.value);
      var merged := AppendCoalesced(ev);
      if !merged {
        arrivals := arrivals + [arr];
      }
      if Shown(ev) {
        pending := pending + [ev];
      }
      if |pending| >= BATCH_MAX {
        EmitPending();
      }
    }
  }

  // ── Every run ─────────────────────────────────────────────────────

  datatype Step = Received(ev: Event, now: nat) | Tick

  function Run(steps: seq<Step>): (s: Collected) {
    if steps == [] then EMPTY
    else
      var s, last := Run(steps[..|steps| - 1]), steps[|steps| - 1];
      match last
      case Received(ev, now) => OnEvent(s, ev, now)
      case Tick => Flush(s)
  }

  /** The events received, in order. */
  function Events(steps: seq<Step>): (r: seq<Event>) {
    if steps == [] then []
    else Events(steps[..|steps| - 1]) + if steps[|steps| - 1].Received? then [steps[|steps| - 1].ev] else []
  }

  function OnlyShown(events: seq<Event>): (r: seq<Event>) {
    if events == [] then []
    else OnlyShown(events[..|events| - 1]) + if Shown(events[|events| - 1]) then [events[|events| - 1]] else []
  }

  function Flatten(batches: seq<seq<Event>>): (r: seq<Event>) {
    if batches == [] then [] else Flatten(batches[..|batches| - 1]) + batches[|batches| - 1]
  }

  /** The clock of the run does not go back, and has not passed `now`. */
  predicate Clocked(steps: seq<Step>, now: nat) {
    forall i | 0 <= i < |steps| && steps[i].Received? ::
      steps[i].now <= now && forall j | i < j < |steps| && steps[j].Received? :: steps[i].now <= steps[j].now
  }

  /** The events are collected, each block with the time it began. */
  predicate IsCollected(s: Collected, received: seq<Event>) {
    && s.events == Coalesce(received)
    && |s.arrivals| == |s.events|
    && (s.start.Some? <==> received != [])
    && (received != [] ==> |s.arrivals| > 0 && s.arrivals[0] == 0)
  }

  /** What was shown is delivered or waiting, and no batch is empty or too long. */
  predicate Delivers(s: Collected, shown: seq<Event>) {
    && Flatten(s.batches) + s.pending == shown
    && |s.pending| <= BATCH_MAX
    && (forall i | 0 <= i < |s.batches| :: 0 < |s.batches[i]| <= BATCH_MAX)
  }

  /** What holds after every run, whatever the clock does. */
  predicate Invariant(s: Collected, received: seq<Event>) {
    IsCollected(s, received) && Delivers(s, OnlyShown(received)) && |s.pending| < BATCH_MAX
  }

  lemma FlushDelivers(s: Collected, shown: seq<Event>)
    requires Delivers(s, shown)
    ensures Delivers(Flush(s), shown) && Flush(s).pending == []
  {
    assert (s.batches + [s.pending])[..|s.batches|] == s.batches;
  }

  lemma QueueDelivers(s: Collected, received: seq<Event>, ev: Event)
    requires Delivers(s, OnlyShown(received)) && |s.pending| < BATCH_MAX
    ensures Delivers(Queue(s, ev), OnlyShown(received + [ev]))
  {
    assert (received + [ev])[..|received|] == received;
    assert Flatten(s.batches) + (s.pending + [ev]) == (Flatten(s.batches) + s.pending) + [ev];
    assert OnlyShown(received) + [] == OnlyShown(received);
  }

  lemma CollectKeeps(s: Collected, received: seq<Event>, ev: Event, now: nat)
    requires IsCollected(s, received)
    ensures IsCollected(Collect(s, ev, now), received + [ev])
  {
    assert (received + [ev])[..|received|] == received;
  }

  lemma ReceiveKeeps(s: Collected, received: seq<Event>, ev: Event, now: nat)
    requires Invariant(s, received)
    ensures Invariant(OnEvent(s, ev, now), received + [ev])
  {
    var c := Collect(s, ev, now);
    CollectKeeps(s, received, ev, now);
    QueueDelivers(c, received, ev);
    FlushDelivers(Queue(c, ev), OnlyShown(received + [ev]));
  }

  lemma {:induction false} RunKeepsInvariant(steps: seq<Step>)
    ensures Invariant(Run(steps), Events(steps))
  {
    if steps != [] {
      var front, last := steps[..|steps| - 1], steps[|steps| - 1];
      RunKeepsInvariant(front);
      if last.Received? {
        ReceiveKeeps(Run(front), Events(front), last.ev, last.now);
      } else {
        FlushDelivers(Run(front), OnlyShown(Events(front)));
        assert Events(steps) == Events(front);
      }
    }
  }

  /** When the stream has ended, the batches are the received events but the tool-call-ready ones,
    * in order, at most 64 in each, and the log compacts as if nothing had been coalesced. */
  lemma EverythingIsDelivered(steps: seq<Step>)
    ensures var s := Flush(Run(steps));
      && s.pending == [] && Flatten(s.batches) == OnlyShown(Events(steps))
      && (forall i | 0 <= i < |s.batches| :: 0 < |s.batches[i]| <= 64)
      && |s.arrivals| == |s.events|
      && (AllTyped(Events(steps)) ==> Compact(s.events) == Compact(Events(steps)))
  {
    RunKeepsInvariant(steps);
    FlushDelivers(Run(steps), OnlyShown(Events(steps)));
    assert Flatten(Flush(Run(steps)).batches) + [] == Flatten(Flush(Run(steps)).batches);
    if AllTyped(Events(steps)) {
      CoalescingIsInvisible(Events(steps));
    }
  }

  lemma {:induction false} ShownAre(events: seq<Event>, ev: Event)
    ensures multiset(OnlyShown(events))[ev]
         == if ev.kind == Other(Str("tool_call_ready")) then 0 else multiset(events)[ev]
  {
    if events != [] {
      var front, last := events[..|events| - 1], events[|events| - 1];
      ShownAre(front, ev);
      assert events == front + [last];
    }
  }

  /** Only the tool-call-ready events are held back. */
  lemma EachIsDelivered(steps: seq<Step>, ev: Event)
    ensures multiset(Flatten(Flush(Run(steps)).batches))[ev]
         == if ev.kind == Other(Str("tool_call_ready")) then 0 else multiset(Events(steps))[ev]
  {
    EverythingIsDelivered(steps);
    ShownAre(Events(steps), ev);
  }

  // ── Durations ─────────────────────────────────────────────────────

  /** The time between an event and the next one, or the end. */
  function Duration(arrivals: seq<nat>, i: nat, end: nat): nat
    requires i < |arrivals|
  {
    Minus(if i + 1 < |arrivals| then arrivals[i + 1] else end, arrivals[i])
  }

  /** The sum of the durations from the i-th on. */
  function Total(arrivals: seq<nat>, i: nat, end: nat): (sum: nat)
    requires i <= |arrivals|
    decreases |arrivals| - i
  {
    if i == |arrivals| then 0 else Duration(arrivals, i, end) + Total(arrivals, i + 1, end)
  }

  predicate InOrder(arrivals: seq<nat>, i: nat, end: nat)
    requires i <= |arrivals|
    decreases |arrivals| - i
  {
    i == |arrivals|
    || (arrivals[i] <= (if i + 1 < |arrivals| then arrivals[i + 1] else end) && InOrder(arrivals, i + 1, end))
  }

  /** The durations add up to the time from the first event to the end exactly if no arrival is
    * after the next; otherwise they add up to more. */
  lemma {:induction false} DurationsAddUp(arrivals: seq<nat>, i: nat, end: nat)
    requires i < |arrivals|
    ensures Total(arrivals, i, end) >= end - arrivals[i]
    ensures Total(arrivals, i, end) == end - arrivals[i] <==> InOrder(arrivals, i, end)
    decreases |arrivals| - i
  {
    if i + 1 < |arrivals| {
      DurationsAddUp(arrivals, i + 1, end);
    }
  }

  /** The arrivals of a run with a steady clock. */
  lemma {:induction false} SteadyArrivals(steps: seq<Step>, now: nat)
    requires Clocked(steps, now)
    ensures var s := Run(steps);
      && (s.start.Some? ==> s.start.value <= now)
      && (forall i | 0 <= i < |s.arrivals| :: s.start.Some? && s.arrivals[i] <= now - s.start.value)
      && (forall i, j | 0 <= i < j < |s.arrivals| :: s.arrivals[i] <= s.arrivals[j])
  {
    if steps != [] {
      var front, last := steps[..|steps| - 1], steps[|steps| - 1];
      SteadyArrivals(front, if last.Received? then last.now else now);
    }
  }

  lemma {:induction false} SortedIsInOrder(arrivals: seq<nat>, i: nat, end: nat)
    requires i <= |arrivals| && forall j | 0 <= j < |arrivals| :: arrivals[j] <= end
    requires forall j, k | 0 <= j < k < |arrivals| :: arrivals[j] <= arrivals[k]
    ensures InOrder(arrivals, i, end)
    decreases |arrivals| - i
  {
    if i < |arrivals| {
      SortedIsInOrder(arrivals, i + 1, end);
    }
  }

  /** With a steady clock the stored durations add up to the whole time of the run. */
  lemma DurationsCoverTheRun(steps: seq<Step>, now: nat)
    requires Clocked(steps, now) && Events(steps) != []
    ensures var s := Run(steps);
      s.start.Some? && s.start.value <= now && Total(s.arrivals, 0, now - s.start.value) == now - s.start.value
  {
    var s := Run(steps);
    RunKeepsInvariant(steps);
    SteadyArrivals(steps, now);
    SortedIsInOrder(s.arrivals, 0, now - s.start.value);
    DurationsAddUp(s.arrivals, 0, now - s.start.value);
  }

  /** The durations of the stored events, each in its place. */
  method AttachDurations(arrivals: seq<nat>, count: nat, end: nat) returns (durations: seq<nat>)
    requires count == |arrivals|
    ensures |durations| == count && forall i | 0 <= i < count :: durations[i] == Duration(arrivals, i, end)
  {
    durations := [];
    for i := 0 to count
      invariant |durations| == i && forall j | 0 <= j < i :: durations[j] == Duration(arrivals, j, end)
    {
      var next := if i + 1 < |arrivals| then arrivals[i + 1] else end;
      durations := durations + [Minus(next, arrivals[i])];
    }
  }
}
