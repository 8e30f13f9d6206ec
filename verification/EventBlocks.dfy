/** The blocks of a run's events: where each begins, when it arrived, and how long it took. */
module EventBlocks {
  import opened Wrappers
  import opened StreamEvents
  import opened StreamLaws
  import opened EventCollector

  // ── Blocks ────────────────────────────────────────────────────────

  /** The two are pieces of one text, or of the arguments of one call. */
  predicate SameBlock(a: Event, b: Event) {
    || (a.kind.TextDelta? && b.kind.TextDelta? && a.id == b.id)
    || (a.kind.ReasoningDelta? && b.kind.ReasoningDelta? && a.id == b.id)
    || (a.kind.InputDelta? && b.kind.InputDelta? && a.call == b.call)
  }

  /** Which of the events begin a block. */
  function Starts(events: seq<Event>): (starts: seq<nat>)
    ensures forall j | 0 <= j < |starts| :: starts[j] < |events|
    ensures events != [] ==> starts != [] && starts[0] == 0
  {
    if events == [] then []
    else
      var n := |events| - 1;
      Starts(events[..n]) + if n == 0 || !SameBlock(events[n - 1], events[n]) then [n] else []
  }

  /** Of a block the list keeps one event, which names the text or the call. */
  predicate Heads(a: Event, b: Event) {
    && a.kind == b.kind
    && (a.kind.TextDelta? || a.kind.ReasoningDelta? ==> a.id == b.id)
    && (a.kind.InputDelta? ==> a.call == b.call)
  }

  lemma HeadsContinue(head: Event, last: Event, ev: Event)
    requires Heads(head, last)
    ensures Continues(head, ev) <==> SameBlock(last, ev)
    ensures Continues(head, ev) ==> Heads(Join(head, ev), ev)
  {
  }

  /** One event of a coalesced list for every block, no more and no less. */
  lemma {:induction false} OneForEachBlock(events: seq<Event>)
    ensures |Coalesce(events)| == |Starts(events)|
    ensures events != [] ==>
      Coalesce(events) != [] && Heads(Coalesce(events)[|Coalesce(events)| - 1], events[|events| - 1])
  {
    if events != [] {
      var n := |events| - 1;
      var front := events[..n];
      OneForEachBlock(front);
      if n > 0 {
        assert front[n - 1] == events[n - 1];
        HeadsContinue(Coalesce(front)[|Coalesce(front)| - 1], events[n - 1], events[n]);
      }
    }
  }

  predicate Parted(list: seq<Event>) {
    forall j | 0 < j < |list| :: !SameBlock(list[j - 1], list[j])
  }

  lemma AppendParts(list: seq<Event>, ev: Event)
    requires Parted(list)
    ensures Parted(Append(list, ev))
  {
    var r, n := Append(list, ev), |list|;
    if n > 0 {
      HeadsContinue(list[n - 1], list[n - 1], ev);
    }
    forall j | 0 < j < |r| ensures !SameBlock(r[j - 1], r[j]) {
      if j < n {
        assert !SameBlock(list[j - 1], list[j]);
      }
    }
  }

  /** In a coalesced list no event continues the one before it. */
  lemma {:induction false} CoalescedIsParted(events: seq<Event>)
    ensures Parted(Coalesce(events))
  {
    if events != [] {
      CoalescedIsParted(events[..|events| - 1]);
      AppendParts(Coalesce(events[..|events| - 1]), events[|events| - 1]);
    }
  }

  // ── Arrivals ──────────────────────────────────────────────────────

  /** What the clock read when each event was received. */
  function Clocks(steps: seq<Step>): (clocks: seq<nat>)
    ensures |clocks| == |Events(steps)|
  {
    if steps == [] then []
    else Clocks(steps[..|steps| - 1]) + if steps[|steps| - 1].Received? then [steps[|steps| - 1].now] else []
  }

  /** Each block has the time from the first event of the run to its own. */
  predicate ArriveAt(arrivals: seq<nat>, clocks: seq<nat>, starts: seq<nat>)
    requires forall j | 0 <= j < |starts| :: starts[j] < |clocks|
  {
    && |arrivals| == |starts|
    && forall j | 0 <= j < |starts| :: arrivals[j]
         == if clocks[starts[j]] < clocks[0] then 0 else clocks[starts[j]] - clocks[0]
  }

  lemma StartsNext(events: seq<Event>, ev: Event, all: seq<Event>)
    requires all == events + [ev]
    ensures Starts(all)
         == Starts(events)
          + if events == [] || !SameBlock(events[|events| - 1], ev) then [|events|] else []
    ensures Coalesce(all) == Append(Coalesce(events), ev)
  {
    assert all[..|all| - 1] == events && all[|all| - 1] == ev;
  }

  lemma ArriveNext(arrivals: seq<nat>, clocks: seq<nat>, starts: seq<nat>, now: nat, all: seq<nat>, begins: bool)
    requires (forall j | 0 <= j < |starts| :: starts[j] < |clocks|) && ArriveAt(arrivals, clocks, starts)
    requires all == clocks + [now] && (clocks == [] ==> starts == [] && begins)
    ensures var first := if clocks == [] then now else clocks[0];
      ArriveAt(if begins then arrivals + [Minus(now, first)] else arrivals, all,
               if begins then starts + [|clocks|] else starts)
  {
    assert forall j | 0 <= j < |starts| :: all[starts[j]] == clocks[starts[j]];
  }

  /** The collector has seen these events at these times. */
  predicate HasSeen(s: Collected, events: seq<Event>, clocks: seq<nat>)
    requires |clocks| == |events|
  {
    && s.events == Coalesce(events)
    && s.start == (if clocks == [] then None else Some(clocks[0]))
    && ArriveAt(s.arrivals, clocks, Starts(events))
  }

  lemma CollectArrives(s: Collected, events: seq<Event>, clocks: seq<nat>, ev: Event, now: nat, all: seq<Event>,
                       times: seq<nat>)
    requires |clocks| == |events| && HasSeen(s, events, clocks)
    requires all == events + [ev] && times == clocks + [now]
    ensures HasSeen(Collect(s, ev, now), all, times)
  {
    var n := |events|;
    StartsNext(events, ev, all);
    OneForEachBlock(events);
    if n > 0 {
      HeadsContinue(s.events[|s.events| - 1], events[n - 1], ev);
    }
    ArriveNext(s.arrivals, clocks, Starts(events), now, times, n == 0 || !SameBlock(events[n - 1], ev));
  }

  lemma ReceiveArrives(s: Collected, events: seq<Event>, clocks: seq<nat>, ev: Event, now: nat, all: seq<Event>,
                       times: seq<nat>)
    requires |clocks| == |events| && HasSeen(s, events, clocks)
    requires all == events + [ev] && times == clocks + [now]
    ensures HasSeen(OnEvent(s, ev, now), all, times)
  {
    CollectArrives(s, events, clocks, ev, now, all, times);
  }

  lemma {:induction false} RunHasSeen(steps: seq<Step>)
    ensures HasSeen(Run(steps), Events(steps), Clocks(steps))
  {
    if steps != [] {
      var front, last := steps[..|steps| - 1], steps[|steps| - 1];
      RunHasSeen(front);
      if last.Received? {
        ReceiveArrives(Run(front), Events(front), Clocks(front), last.ev, last.now, Events(steps), Clocks(steps));
      } else {
        assert Events(steps) == Events(front) && Clocks(steps) == Clocks(front);
      }
    }
  }

  /** In every run the arrival of a block is the clock at its first event, less that at the first event
    * of the run. */
  lemma ArrivalsAreClocks(steps: seq<Step>)
    ensures var arrivals, clocks, starts := Run(steps).arrivals, Clocks(steps), Starts(Events(steps));
      && |arrivals| == |starts|
      && forall j | 0 <= j < |starts| :: arrivals[j]
           == if clocks[starts[j]] < clocks[0] then 0 else clocks[starts[j]] - clocks[0]
  {
    RunHasSeen(steps);
  }

  // ── Batches ───────────────────────────────────────────────────────

  /** When the timer fires, all that waits goes out as one batch. */
  lemma TickDelivers(steps: seq<Step>, all: seq<Step>)
    requires all == steps + [Tick]
    ensures var before, after := Run(steps), Run(all);
      && after.pending == [] && after.events == before.events && after.arrivals == before.arrivals
      && after.batches == if before.pending == [] then before.batches else before.batches + [before.pending]
  {
    assert all[..|all| - 1] == steps && all[|all| - 1] == Tick;
  }

  /** A received event completes a batch of 64 or none. */
  lemma BatchesAreFull(steps: seq<Step>, ev: Event, now: nat, all: seq<Step>)
    requires all == steps + [Received(ev, now)]
    ensures var before, after := Run(steps), Run(all);
      || (after.batches == before.batches && |after.pending| < 64)
      || (|after.batches| == |before.batches| + 1 && after.batches[..|before.batches|] == before.batches
          && |after.batches[|before.batches|]| == 64 && after.pending == [])
  {
    assert all[..|all| - 1] == steps && all[|all| - 1] == Received(ev, now);
    RunKeepsInvariant(steps);
  }

  // ── Durations ─────────────────────────────────────────────────────

  lemma {:induction false} ClocksAreSteady(steps: seq<Step>, now: nat)
    requires Clocked(steps, now)
    ensures forall i | 0 <= i < |Clocks(steps)| :: Clocks(steps)[i] <= now
    ensures forall i, j | 0 <= i < j < |Clocks(steps)| :: Clocks(steps)[i] <= Clocks(steps)[j]
  {
    if steps != [] {
      var front, last := steps[..|steps| - 1], steps[|steps| - 1];
      assert forall i | 0 <= i < |front| :: front[i] == steps[i];
      ClocksAreSteady(front, if last.Received? then last.now else now);
    }
  }

  lemma {:induction false} StartsGrow(events: seq<Event>)
    ensures forall i, j | 0 <= i < j < |Starts(events)| :: Starts(events)[i] < Starts(events)[j]
  {
    if events != [] {
      StartsGrow(events[..|events| - 1]);
    }
  }

  /** With a steady clock the duration stored with a block is the time from its first event to that of the
    * next block, or to the end. */
  lemma DurationsAreClocks(steps: seq<Step>, now: nat, j: nat)
    requires Clocked(steps, now) && j < |Starts(Events(steps))|
    ensures var clocks, starts, arrivals := Clocks(steps), Starts(Events(steps)), Run(steps).arrivals;
      && |arrivals| == |starts| && clocks[0] <= now
      && Duration(arrivals, j, now - clocks[0])
         == (if j + 1 < |starts| then clocks[starts[j + 1]] else now) - clocks[starts[j]]
  {
    RunHasSeen(steps);
    ClocksAreSteady(steps, now);
    StartsGrow(Events(steps));
  }
}
