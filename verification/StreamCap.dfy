/** What the cap on a compacted log keeps, and when compacting a capped log again changes nothing. */
module StreamCap {
  import opened Wrappers
  import opened StreamEvents
  import opened StreamRender
  import opened StreamLaws

  // ── A log without its middle ──────────────────────────────────────

  function Without(out: seq<Event>, h: nat, m: nat): (r: seq<Event>)
    requires h <= m <= |out|
    ensures |r| == h + |out| - m
  {
    out[..h] + out[m..]
  }

  lemma WithoutAt(out: seq<Event>, h: nat, m: nat, i: nat)
    requires h <= m <= |out| && i < h + |out| - m
    ensures Without(out, h, m)[i] == out[if i < h then i else i + m - h]
  {
  }

  /** Nothing in a part of a log in which nothing is redundant is redundant, if the two neighbours that
    * are new do not merge. */
  lemma PartIsNormal(out: seq<Event>, h: nat, m: nat, complete: set<string>, fewer: set<string>)
    requires Normal(out, complete) && 0 < h <= m <= |out| && fewer <= complete
    requires m < |out| ==> Apart(out[h - 1], out[m])
    ensures Normal(Without(out, h, m), fewer)
  {
    var r := Without(out, h, m);
    forall i | 0 < i < |r| ensures Apart(r[i - 1], r[i]) {
      WithoutAt(out, h, m, i);
      WithoutAt(out, h, m, i - 1);
      if i != h {
        var j := if i < h then i else i + m - h;
        assert Apart(out[j - 1], out[j]);
      }
    }
    forall i | 0 <= i < |r| ensures r[i] == out[if i < h then i else i + m - h] {
      WithoutAt(out, h, m, i);
    }
  }

  // ── How long a log becomes ────────────────────────────────────────

  function Size(st: State): nat {
    |st.out| + |Opt(st.context)| + |Opt(st.todo)|
  }

  lemma StepSize(st: State, ev: Event, complete: set<string>)
    requires ValidIndex(st)
    ensures Size(Step(st, ev, complete)) <= Size(st) + 1
    ensures st.out != [] && !Apart(st.out[|st.out| - 1], ev) ==> Size(Step(st, ev, complete)) == Size(st)
  {
  }

  /** How long the compacted log is before the cap. */
  function Length(log: seq<Event>, complete: set<string>): nat {
    Size(Fold(log, complete))
  }

  lemma LengthSnoc(front: seq<Event>, ev: Event, log: seq<Event>, complete: set<string>)
    requires log == front + [ev]
    ensures Length(log, complete) <= Length(front, complete) + 1
  {
    FoldSnoc(front, ev, complete);
    StepSize(Fold(front, complete), ev, complete);
  }

  lemma SplitLast(front: seq<Event>, more: seq<Event>, log: seq<Event>) returns (shorter: seq<Event>)
    requires log == front + more && more != []
    ensures shorter == front + more[..|more| - 1] && log == shorter + [more[|more| - 1]]
  {
    shorter := front + more[..|more| - 1];
  }

  lemma {:induction false} LengthAfter(front: seq<Event>, more: seq<Event>, log: seq<Event>, complete: set<string>)
    requires log == front + more
    ensures Length(log, complete) <= Length(front, complete) + |more|
    decreases |more|
  {
    if |more| == 0 {
      assert log == front;
    } else {
      var shorter := SplitLast(front, more, log);
      LengthAfter(front, more[..|more| - 1], shorter, complete);
      LengthSnoc(shorter, more[|more| - 1], log, complete);
    }
  }

  lemma NormalLength(out: seq<Event>, complete: set<string>)
    requires Normal(out, complete)
    ensures Fold(out, complete).out == out && Length(out, complete) == |out|
  {
    NormalIsKept(out, complete);
  }

  lemma MergeStep(st: State, front: seq<Event>, ev: Event, complete: set<string>)
    requires ValidIndex(st) && st.out == front && Size(st) == |front|
    requires front != [] && !Apart(front[|front| - 1], ev)
    ensures Size(Step(st, ev, complete)) == |front|
  {
    StepSize(st, ev, complete);
  }

  /** An event that merges with the last one adds nothing to the length. */
  lemma MergeAddsNothing(front: seq<Event>, ev: Event, complete: set<string>)
    requires front != [] && Normal(front, complete) && !Apart(front[|front| - 1], ev)
    ensures Length(front + [ev], complete) == |front|
  {
    NormalLength(front, complete);
    FoldSnoc(front, ev, complete);
    MergeStep(Fold(front, complete), front, ev, complete);
  }

  // ── Compacting twice ──────────────────────────────────────────────

  lemma FrontIsNormal(out: seq<Event>, h: nat, complete: set<string>, fewer: set<string>)
    requires Normal(out, complete) && 0 < h <= |out| && fewer <= complete
    ensures Normal(out[..h], fewer)
  {
    PartIsNormal(out, h, |out|, complete, fewer);
    assert Without(out, h, |out|) == out[..h];
  }

  /** A shortened log in which head and tail do not merge at the seam is compacted to itself. */
  lemma ShortenedTwice(out: seq<Event>, h: nat, m: nat, context: Option<Event>, todo: Option<Event>,
                       complete: set<string>, log: seq<Event>)
    requires Normal(out, complete) && 0 < h < m < |out| && Apart(out[h - 1], out[m])
    requires context.Some? ==> context.value.kind.ContextUsage?
    requires todo.Some? ==> todo.value.kind.TodoUpdate?
    requires log == Without(out, h, m) + Opt(context) + Opt(todo) && Complete(log) <= complete
    ensures Uncapped(log) == log
  {
    PartIsNormal(out, h, m, complete, Complete(log));
    KeptTwice(Without(out, h, m), context, todo, Complete(log));
  }

  lemma FoldIsShorter(front: seq<Event>, ev: Event, more: seq<Event>, log: seq<Event>, complete: set<string>)
    requires front != [] && Normal(front, complete) && !Apart(front[|front| - 1], ev)
    requires log == (front + [ev]) + more
    ensures Length(log, complete) < |log|
  {
    MergeAddsNothing(front, ev, complete);
    LengthAfter(front + [ev], more, log, complete);
  }

  /** One in which they do becomes shorter. */
  lemma ShortenedShrinks(out: seq<Event>, h: nat, m: nat, status: seq<Event>, complete: set<string>, log: seq<Event>)
    requires Normal(out, complete) && 0 < h < m < |out| && !Apart(out[h - 1], out[m])
    requires log == Without(out, h, m) + status && Complete(log) <= complete
    ensures |Uncapped(log)| < |log|
  {
    FrontIsNormal(out, h, complete, Complete(log));
    var more := out[m + 1..] + status;
    assert log == (out[..h] + [out[m]]) + more;
    FoldIsShorter(out[..h], out[m], more, log, Complete(log));
  }

  lemma CompleteOfPart(out: seq<Event>, h: nat, m: nat, context: seq<Event>, todo: seq<Event>)
    requires h <= m <= |out|
    ensures Complete(Without(out, h, m) + context + todo) <= Complete(out + context + todo)
  {
    forall ev | ev in Without(out, h, m) + context + todo ensures ev in out + context + todo {
      assert ev in Without(out, h, m) ==> ev in out;
    }
  }

  const HEAD: nat := PERSIST_EVENT_CAP / 2

  lemma CapIs(log: seq<Event>)
    requires |log| > PERSIST_EVENT_CAP
    ensures 2 * HEAD == PERSIST_EVENT_CAP && 2 < HEAD && Cap(log) == log[..HEAD] + log[|log| - HEAD..]
  {
  }

  lemma UncappedIs(events: seq<Event>) returns (out: seq<Event>, context: Option<Event>, todo: Option<Event>)
    ensures Normal(out, Complete(events)) && Uncapped(events) == out + Opt(context) + Opt(todo)
    ensures context == LastOf(events, ContextUsage) && todo == LastOf(events, TodoUpdate)
    ensures Complete(Uncapped(events)) == Complete(events)
  {
    var st := Fold(events, Complete(events));
    FoldNormal(events, Complete(events));
    FoldRepresents(events, Complete(events));
    UncappedRendersTheSame(events);
    out, context, todo := st.out, st.context, st.todo;
  }

  /** What `compact_stream_events` leaves of a log that is too long. */
  lemma CappedLog(events: seq<Event>)
    returns (out: seq<Event>, m: nat, context: Option<Event>, todo: Option<Event>)
    requires |Uncapped(events)| > PERSIST_EVENT_CAP
    ensures 0 < HEAD < m < |out| && Normal(out, Complete(events))
    ensures context == LastOf(events, ContextUsage) && todo == LastOf(events, TodoUpdate)
    ensures Uncapped(events) == out + Opt(context) + Opt(todo) && m == |Uncapped(events)| - HEAD
    ensures Compact(events) == Without(out, HEAD, m) + Opt(context) + Opt(todo)
    ensures Complete(Compact(events)) <= Complete(events)
  {
    out, context, todo := UncappedIs(events);
    CapIs(Uncapped(events));
    m := CappedParts(out, Opt(context), Opt(todo), Uncapped(events), HEAD);
    CompleteOfPart(out, HEAD, m, Opt(context), Opt(todo));
  }

  lemma CappedParts(out: seq<Event>, context: seq<Event>, todo: seq<Event>, log: seq<Event>, h: nat) returns (m: nat)
    requires log == out + context + todo && |context| <= 1 && |todo| <= 1 && 2 < h && |log| > 2 * h
    ensures h < m < |out| && m == |log| - h
    ensures log[..h] + log[|log| - h..] == Without(out, h, m) + context + todo
  {
    m := |log| - h;
    assert log[..h] == out[..h];
    assert log[m..] == out[m..] + context + todo;
  }

  /** The events that the cap makes neighbours do not merge. */
  predicate SeamHolds(log: seq<Event>)
    requires |log| > HEAD > 0
  {
    Apart(log[HEAD - 1], log[HEAD])
  }

  lemma CappedTwiceIff(events: seq<Event>)
    requires |Uncapped(events)| > PERSIST_EVENT_CAP
    ensures |Compact(events)| > HEAD > 0
    ensures Compact(Compact(events)) == Compact(events) <==> SeamHolds(Compact(events))
  {
    var log := Compact(events);
    var out, m, context, todo := CappedLog(events);
    CapIs(Uncapped(events));
    LastOfKind(events, ContextUsage);
    LastOfKind(events, TodoUpdate);
    assert log[HEAD - 1] == out[HEAD - 1] && log[HEAD] == out[m];
    if Apart(out[HEAD - 1], out[m]) {
      ShortenedTwice(out, HEAD, m, context, todo, Complete(events), log);
    } else {
      assert log == Without(out, HEAD, m) + (Opt(context) + Opt(todo));
      ShortenedShrinks(out, HEAD, m, Opt(context) + Opt(todo), Complete(events), log);
    }
  }

  /** Compacting a log twice is compacting it once if and only if it fits, or the two events that the
    * cap makes neighbours do not merge. */
  lemma CompactionIsIdempotentIff(events: seq<Event>)
    ensures |Uncapped(events)| > PERSIST_EVENT_CAP ==> |Compact(events)| > HEAD > 0
    ensures Compact(Compact(events)) == Compact(events)
       <==> |Uncapped(events)| <= PERSIST_EVENT_CAP || SeamHolds(Compact(events))
  {
    if |Uncapped(events)| <= PERSIST_EVENT_CAP {
      CompactionIsIdempotent(events);
    } else {
      CappedTwiceIff(events);
    }
  }

  /** A log of up to 6000 events is stored whole, of a longer one the first and the last 3000. */
  lemma StoredIsHeadAndTail(events: seq<Event>)
    ensures var log := Uncapped(events);
      Compact(events) == if |log| <= 6_000 then log else log[..3_000] + log[|log| - 3_000..]
  {
  }

  /** However long the log, at most 6000 events are stored, and the last status readouts
    * are the ones of the full log. */
  lemma ReadoutsSurviveTheCap(events: seq<Event>, kind: Kind)
    requires kind.ContextUsage? || kind.TodoUpdate?
    ensures |Compact(events)| <= 6_000 && LastOf(Compact(events), kind) == LastOf(events, kind)
  {
    if |Uncapped(events)| <= PERSIST_EVENT_CAP {
      UncappedRendersTheSame(events);
    } else {
      var out, m, context, todo := CappedLog(events);
      LastOfKind(events, ContextUsage);
      LastOfKind(events, TodoUpdate);
      var part := Without(out, HEAD, m);
      forall i | 0 <= i < |part| ensures part[i] in out {
        WithoutAt(out, HEAD, m, i);
      }
      NoStatusNoLast(part);
      StatusAtEnd(part, context, {});
      StatusAtEnd(part + Opt(context), todo, {});
    }
  }

  // ── What the cap loses ────────────────────────────────────────────

  /** How many tokens an event shows where nothing is redundant. */
  function Weight(ev: Event): nat {
    if IsText(ev.kind) then |Text(ev.text)| else if ev.kind.InputDelta? then |Text(ev.delta)| else 1
  }

  function TotalWeight(out: seq<Event>): nat {
    if out == [] then 0 else TotalWeight(out[..|out| - 1]) + Weight(out[|out| - 1])
  }

  lemma {:induction false} WeightAppend(a: seq<Event>, b: seq<Event>)
    ensures TotalWeight(a + b) == TotalWeight(a) + TotalWeight(b)
    decreases |b|
  {
    if b == [] {
      assert a + b == a;
    } else {
      var n := |b| - 1;
      WeightAppend(a, b[..n]);
      assert (a + b)[..|a + b| - 1] == a + b[..n];
    }
  }

  lemma {:induction false} ZeroWeight(out: seq<Event>)
    ensures TotalWeight(out) == 0 <==> forall i | 0 <= i < |out| :: Weight(out[i]) == 0
  {
    if out != [] {
      ZeroWeight(out[..|out| - 1]);
    }
  }

  /** Normal but for neighbours that merge. */
  predicate Lean(out: seq<Event>, complete: set<string>) {
    && (forall i | 0 <= i < |out| && out[i].kind.InputDelta? :: Text(out[i].call) !in complete)
    && UniqueInputs(out) && UniqueOutputs(out) && NoStatus(out)
  }

  lemma {:induction false} OutputsAreListed(out: seq<Event>, call: string)
    ensures call in LastOutputs(out)
       ==> exists i :: 0 <= i < |out| && out[i].kind.OutputAvailable? && Text(out[i].call) == call && call != ""
  {
    if out != [] {
      OutputsAreListed(out[..|out| - 1], call);
      if call in LastOutputs(out[..|out| - 1]) {
        var i :| 0 <= i < |out| - 1 && out[i].kind.OutputAvailable? && Text(out[i].call) == call && call != "";
        assert out[i].kind.OutputAvailable?;
      } else if call in LastOutputs(out) {
        assert out[|out| - 1].kind.OutputAvailable?;
      }
    }
  }

  /** The last event of a lean log shows all it has. */
  lemma LastShows(front: seq<Event>, ev: Event, complete: set<string>)
    requires Lean(front + [ev], complete)
    ensures |Tokens(Complete(front), LastOutputs(front).Keys, ev, complete)| == Weight(ev)
  {
    var out, n := front + [ev], |front|;
    assert out[n] == ev && forall i | 0 <= i < n :: out[i] == front[i];
    OutputsAreListed(front, Text(ev.call));
  }

  lemma {:induction false} FlowHasWeight(out: seq<Event>, complete: set<string>)
    requires Lean(out, complete)
    ensures |Flow(out, complete)| == TotalWeight(out)
  {
    if out != [] {
      var front, last := out[..|out| - 1], out[|out| - 1];
      assert out == front + [last];
      assert forall i | 0 <= i < |front| :: front[i] == out[i];
      FlowHasWeight(front, complete);
      LastShows(front, last, complete);
    }
  }

  lemma PartIsLean(out: seq<Event>, h: nat, m: nat, complete: set<string>, fewer: set<string>)
    requires Lean(out, complete) && h <= m <= |out| && fewer <= complete
    ensures Lean(Without(out, h, m), fewer)
  {
    forall i | 0 <= i < h + |out| - m ensures Without(out, h, m)[i] == out[if i < h then i else i + m - h] {
      WithoutAt(out, h, m, i);
    }
  }

  lemma PartWeighs(front: seq<Event>, middle: seq<Event>, more: seq<Event>)
    ensures TotalWeight((front + middle) + more) == TotalWeight(front + more) + TotalWeight(middle)
  {
    WeightAppend(front + middle, more);
    WeightAppend(front, middle);
    WeightAppend(front, more);
  }

  lemma SilentShowsNothing(front: seq<Event>, ev: Event, complete: set<string>)
    requires Weight(ev) == 0
    ensures Tokens(Complete(front), LastOutputs(front).Keys, ev, complete) == []
    ensures !ev.kind.OutputAvailable? && !ev.kind.InputAvailable?
  {
  }

  lemma {:induction false} SilentIsSkipped(front: seq<Event>, silent: seq<Event>, log: seq<Event>,
                                           complete: set<string>)
    requires log == front + silent && forall i | 0 <= i < |silent| :: Weight(silent[i]) == 0
    ensures Alike(front, log, complete)
    decreases |silent|
  {
    if |silent| == 0 {
      assert log == front;
    } else {
      var shorter := SplitLast(front, silent, log);
      SilentIsSkipped(front, silent[..|silent| - 1], shorter, complete);
      SilentShowsNothing(shorter, silent[|silent| - 1], complete);
      SkipAlike(front, shorter, silent[|silent| - 1], complete);
    }
  }

  lemma {:induction false} SameAfterAll(a: seq<Event>, b: seq<Event>, more: seq<Event>, x: seq<Event>, y: seq<Event>,
                                         complete: set<string>)
    requires Alike(a, b, complete) && x == a + more && y == b + more
    ensures Alike(x, y, complete)
    decreases |more|
  {
    if |more| == 0 {
      assert x == a && y == b;
    } else {
      var x0 := SplitLast(a, more, x);
      var y0 := SplitLast(b, more, y);
      SameAfterAll(a, b, more[..|more| - 1], x0, y0, complete);
      PushAlike(x0, y0, more[|more| - 1], complete);
    }
  }

  predicate Silent(events: seq<Event>) {
    forall i | 0 <= i < |events| :: Weight(events[i]) == 0
  }

  /** Leaving out events that show nothing changes nothing. */
  lemma SilentPart(front: seq<Event>, silent: seq<Event>, more: seq<Event>, part: seq<Event>, out: seq<Event>,
                   complete: set<string>)
    requires Silent(silent) && part == front + more && out == (front + silent) + more
    ensures Alike(part, out, complete)
  {
    var log := front + silent;
    SilentIsSkipped(front, silent, log, complete);
    SameAfterAll(front, log, more, part, out, complete);
  }

  lemma Parts(out: seq<Event>, h: nat, m: nat)
    requires h <= m <= |out|
    ensures Without(out, h, m) == out[..h] + out[m..] && out == (out[..h] + out[h..m]) + out[m..]
  {
  }

  /** A log without its middle shows as much as before exactly if the middle shows nothing, and then
    * it shows the same. */
  lemma PartShowsSameIff(out: seq<Event>, h: nat, m: nat, complete: set<string>, fewer: set<string>)
    requires Lean(out, complete) && h <= m <= |out| && fewer <= complete
    ensures Silent(out[h..m]) ==> Alike(Without(out, h, m), out, complete)
    ensures !Silent(out[h..m]) ==> |Flow(Without(out, h, m), fewer)| < |Flow(out, complete)|
  {
    Parts(out, h, m);
    if Silent(out[h..m]) {
      SilentPart(out[..h], out[h..m], out[m..], Without(out, h, m), out, complete);
    } else {
      PartIsLean(out, h, m, complete, fewer);
      FlowHasWeight(out, complete);
      FlowHasWeight(Without(out, h, m), fewer);
      PartWeighs(out[..h], out[h..m], out[m..]);
      ZeroWeight(out[h..m]);
    }
  }

  lemma StatusShowsNothing(out: seq<Event>, context: Option<Event>, todo: Option<Event>, log: seq<Event>,
                           complete: set<string>)
    requires log == out + Opt(context) + Opt(todo)
    requires context.Some? ==> context.value.kind.ContextUsage?
    requires todo.Some? ==> todo.value.kind.TodoUpdate?
    ensures Alike(log, out, complete)
  {
    StatusAtEnd(out, context, complete);
    StatusAtEnd(out + Opt(context), todo, complete);
  }

  lemma CappedMiddle(out: seq<Event>, context: seq<Event>, todo: seq<Event>, log: seq<Event>, h: nat, m: nat)
    requires log == out + context + todo && h < m < |out| && m == |log| - h
    ensures log[h..|log| - h] == out[h..m]
  {
  }

  /** If what is dropped shows nothing, the reader sees the same. */
  lemma SilentMiddle(out: seq<Event>, part: seq<Event>, context: Option<Event>, todo: Option<Event>,
                     log: seq<Event>, capped: seq<Event>)
    requires log == out + Opt(context) + Opt(todo) && capped == part + Opt(context) + Opt(todo)
    requires context.Some? ==> context.value.kind.ContextUsage?
    requires todo.Some? ==> todo.value.kind.TodoUpdate?
    requires Alike(part, out, Complete(log))
    ensures Alike(capped, log, Complete(log))
  {
    StatusShowsNothing(out, context, todo, log, Complete(log));
    StatusShowsNothing(part, context, todo, capped, Complete(log));
  }

  /** If not, the reader sees less. */
  lemma LoudMiddle(out: seq<Event>, part: seq<Event>, context: Option<Event>, todo: Option<Event>,
                   log: seq<Event>, capped: seq<Event>)
    requires log == out + Opt(context) + Opt(todo) && capped == part + Opt(context) + Opt(todo)
    requires context.Some? ==> context.value.kind.ContextUsage?
    requires todo.Some? ==> todo.value.kind.TodoUpdate?
    requires |Flow(part, Complete(capped))| < |Flow(out, Complete(log))|
    ensures |Flow(capped, Complete(capped))| < |Flow(log, Complete(log))|
  {
    StatusShowsNothing(out, context, todo, log, Complete(log));
    StatusShowsNothing(part, context, todo, capped, Complete(capped));
  }

  /** What the cap drops. */
  function Dropped(log: seq<Event>): (middle: seq<Event>)
    requires |log| > PERSIST_EVENT_CAP
  {
    log[HEAD..|log| - HEAD]
  }

  lemma SameRender(capped: seq<Event>, log: seq<Event>)
    requires Alike(capped, log, Complete(log))
    requires LastOf(capped, ContextUsage) == LastOf(log, ContextUsage)
    requires LastOf(capped, TodoUpdate) == LastOf(log, TodoUpdate)
    ensures Render(capped) == Render(log)
  {
  }

  lemma LessRender(capped: seq<Event>, log: seq<Event>)
    requires |Flow(capped, Complete(capped))| < |Flow(log, Complete(log))|
    ensures Render(capped) != Render(log)
  {
    assert Render(capped).flow == Flow(capped, Complete(capped)) && Render(log).flow == Flow(log, Complete(log));
  }

  /** The two logs with what they have in common. */
  lemma CappedAndUncapped(events: seq<Event>)
    returns (out: seq<Event>, m: nat, part: seq<Event>, context: Option<Event>, todo: Option<Event>)
    requires |Uncapped(events)| > PERSIST_EVENT_CAP
    ensures HEAD < m < |out| && part == Without(out, HEAD, m) && Dropped(Uncapped(events)) == out[HEAD..m]
    ensures Lean(out, Complete(Uncapped(events))) && Complete(Compact(events)) <= Complete(Uncapped(events))
    ensures context.Some? ==> context.value.kind.ContextUsage?
    ensures todo.Some? ==> todo.value.kind.TodoUpdate?
    ensures Uncapped(events) == out + Opt(context) + Opt(todo) && Compact(events) == part + Opt(context) + Opt(todo)
  {
    out, m, context, todo := CappedLog(events);
    part := Without(out, HEAD, m);
    LastOfKind(events, ContextUsage);
    LastOfKind(events, TodoUpdate);
    UncappedRendersTheSame(events);
    CappedMiddle(out, Opt(context), Opt(todo), Uncapped(events), HEAD, m);
  }

  lemma SilentCap(events: seq<Event>)
    requires |Uncapped(events)| > PERSIST_EVENT_CAP && Silent(Dropped(Uncapped(events)))
    ensures Render(Compact(events)) == Render(Uncapped(events))
  {
    var out, m, part, context, todo := CappedAndUncapped(events);
    var capped, log := Compact(events), Uncapped(events);
    PartShowsSameIff(out, HEAD, m, Complete(log), Complete(capped));
    SilentMiddle(out, part, context, todo, log, capped);
    ReadoutsSurviveTheCap(events, ContextUsage);
    ReadoutsSurviveTheCap(events, TodoUpdate);
    UncappedRendersTheSame(events);
    SameRender(capped, log);
  }

  lemma LoudCap(events: seq<Event>)
    requires |Uncapped(events)| > PERSIST_EVENT_CAP && !Silent(Dropped(Uncapped(events)))
    ensures Render(Compact(events)) != Render(Uncapped(events))
  {
    var out, m, part, context, todo := CappedAndUncapped(events);
    var capped, log := Compact(events), Uncapped(events);
    PartShowsSameIff(out, HEAD, m, Complete(log), Complete(capped));
    LoudMiddle(out, part, context, todo, log, capped);
    LessRender(capped, log);
  }

  /** A log is stored without loss to the reader if and only if it fits, or all that the cap drops is
    * deltas without text. */
  lemma CompactionRendersTheSameIff(events: seq<Event>)
    ensures Render(Compact(events)) == Render(events)
       <==> |Uncapped(events)| <= PERSIST_EVENT_CAP || Silent(Dropped(Uncapped(events)))
  {
    UncappedRendersTheSame(events);
    if |Uncapped(events)| > PERSIST_EVENT_CAP {
      if Silent(Dropped(Uncapped(events))) {
        SilentCap(events);
      } else {
        LoudCap(events);
      }
    }
  }

  // ── The payload of a call ─────────────────────────────────────────

  lemma {:induction false} FirstInputAppend(a: seq<Event>, b: seq<Event>, call: string)
    ensures FirstInput(a + b, call) == if FirstInput(a, call).Some? then FirstInput(a, call) else FirstInput(b, call)
  {
    if a == [] {
      assert a + b == b;
    } else {
      assert (a + b)[0] == a[0] && (a + b)[1..] == a[1..] + b;
      FirstInputAppend(a[1..], b, call);
    }
  }

  lemma {:induction false} FirstInputAt(events: seq<Event>, call: string) returns (i: nat)
    requires FirstInput(events, call).Some?
    ensures i < |events| && events[i].kind.InputAvailable? && Text(events[i].call) == call
  {
    if events[0].kind.InputAvailable? && Text(events[0].call) == call {
      i := 0;
    } else {
      var j := FirstInputAt(events[1..], call);
      i := j + 1;
    }
  }

  lemma {:induction false} LastIfFirst(events: seq<Event>, call: string)
    ensures LastInput(events, call).Some? <==> FirstInput(events, call).Some?
  {
    if events != [] {
      var front, last := events[..|events| - 1], events[|events| - 1];
      assert events == front + [last];
      LastIfFirst(front, call);
      FirstInputSnoc(front, last, call);
    }
  }

  lemma {:induction false} NoInput(events: seq<Event>, call: string)
    requires forall j | 0 <= j < |events| && events[j].kind.InputAvailable? :: Text(events[j].call) != call
    ensures FirstInput(events, call).None?
  {
    if events != [] {
      NoInput(events[1..], call);
    }
  }

  /** Only one of two parts has a payload of the call. */
  lemma InputIsInOne(a: seq<Event>, b: seq<Event>, call: string)
    requires UniqueInputs(a + b) && call != "" && FirstInput(a, call).Some?
    ensures FirstInput(b, call).None?
  {
    var i := FirstInputAt(a, call);
    forall j | 0 <= j < |b| && b[j].kind.InputAvailable? ensures Text(b[j].call) != call {
      assert (a + b)[i] == a[i] && (a + b)[|a| + j] == b[j];
    }
    NoInput(b, call);
  }

  lemma PartsAreUnique(out: seq<Event>, h: nat, m: nat)
    requires UniqueInputs(out) && h <= m <= |out|
    ensures UniqueInputs(out[..h] + out[h..m]) && UniqueInputs(out[h..m] + out[m..]) && UniqueInputs(Without(out, h, m))
  {
    assert out[..h] + out[h..m] == out[..m];
    assert out[h..m] + out[m..] == out[h..];
    forall i | 0 <= i < h + |out| - m ensures Without(out, h, m)[i] == out[if i < h then i else i + m - h] {
      WithoutAt(out, h, m, i);
    }
  }

  /** A log without its middle has the payload of a call that the whole log has, unless the middle has it,
    * and then it has none. */
  lemma InputWithout(out: seq<Event>, h: nat, m: nat, call: string)
    requires UniqueInputs(out) && h <= m <= |out| && call != ""
    ensures LastInput(Without(out, h, m), call)
         == if FirstInput(out[h..m], call).Some? then None else FirstInput(out, call)
    ensures FirstInput(out[h..m], call).Some? ==> FirstInput(out, call).Some?
  {
    var head, middle, tail := out[..h], out[h..m], out[m..];
    PartsAreUnique(out, h, m);
    OnlyInputIsLast(Without(out, h, m), call);
    FirstInputAppend(head, tail, call);
    FirstInputAppend(head, middle, call);
    FirstInputAppend(head + middle, tail, call);
    Parts(out, h, m);
    if FirstInput(middle, call).Some? {
      InputIsInOne(middle, tail, call);
      if FirstInput(head, call).Some? {
        InputIsInOne(head, middle, call);
        assert false;
      }
    }
  }

  /** The payload of a call was not dropped by the cap. */
  predicate InputFits(log: seq<Event>, call: string) {
    |log| > PERSIST_EVENT_CAP ==> FirstInput(Dropped(log), call).None?
  }

  lemma CapParts(log: seq<Event>) returns (h: nat, m: nat)
    requires |log| > PERSIST_EVENT_CAP
    ensures h <= m <= |log| && Cap(log) == Without(log, h, m) && Dropped(log) == log[h..m]
  {
    CapIs(log);
    h, m := HEAD, |log| - HEAD;
  }

  lemma CapInput(log: seq<Event>, call: string)
    requires UniqueInputs(log) && call != "" && |log| > PERSIST_EVENT_CAP
    ensures LastInput(Cap(log), call) == if InputFits(log, call) then FirstInput(log, call) else None
    ensures !InputFits(log, call) ==> FirstInput(log, call).Some?
  {
    var h, m := CapParts(log);
    InputWithout(log, h, m, call);
  }

  lemma StoredInput(events: seq<Event>, call: string)
    requires call != ""
    ensures LastInput(Compact(events), call)
         == if InputFits(Uncapped(events), call) then FirstInput(events, call) else None
    ensures !InputFits(Uncapped(events), call) ==> FirstInput(events, call).Some?
  {
    InputsAreUnique(events);
    UncappedKeepsReadings(events, TextDelta, "", call);
    if |Uncapped(events)| > PERSIST_EVENT_CAP {
      CapInput(Uncapped(events), call);
    } else {
      OnlyInputIsLast(Uncapped(events), call);
    }
  }

  /** Compaction keeps the first payload of a call and the frontend applies the last, so after a reload it
    * ends up with the same one if and only if the first and the last are the same and the cap did not
    * drop it. */
  lemma LastPayloadIff(events: seq<Event>, call: string)
    requires call != ""
    ensures LastInput(Compact(events), call) == LastInput(events, call)
       <==> FirstInput(events, call) == LastInput(events, call) && InputFits(Uncapped(events), call)
  {
    StoredInput(events, call);
    LastIfFirst(events, call);
  }

  // ── Logs that fail ────────────────────────────────────────────────

  lemma ShortLog(events: seq<Event>)
    requires |events| <= PERSIST_EVENT_CAP
    ensures |Uncapped(events)| <= PERSIST_EVENT_CAP
  {
    assert Length([], Complete(events)) == 0;
    LengthAfter([], events, events, Complete(events));
  }

  /** Two payloads of one call: the first is stored, the frontend applied the second. */
  lemma TwoPayloads(events: seq<Event>, first: Event, second: Event, call: string)
    requires events == [first, second] && first != second && call != ""
    requires first.kind.InputAvailable? && second.kind.InputAvailable?
    requires first.call == Str(call) && second.call == Str(call)
    ensures LastInput(events, call) == Some(second) && LastInput(Compact(events), call) == Some(first)
  {
    ShortLog(events);
    StoredInput(events, call);
  }

  function TextAt(i: nat): (ev: Event) {
    Event(TextDelta, Str(if i % 2 == 0 then "a" else "b"), Missing, Str("x"), Missing, "")
  }

  /** Two blocks of text that take turns. */
  function Alternating(n: nat): (events: seq<Event>)
    ensures |events| == n && forall i | 0 <= i < n :: events[i] == TextAt(i)
  {
    seq(n, i requires 0 <= i < n => TextAt(i))
  }

  lemma OnlyText(out: seq<Event>)
    requires forall i | 0 <= i < |out| :: out[i].kind.TextDelta?
    requires forall i | 0 < i < |out| :: Apart(out[i - 1], out[i])
    ensures Normal(out, {}) && Complete(out) == {}
  {
    assert Complete(out) == {};
    assert UniqueInputs(out);
    assert UniqueOutputs(out);
    assert NoStatus(out);
  }

  lemma TextIsKept(out: seq<Event>)
    requires Normal(out, {}) && Complete(out) == {}
    ensures Uncapped(out) == out
  {
    NormalIsKept(out, {});
  }

  lemma TurnsAreApart(i: nat)
    ensures Apart(TextAt(i), TextAt(i + 1))
  {
    assert Text(TextAt(i).id) != Text(TextAt(i + 1).id);
  }

  lemma AlternatingIsKept(n: nat, out: seq<Event>)
    requires out == Alternating(n)
    ensures Uncapped(out) == out
  {
    forall i | 0 < i < |out| ensures Apart(out[i - 1], out[i]) {
      TurnsAreApart(i - 1);
    }
    OnlyText(out);
    TextIsKept(out);
  }

  lemma OddSeam(events: seq<Event>, h: nat, capped: seq<Event>, dropped: seq<Event>)
    requires events == Alternating(2 * h + 1) && h > 0
    requires capped == events[..h] + events[h + 1..] && dropped == events[h..h + 1]
    ensures !Apart(capped[h - 1], capped[h]) && !Silent(dropped)
  {
    assert capped[h - 1] == TextAt(h - 1) && capped[h] == TextAt(h + 1);
    assert dropped[0] == TextAt(h) && Weight(dropped[0]) == 1;
  }

  /** One event more than fits: the reader sees less, and compacting again changes the log once more. */
  lemma OneTooMany(events: seq<Event>)
    requires events == Alternating(PERSIST_EVENT_CAP + 1)
    ensures Render(Compact(events)) != Render(events) && Compact(Compact(events)) != Compact(events)
  {
    AlternatingIsKept(PERSIST_EVENT_CAP + 1, events);
    CapIs(events);
    OddSeam(events, HEAD, Compact(events), Dropped(events));
    CompactionRendersTheSameIff(events);
    CompactionIsIdempotentIff(events);
  }
}
