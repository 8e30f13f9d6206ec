/** The reminder loop: reminders are received, wait until they are due, are taken by a tick, fire, and are
  * re-armed while they have repeats left.  A run may end at any time, also between the taking and the firing. */
module Reminders {
  import opened Wrappers
  import opened Collections

  /** A reminder; `origin` tells the series a re-armed reminder belongs to. */
  datatype Reminder = Reminder(origin: nat, session: string, message: string, fireAt: nat, repeats: nat,
                               interval: nat, persist: bool)

  /** A delivery: the series and the clock. */
  datatype Fired = Fired(origin: nat, at: nat)

  /** `due` are the reminders that the tick at `now` has taken and not yet fired. */
  datatype State = State(pending: seq<Reminder>, due: seq<Reminder>, now: nat, log: seq<Fired>)

  const START := State([], [], 0, [])

  const U64: nat := 0x1_0000_0000_0000_0000

  // ── Scheduling ────────────────────────────────────────────────────

  const MIN_SECS: nat := 5
  const MAX_SECS: nat := 3600
  const MAX_REPEATS: nat := 10

  function Clamp(n: nat): (r: nat)
    ensures 5 <= r <= 3600 && (5 <= n <= 3600 ==> r == n) && (n < 5 ==> r == 5) && (n > 3600 ==> r == 3600)
  {
    if n < MIN_SECS then MIN_SECS else if n > MAX_SECS then MAX_SECS else n
  }

  /** The arguments of `schedule_reminder` as far as they are numbers. */
  datatype Request = Request(delay: Option<nat>, repeats: Option<nat>, interval: Option<nat>, at: Option<nat>)

  function Or(n: Option<nat>, default: nat): nat {
    match n
    case Some(v) => v
    case None => default
  }

  function Schedule(q: Request, origin: nat, session: string, message: string, persist: bool, now: nat): (r: Reminder)
    ensures IsScheduled(r)
    ensures (r.origin, r.session, r.message, r.persist) == (origin, session, message, persist)
    ensures q.at.Some? && q.at.value > now ==> r.fireAt == q.at.value
    ensures q.at.None? || q.at.value <= now ==>
              r.fireAt == now + 1000 * Clamp(match q.delay case Some(seconds) => seconds case None => 60)
    ensures r.repeats == match q.repeats case Some(n) => (if n < 10 then n else 10) case None => 0
  {
    var delay := Clamp(Or(q.delay, 60));
    var repeats := if Or(q.repeats, 0) < MAX_REPEATS then Or(q.repeats, 0) else MAX_REPEATS;
    Reminder(origin, session, message,
             if q.at.Some? && q.at.value > now then q.at.value else now + delay * 1000,
             repeats, Clamp(Or(q.interval, delay)), persist)
  }

  /** What the tool can have scheduled. */
  predicate IsScheduled(r: Reminder) {
    5 <= r.interval <= 3600 && r.repeats <= 10
  }

  // ── One reminder ──────────────────────────────────────────────────

  /** `now_ms + repeat_interval_secs * 1000` in 64 bits. */
  function NextFire(now: nat, interval: nat): (at: nat) {
    (now + interval * 1000) % U64
  }

  predicate IsDue(r: Reminder, now: nat) {
    r.fireAt <= now + 100
  }

  /** What a fired reminder leaves behind. */
  function Again(r: Reminder, now: nat): seq<Reminder> {
    if r.repeats > 0 then [r.(fireAt := NextFire(now, r.interval), repeats := r.repeats - 1)] else []
  }

  function Fire(s: State, r: Reminder, now: nat): State {
    s.(pending := s.pending + Again(r, now), log := s.log + [Fired(r.origin, now)])
  }

  // ── The steps ─────────────────────────────────────────────────────

  function Due(pending: seq<Reminder>, now: nat): (r: seq<Reminder>) {
    if pending == [] then []
    else
      var due, last := Due(pending[..|pending| - 1], now), pending[|pending| - 1];
      if IsDue(last, now) then due + [last] else due
  }

  function Rest(pending: seq<Reminder>, now: nat): (r: seq<Reminder>) {
    if pending == [] then []
    else
      var rest, last := Rest(pending[..|pending| - 1], now), pending[|pending| - 1];
      if IsDue(last, now) then rest else rest + [last]
  }

  predicate Survives(r: Reminder, session: string, now: nat, aborted: bool) {
    r.session != session || r.persist || (!aborted && r.fireAt > now)
  }

  function Survivors(pending: seq<Reminder>, session: string, now: nat, aborted: bool): (r: seq<Reminder>) {
    if pending == [] then []
    else
      var kept, last := Survivors(pending[..|pending| - 1], session, now, aborted), pending[|pending| - 1];
      if Survives(last, session, now, aborted) then kept + [last] else kept
  }

  datatype Step =
    | Arrive(r: Reminder, now: nat, app: bool)
    | Take(now: nat)
    | FireNext(app: bool)
    | RunEnd(session: string, now: nat, aborted: bool)

  /** The loop takes the next arrival or tick when it has fired what it took; a run may end any time.
    * `app` tells whether the window is there to fire a reminder. */
  predicate Enabled(s: State, step: Step) {
    match step
    case Arrive(_, _, _) => s.due == []
    case Take(_) => s.due == []
    case FireNext(_) => s.due != []
    case RunEnd(_, _, _) => true
  }

  function Receive(s: State, r: Reminder, now: nat, app: bool): State {
    if r.session != "" && IsDue(r, now) && app then Fire(s, r, now) else s.(pending := s.pending + [r])
  }

  /** The first reminder that was taken fires, or is put back if there is no window yet. */
  function FireFirst(s: State, app: bool): State
    requires s.due != []
  {
    var t := s.(due := s.due[1..]);
    if app then Fire(t, s.due[0], s.now) else t.(pending := t.pending + [s.due[0]])
  }

  function Next(s: State, step: Step): State
    requires Enabled(s, step)
  {
    match step
    case Arrive(r, now, app) => Receive(s, r, now, app)
    case Take(now) => s.(pending := Rest(s.pending, now), due := Due(s.pending, now), now := now)
    case FireNext(app) => FireFirst(s, app)
    case RunEnd(session, now, aborted) => s.(pending := Survivors(s.pending, session, now, aborted))
  }

  /** Fire everything that was taken. */
  function Drain(s: State, app: bool): (r: State)
    ensures r.due == []
    decreases |s.due|
  {
    if s.due == [] then s else Drain(FireFirst(s, app), app)
  }

  // ── The loop as a program ─────────────────────────────────────────

  class ReminderLoop {
    var pending: seq<Reminder>
    var due: seq<Reminder>
    var now: nat
    var log: seq<Fired>

    function Value(): State
      reads this
    {
      State(pending, due, now, log)
    }

    constructor ()
      ensures Value() == START
    {
      pending, due, now, log := [], [], 0, [];
    }

    method FireReminder(r: Reminder, at: nat)
      modifies this`pending, this`log
      ensures Value() == Fire(old(Value()), r, at)
    {
      log := log + [Fired(r.origin, at)];
      if r.repeats > 0 {
        pending := pending + [Reminder(r.origin, r.session, r.message, NextFire(at, r.interval), r.repeats - 1,
                                       r.interval, r.persist)];
      } else {
        assert pending + [] == pending;
      }
    }

    method OnReceive(r: Reminder, at: nat, app: bool)
      requires due == []
      modifies this`pending, this`log
      ensures Value() == Next(old(Value()), Arrive(r, at, app))
    {
      if r.session == "" {
        pending := pending + [r];
      } else if r.fireAt <= at + 100 {
        if app {
          FireReminder(r, at);
        } else {
          pending := pending + [r];
        }
      } else {
        pending := pending + [r];
      }
    }

    /** Take the due reminders out of the list, under its lock. */
    method TakeDue(at: nat)
      requires due == []
      modifies this`pending, this`due, this`now
      ensures Value() == Next(old(Value()), Take(at))
    {
      now := at;
      var i := 0;
      ghost var all := pending;
      ghost var seen := 0;
      while i < |pending|
        invariant now == at && log == old(log)
        invariant i <= |pending| && seen <= |all| && |pending| - i == |all| - seen
        invariant pending[..i] == Rest(all[..seen], at) && pending[i..] == all[seen..]
        invariant due == Due(all[..seen], at)
        decreases |pending| - i
      {
        var r := pending[i];
        assert r == pending[i..][0] == all[seen] && all[..seen + 1][..seen] == all[..seen];
        assert all[seen..][1..] == all[seen + 1..] && pending[i..][1..] == pending[i + 1..];
        if r.fireAt <= at + 100 {
          due := due + [r];
          pending := pending[..i] + pending[i + 1..];
        } else {
          assert pending[..i + 1] == pending[..i] + [r];
          i := i + 1;
        }
        seen := seen + 1;
      }
      assert pending[..i] == pending && all[..seen] == all;
    }

    method FireTaken(app: bool)
      requires due != []
      modifies this`pending, this`due, this`log
      ensures Value() == Next(old(Value()), FireNext(app))
    {
      var r := due[0];
      due := due[1..];
      if !app {
        pending := pending + [r];
      } else {
        FireReminder(r, now);
      }
    }

    /** A tick, if no run ends meanwhile. */
    method OnTick(at: nat, app: bool)
      requires due == []
      modifies this
      ensures Value() == Drain(Next(old(Value()), Take(at)), app)
    {
      TakeDue(at);
      ghost var taken := Value();
      while due != []
        invariant Drain(taken, app) == Drain(Value(), app)
        decreases |due|
      {
        FireTaken(app);
      }
    }

    /** `clear_session_reminders` at the end of a run: `retain` on the list, and how many went. */
    method OnRunEnd(session: string, at: nat, aborted: bool) returns (removed: nat)
      modifies this`pending
      ensures Value() == Next(old(Value()), RunEnd(session, at, aborted))
      ensures forall r ::
        multiset(pending)[r] ==
        if r.session != session || r.persist || (!aborted && r.fireAt > at) then multiset(old(pending))[r] else 0
      ensures removed == |old(pending)| - |pending|
    {
      var kept: seq<Reminder> := [];
      for i := 0 to |pending|
        invariant kept == Survivors(pending[..i], session, at, aborted) && |kept| <= i
      {
        assert pending[..i + 1][..i] == pending[..i];
        var r := pending[i];
        if r.session != session || r.persist || (!aborted && r.fireAt > at) {
          kept := kept + [r];
        }
      }
      assert pending[..|pending|] == pending;
      forall r ensures multiset(kept)[r]
        == if r.session != session || r.persist || (!aborted && r.fireAt > at) then multiset(pending)[r] else 0
      {
        RunEndDrops(pending, session, at, aborted, r);
      }
      removed := |pending| - |kept|;
      pending := kept;
    }
  }

  // ── One series ────────────────────────────────────────────────────

  function Of(pending: seq<Reminder>, o: nat): (r: seq<Reminder>) {
    if pending == [] then []
    else
      var own, last := Of(pending[..|pending| - 1], o), pending[|pending| - 1];
      if last.origin == o then own + [last] else own
  }

  /** When the reminders of a series fired. */
  function Times(log: seq<Fired>, o: nat): (r: seq<nat>) {
    if log == [] then []
    else
      var times, last := Times(log[..|log| - 1], o), log[|log| - 1];
      if last.origin == o then times + [last.at] else times
  }

  /** What is left of one series: what was taken and what waits, and when it fired. */
  datatype Series = Series(own: seq<Reminder>, times: seq<nat>)

  function View(s: State, o: nat): Series {
    Series(Of(s.due, o) + Of(s.pending, o), Times(s.log, o))
  }

  lemma OfSnoc(p: seq<Reminder>, r: Reminder, o: nat)
    ensures Of(p + [r], o) == if r.origin == o then Of(p, o) + [r] else Of(p, o)
  {
    assert (p + [r])[..|p|] == p;
  }

  lemma TimesSnoc(log: seq<Fired>, f: Fired, o: nat)
    ensures Times(log + [f], o) == if f.origin == o then Times(log, o) + [f.at] else Times(log, o)
  {
    assert (log + [f])[..|log|] == log;
  }

  lemma {:induction false} OfAppend(a: seq<Reminder>, b: seq<Reminder>, o: nat)
    ensures Of(a + b, o) == Of(a, o) + Of(b, o)
    decreases |b|
  {
    if b == [] {
      assert a + b == a && Of(a, o) + Of(b, o) == Of(a, o);
    } else {
      var n := |b| - 1;
      assert a + b == (a + b[..n]) + [b[n]] && b == b[..n] + [b[n]];
      OfAppend(a, b[..n], o);
      OfSnoc(a + b[..n], b[n], o);
    }
  }

  lemma OfOne(r: Reminder, o: nat)
    ensures Of([r], o) == if r.origin == o then [r] else []
  {
    OfSnoc([], r, o);
    assert [] + [r] == [r];
  }

  /** Firing a reminder re-arms its own series and changes no other. */
  lemma FireView(s: State, r: Reminder, now: nat, o: nat)
    ensures View(Fire(s, r, now), o) ==
      if r.origin == o then Series(View(s, o).own + Again(r, now), Times(s.log, o) + [now]) else View(s, o)
  {
    TimesSnoc(s.log, Fired(r.origin, now), o);
    if r.repeats > 0 {
      OfSnoc(s.pending, Again(r, now)[0], o);
      Regroup(Of(s.due, o), Of(s.pending, o), Again(r, now));
    } else {
      assert s.pending + [] == s.pending;
      assert View(s, o).own + [] == View(s, o).own;
    }
  }

  lemma PushView(s: State, r: Reminder, o: nat)
    ensures View(s.(pending := s.pending + [r]), o)
         == if r.origin == o then Series(View(s, o).own + [r], Times(s.log, o)) else View(s, o)
  {
    OfSnoc(s.pending, r, o);
    Regroup(Of(s.due, o), Of(s.pending, o), [r]);
  }

  lemma {:induction false} SplitOf(p: seq<Reminder>, now: nat, o: nat)
    ensures Of(Due(p, now), o) == Due(Of(p, o), now) && Of(Rest(p, now), o) == Rest(Of(p, o), now)
  {
    if p != [] {
      var front, r := p[..|p| - 1], p[|p| - 1];
      SplitOf(front, now, o);
      assert p == front + [r];
      OfSnoc(front, r, o);
      SplitSnoc(Of(front, o), r, now);
      OfSnoc(Due(front, now), r, o);
      OfSnoc(Rest(front, now), r, o);
    }
  }

  lemma SplitSnoc(p: seq<Reminder>, r: Reminder, now: nat)
    ensures Due(p + [r], now) == if IsDue(r, now) then Due(p, now) + [r] else Due(p, now)
    ensures Rest(p + [r], now) == if IsDue(r, now) then Rest(p, now) else Rest(p, now) + [r]
  {
    assert (p + [r])[..|p|] == p;
  }

  /** A tick takes every due reminder out of the list once and leaves the others. */
  lemma {:induction false} TickSplits(p: seq<Reminder>, now: nat, r: Reminder)
    ensures multiset(Due(p, now))[r] == if IsDue(r, now) then multiset(p)[r] else 0
    ensures multiset(Rest(p, now))[r] == if IsDue(r, now) then 0 else multiset(p)[r]
  {
    if p != [] {
      TickSplits(p[..|p| - 1], now, r);
      assert p == p[..|p| - 1] + [p[|p| - 1]];
    }
  }

  /** After the end of a run a reminder is there as often as before if its session is another, if it is
    * durable, or if the run was not aborted and its time is still to come; otherwise it is gone. */
  lemma {:induction false} RunEndDrops(p: seq<Reminder>, session: string, now: nat, aborted: bool, r: Reminder)
    ensures multiset(Survivors(p, session, now, aborted))[r]
         == if r.session != session || r.persist || (!aborted && r.fireAt > now) then multiset(p)[r] else 0
  {
    if p != [] {
      RunEndDrops(p[..|p| - 1], session, now, aborted, r);
      assert p == p[..|p| - 1] + [p[|p| - 1]];
    }
  }

  lemma {:induction false} SurvivorsOf(p: seq<Reminder>, session: string, now: nat, aborted: bool, o: nat)
    ensures Of(Survivors(p, session, now, aborted), o) == Survivors(Of(p, o), session, now, aborted)
  {
    if p != [] {
      var front, r := p[..|p| - 1], p[|p| - 1];
      SurvivorsOf(front, session, now, aborted, o);
      assert p == front + [r];
      OfSnoc(front, r, o);
      assert (Of(front, o) + [r])[..|Of(front, o)|] == Of(front, o) && (Of(front, o) + [r])[|Of(front, o)|] == r;
      OfSnoc(Survivors(front, session, now, aborted), r, o);
    }
  }

  /** Taking the due reminders changes nothing in a series of one. */
  lemma TakeView(s: State, now: nat, o: nat)
    requires s.due == [] && |View(s, o).own| <= 1
    ensures View(Next(s, Take(now)), o) == View(s, o)
  {
    assert View(s, o).own == Of(s.pending, o);
    SplitOf(s.pending, now, o);
    SplitOne(Of(s.pending, o), now);
  }

  lemma SplitOne(own: seq<Reminder>, now: nat)
    requires |own| <= 1
    ensures Due(own, now) + Rest(own, now) == own
  {
    if own != [] {
      assert own == [own[0]] && own[..0] == [];
    }
  }

  lemma FirstView(s: State, o: nat)
    requires s.due != []
    ensures View(s, o).own == (if s.due[0].origin == o then [s.due[0]] else []) + View(s.(due := s.due[1..]), o).own
  {
    assert s.due == [s.due[0]] + s.due[1..];
    OfAppend([s.due[0]], s.due[1..], o);
    OfOne(s.due[0], o);
    Regroup(Of([s.due[0]], o), Of(s.due[1..], o), Of(s.pending, o));
  }

  lemma OneIsFirst(first: seq<Reminder>, rest: seq<Reminder>, all: seq<Reminder>)
    requires all == first + rest && |all| <= 1
    ensures first != [] ==> rest == [] && all == first
    ensures first == [] ==> all == rest
  {
  }

  /** The reminder that fires next is that of the series, or the series does not change. */
  lemma FireNextView(s: State, app: bool, o: nat)
    requires s.due != [] && |View(s, o).own| <= 1
    ensures View(FireFirst(s, app), o) ==
      if s.due[0].origin != o || !app then View(s, o)
      else Series(Again(s.due[0], s.now), Times(s.log, o) + [s.now])
    ensures s.due[0].origin == o ==> View(s, o).own == [s.due[0]]
  {
    var r, t := s.due[0], s.(due := s.due[1..]);
    FirstView(s, o);
    OneIsFirst(if r.origin == o then [r] else [], View(t, o).own, View(s, o).own);
    if app {
      FireView(t, r, s.now, o);
      Alone(Again(r, s.now));
    } else {
      PushView(t, r, o);
      Alone([r]);
    }
  }

  lemma Alone(own: seq<Reminder>)
    ensures [] + own == own
  {
  }

  // ── Every run ─────────────────────────────────────────────────────

  /** The state after the steps; one that is not possible is skipped. */
  function Run(steps: seq<Step>): (s: State) {
    if steps == [] then START
    else
      var before, step := Run(steps[..|steps| - 1]), steps[|steps| - 1];
      if Enabled(before, step) then Next(before, step) else before
  }

  /** Each step is possible when it is taken. */
  predicate Possible(steps: seq<Step>) {
    steps != [] ==> Possible(steps[..|steps| - 1]) && Enabled(Run(steps[..|steps| - 1]), steps[|steps| - 1])
  }

  /** The reminder arrives at step `n` and no other has its origin. */
  predicate Once(steps: seq<Step>, n: nat, first: Reminder) {
    && n < |steps| && steps[n].Arrive? && steps[n].r == first
    && forall i | 0 <= i < |steps| && steps[i].Arrive? && i != n :: steps[i].r.origin != first.origin
  }

  /** What was taken is due. */
  predicate TakenAreDue(s: State) {
    forall i | 0 <= i < |s.due| :: IsDue(s.due[i], s.now)
  }

  lemma {:induction false} DueAreDue(p: seq<Reminder>, now: nat)
    ensures forall i | 0 <= i < |Due(p, now)| :: IsDue(Due(p, now)[i], now)
  {
    if p != [] {
      DueAreDue(p[..|p| - 1], now);
    }
  }

  lemma NextTakesDue(s: State, step: Step)
    requires TakenAreDue(s) && Enabled(s, step)
    ensures TakenAreDue(Next(s, step))
  {
    match step
    case Take(now) => DueAreDue(s.pending, now);
    case _ =>
  }

  /** Each fire is no earlier than the time the one before it set. */
  predicate Spaced(times: seq<nat>, interval: nat) {
    forall i | 0 < i < |times| :: times[i] + 100 >= NextFire(times[i - 1], interval)
  }

  /** A series that began with `first`: one reminder at most is waiting, its repeats and the fires so
    * far make up what was asked for, and it waits for the time the last fire set; in all else it is the
    * reminder that arrived. */
  predicate SeriesOk(v: Series, first: Reminder, lossless: bool) {
    && |v.own| <= 1 && Spaced(v.times, first.interval) && |v.times| <= first.repeats + 1
    && (v.times != [] ==> v.times[0] + 100 >= first.fireAt)
    && (v.own == [] && lossless ==> |v.times| == first.repeats + 1)
    && (v.own != [] ==>
          var r := v.own[0];
          && r == first.(fireAt := r.fireAt, repeats := r.repeats) && |v.times| + r.repeats == first.repeats
          && r.fireAt == if v.times == [] then first.fireAt
                         else NextFire(v.times[|v.times| - 1], first.interval))
  }

  /** The waiting reminder fires. */
  lemma FireIsOk(v: Series, first: Reminder, lossless: bool, now: nat)
    requires SeriesOk(v, first, lossless) && v.own != [] && IsDue(v.own[0], now)
    ensures SeriesOk(Series(Again(v.own[0], now), v.times + [now]), first, lossless)
  {
    var times := v.times + [now];
    assert forall i | 0 <= i < |v.times| :: times[i] == v.times[i];
  }

  /** No run of this session ends. */
  predicate NoneEnds(steps: seq<Step>, session: string) {
    forall i | 0 <= i < |steps| && steps[i].RunEnd? :: steps[i].session != session
  }

  /** The end of a run does not touch the reminder. */
  predicate Spares(step: Step, first: Reminder) {
    step.RunEnd? ==> first.persist || step.session != first.session
  }

  lemma EndView(s: State, session: string, now: nat, aborted: bool, o: nat)
    requires |View(s, o).own| <= 1
    ensures var v := View(Next(s, RunEnd(session, now, aborted)), o);
      && v.times == Times(s.log, o) && (v.own == View(s, o).own || v.own == [])
      && (View(s, o).own != [] && (View(s, o).own[0].persist || View(s, o).own[0].session != session) ==>
            v.own == View(s, o).own)
  {
    SurvivorsOf(s.pending, session, now, aborted, o);
    var own := Of(s.pending, o);
    if own != [] {
      assert own == [own[0]] && own[..0] == [];
      assert [] + [own[0]] == own;
    }
    assert Of(s.due, o) + [] == Of(s.due, o);
  }

  lemma NextIsOk(s: State, step: Step, first: Reminder, lossless: bool)
    requires SeriesOk(View(s, first.origin), first, lossless) && TakenAreDue(s) && Enabled(s, step)
    requires step.Arrive? ==> step.r.origin != first.origin
    ensures SeriesOk(View(Next(s, step), first.origin), first, lossless && Spares(step, first))
  {
    var o := first.origin;
    match step
    case Arrive(r, now, app) =>
      FireView(s, r, now, o);
      PushView(s, r, o);
    case Take(now) =>
      TakeView(s, now, o);
    case FireNext(app) =>
      FireNextView(s, app, o);
      if s.due[0].origin == o {
        FireIsOk(View(s, o), first, lossless, s.now);
      }
    case RunEnd(session, now, aborted) =>
      EndView(s, session, now, aborted, o);
  }

  lemma {:induction false} NothingBefore(steps: seq<Step>, o: nat)
    requires Possible(steps) && forall i | 0 <= i < |steps| && steps[i].Arrive? :: steps[i].r.origin != o
    ensures View(Run(steps), o) == Series([], []) && TakenAreDue(Run(steps))
  {
    if steps != [] {
      var s, step := Run(steps[..|steps| - 1]), steps[|steps| - 1];
      NothingBefore(steps[..|steps| - 1], o);
      NextTakesDue(s, step);
      match step
      case Arrive(r, now, app) =>
        FireView(s, r, now, o);
        PushView(s, r, o);
      case Take(now) => TakeView(s, now, o);
      case FireNext(app) => FireNextView(s, app, o);
      case RunEnd(session, now, aborted) => EndView(s, session, now, aborted, o);
    }
  }

  lemma ArrivalIsOk(s: State, first: Reminder, now: nat, app: bool)
    requires View(s, first.origin) == Series([], []) && s.due == []
    ensures SeriesOk(View(Receive(s, first, now, app), first.origin), first, true)
  {
    var v := Series([first], []);
    FireView(s, first, now, first.origin);
    PushView(s, first, first.origin);
    assert SeriesOk(v, first, true);
    if IsDue(first, now) {
      FireIsOk(v, first, true, now);
    }
    assert [] + [first] == [first] && [] + Again(first, now) == Again(first, now);
  }

  /** In every run, whatever the clock and the window do and wherever a run ends, a series fires at most
    * once more than it may repeat, and never before the time its last fire set.  Nothing is lost of a
    * durable series, nor of one whose session's runs do not end: it is still waiting or has fired exactly
    * that often. */
  lemma {:induction false} SeriesIsKept(steps: seq<Step>, n: nat, first: Reminder)
    requires Possible(steps) && Once(steps, n, first)
    ensures SeriesOk(View(Run(steps), first.origin), first, first.persist || NoneEnds(steps[n..], first.session))
    ensures TakenAreDue(Run(steps))
  {
    var front, step := steps[..|steps| - 1], steps[|steps| - 1];
    OnceBefore(steps, front, n, first);
    if n == |front| {
      NothingBefore(front, first.origin);
      FirstStep(Run(front), step, first);
    } else {
      SeriesIsKept(front, n, first);
      assert steps[n..] == front[n..] + [step];
      NextStep(Run(front), step, first, front[n..], steps[n..]);
    }
  }

  lemma OnceBefore(steps: seq<Step>, front: seq<Step>, n: nat, first: Reminder)
    requires Once(steps, n, first) && front == steps[..|steps| - 1]
    ensures n < |front| ==> Once(front, n, first)
    ensures n == |front| ==> forall i | 0 <= i < |front| && front[i].Arrive? :: front[i].r.origin != first.origin
    ensures n != |steps| - 1 && steps[|steps| - 1].Arrive? ==> steps[|steps| - 1].r.origin != first.origin
  {
    assert forall i | 0 <= i < |front| :: front[i] == steps[i];
  }

  lemma FirstStep(s: State, step: Step, first: Reminder)
    requires View(s, first.origin) == Series([], []) && TakenAreDue(s) && Enabled(s, step)
    requires step.Arrive? && step.r == first
    ensures SeriesOk(View(Next(s, step), first.origin), first, true) && TakenAreDue(Next(s, step))
  {
    ArrivalIsOk(s, first, step.now, step.app);
    NextTakesDue(s, step);
  }

  lemma NextStep(s: State, step: Step, first: Reminder, since: seq<Step>, all: seq<Step>)
    requires SeriesOk(View(s, first.origin), first, first.persist || NoneEnds(since, first.session))
    requires TakenAreDue(s) && Enabled(s, step)
    requires (step.Arrive? ==> step.r.origin != first.origin) && all == since + [step]
    ensures SeriesOk(View(Next(s, step), first.origin), first, first.persist || NoneEnds(all, first.session))
    ensures TakenAreDue(Next(s, step))
  {
    NextIsOk(s, step, first, first.persist || NoneEnds(since, first.session));
    NoneEndsSnoc(since, step, first.session);
    NextTakesDue(s, step);
  }

  lemma NoneEndsSnoc(steps: seq<Step>, step: Step, session: string)
    ensures NoneEnds(steps + [step], session)
       <==> NoneEnds(steps, session) && (step.RunEnd? ==> step.session != session)
  {
    assert (steps + [step])[|steps|] == step;
    assert forall i | 0 <= i < |steps| :: (steps + [step])[i] == steps[i];
  }

  // ── When they fire ────────────────────────────────────────────────

  /** A reminder that is due when it is received fires at once, if it has a session and there is a window. */
  lemma DueFiresOnArrival(s: State, r: Reminder, now: nat, app: bool)
    ensures var fires := r.session != "" && r.fireAt <= now + 100 && app;
      Receive(s, r, now, app).log == if fires then s.log + [Fired(r.origin, now)] else s.log
  {
  }

  lemma {:induction false} DrainView(s: State, o: nat)
    requires |View(s, o).own| <= 1
    ensures Of(s.due, o) == [] ==> View(Drain(s, true), o) == View(s, o)
    ensures Of(s.due, o) != [] ==>
              View(Drain(s, true), o) == Series(Again(Of(s.due, o)[0], s.now), Times(s.log, o) + [s.now])
    decreases |s.due|
  {
    if s.due != [] {
      var t := FireFirst(s, true);
      FireNextView(s, true, o);
      FirstOf(s.due, o);
      DrainView(t, o);
    }
  }

  lemma FirstOf(due: seq<Reminder>, o: nat)
    requires due != []
    ensures Of(due, o) == (if due[0].origin == o then [due[0]] else []) + Of(due[1..], o)
  {
    OfAppend([due[0]], due[1..], o);
    OfOne(due[0], o);
    assert [due[0]] + due[1..] == due;
  }

  lemma OneTaken(s: State, now: nat, o: nat, r: Reminder)
    requires s.due == [] && View(s, o).own == [r]
    ensures Of(Next(s, Take(now)).due, o) == if r.fireAt > now + 100 then [] else [r]
  {
    SplitOf(s.pending, now, o);
    Alone(Of(s.pending, o));
    SplitSnoc([], r, now);
    Alone([r]);
  }

  /** A tick with a window fires a waiting reminder exactly if it is due within a tenth of a second, and
    * arms it again if it has repeats left. */
  lemma TickFiresIff(s: State, now: nat, o: nat, r: Reminder)
    requires s.due == [] && View(s, o).own == [r]
    ensures var t := Drain(Next(s, Take(now)), true);
      View(t, o) == if r.fireAt > now + 100 then View(s, o)
                    else Series(if r.repeats > 0
                                then [r.(fireAt := (now + r.interval * 1000) % 0x1_0000_0000_0000_0000,
                                         repeats := r.repeats - 1)] else [],
                                Times(s.log, o) + [now])
  {
    var t := Next(s, Take(now));
    TakeView(s, now, o);
    OneTaken(s, now, o, r);
    DrainView(t, o);
  }

  // ── How far apart the fires are ───────────────────────────────────

  /** No clock is within an hour of the end of 64 bits. */
  predicate Clocked(steps: seq<Step>) {
    forall i | 0 <= i < |steps| ::
      match steps[i]
      case Arrive(_, now, _) => now < U64 - MAX_SECS * 1000
      case Take(now) => now < U64 - MAX_SECS * 1000
      case _ => true
  }

  predicate Early(log: seq<Fired>) {
    forall i | 0 <= i < |log| :: log[i].at < U64 - MAX_SECS * 1000
  }

  lemma {:induction false} FiresAreClocked(steps: seq<Step>)
    requires Clocked(steps)
    ensures Early(Run(steps).log) && Run(steps).now < U64 - MAX_SECS * 1000
  {
    if steps != [] {
      FiresAreClocked(steps[..|steps| - 1]);
    }
  }

  lemma {:induction false} TimesAreEarly(log: seq<Fired>, o: nat)
    requires Early(log)
    ensures forall i | 0 <= i < |Times(log, o)| :: Times(log, o)[i] < U64 - MAX_SECS * 1000
  {
    if log != [] {
      TimesAreEarly(log[..|log| - 1], o);
    }
  }

  /** What the tool schedules fires at most eleven times, and successive fires are at least the interval
    * apart, less the tenth of a second a reminder may be early: never less than 4.9 s, whatever the clock
    * does between them. */
  lemma FiresAreSpaced(steps: seq<Step>, n: nat, first: Reminder, i: nat)
    requires Possible(steps) && Once(steps, n, first) && IsScheduled(first) && Clocked(steps)
    requires 0 < i < |Times(Run(steps).log, first.origin)|
    ensures var times := Times(Run(steps).log, first.origin);
      && |times| <= 11
      && times[i] - times[i - 1] >= first.interval * 1000 - 100 >= 4900
  {
    SeriesIsKept(steps, n, first);
    FiresAreClocked(steps);
    TimesAreEarly(Run(steps).log, first.origin);
    SpacedByInterval(Times(Run(steps).log, first.origin), first.interval, i);
  }

  lemma NoWrap(now: nat, interval: nat)
    requires now < U64 - MAX_SECS * 1000 && interval <= MAX_SECS
    ensures NextFire(now, interval) == now + interval * 1000
  {
  }

  lemma SpacedByInterval(times: seq<nat>, interval: nat, i: nat)
    requires Spaced(times, interval) && 0 < i < |times| && MIN_SECS <= interval <= MAX_SECS
    requires times[i - 1] < U64 - MAX_SECS * 1000
    ensures times[i] - times[i - 1] >= interval * 1000 - 100 >= 4900
  {
    NoWrap(times[i - 1], interval);
  }

  // ── What the end of a run stops ───────────────────────────────────

  /** A reminder that an aborted run takes with it. */
  predicate Belongs(r: Reminder, session: string) {
    r.session == session && !r.persist
  }

  predicate Without(p: seq<Reminder>, session: string) {
    forall i | 0 <= i < |p| :: !Belongs(p[i], session)
  }

  lemma {:induction false} AbortClears(p: seq<Reminder>, session: string, now: nat)
    ensures Without(Survivors(p, session, now, true), session)
  {
    if p != [] {
      AbortClears(p[..|p| - 1], session, now);
    }
  }

  /** Aborting a run leaves none of its reminders waiting; whether one fires all the same depends exactly
    * on whether the tick in progress has already taken one. */
  lemma AbortStopsIff(s: State, session: string, now: nat)
    ensures var s' := Next(s, RunEnd(session, now, true));
      && Without(s'.pending, session)
      && (Without(s'.due + s'.pending, session) <==> Without(s.due, session))
  {
    AbortClears(s.pending, session, now);
    var s' := Next(s, RunEnd(session, now, true));
    if Without(s'.due + s'.pending, session) {
      assert forall i | 0 <= i < |s.due| :: (s'.due + s'.pending)[i] == s.due[i];
    }
  }

  lemma RunSnoc(front: seq<Step>, step: Step, steps: seq<Step>)
    requires steps == front + [step] && Possible(front) && Enabled(Run(front), step)
    ensures Possible(steps) && Run(steps) == Next(Run(front), step)
  {
    assert steps[..|steps| - 1] == front && steps[|steps| - 1] == step;
  }

  lemma FourSteps(a: Step, b: Step, c: Step, d: Step, s1: State, s2: State, s3: State)
    requires Enabled(START, a) && Next(START, a) == s1 && Enabled(s1, b) && Next(s1, b) == s2
    requires Enabled(s2, c) && Next(s2, c) == s3 && Enabled(s3, d)
    ensures Possible([a, b, c, d]) && Run([a, b, c, d]) == Next(s3, d)
  {
    RunSnoc([], a, [a]);
    RunSnoc([a], b, [a, b]);
    RunSnoc([a, b], c, [a, b, c]);
    RunSnoc([a, b, c], d, [a, b, c, d]);
  }

  /** Such a run: a reminder with a repeat is taken, its run is aborted, and then it fires and is waiting
    * again. */
  lemma TakenReminderOutlivesItsRun(r: Reminder, now: nat, steps: seq<Step>)
    requires r.session != "" && !r.persist && r.repeats > 0 && 100 < r.fireAt <= now
    requires steps == [Arrive(r, 0, true), Take(now), RunEnd(r.session, now, true), FireNext(true)]
    ensures Possible(steps) && Run(steps).pending == Again(r, now) && Run(steps).log == [Fired(r.origin, now)]
  {
    var s1, s2 := State([r], [], 0, []), State([], [r], now, []);
    Alone([r]);
    assert Next(START, steps[0]) == s1;
    SplitSnoc([], r, now);
    Alone([r]);
    assert Next(s1, steps[1]) == s2;
    assert Next(s2, steps[2]) == s2;
    FourSteps(steps[0], steps[1], steps[2], steps[3], s1, s2, s2);
    Alone(Again(r, now));
    assert [] + [Fired(r.origin, now)] == [Fired(r.origin, now)];
  }
}
