/** Requests and replies over one browser connection: every step that takes the lock,
  * in any order. */
module Cdp {

  /** What the lock protects; a pending id stands for the sender of its reply. */
  datatype Inner = Inner(pending: set<nat>, nextId: nat, closed: bool)

  const CONNECTED := Inner({}, 1, false)

  class CdpInner {
    var pending: set<nat>
    var nextId: nat
    var closed: bool

    function Value(): Inner
      reads this
    {
      Inner(pending, nextId, closed)
    }

    constructor ()
      ensures Value() == CONNECTED
    {
      pending, nextId, closed := {}, 1, false;
    }

    method TakeId() returns (id: nat)
      modifies this`nextId
      ensures id == old(nextId) && Value() == old(Value()).(nextId := id + 1)
    {
      id := nextId;
      nextId := nextId + 1;
    }

    /** Fails if the connection is closed. */
    method Register(id: nat) returns (registered: bool)
      modifies this`pending
      ensures registered == !closed
      ensures Value() == if registered then old(Value()).(pending := old(pending) + {id}) else old(Value())
    {
      if closed {
        return false;
      }
      pending := pending + {id};
      registered := true;
    }

    /** Whether the reply goes to a waiter. */
    method TakeSender(id: nat) returns (found: bool)
      modifies this`pending
      ensures found == (id in old(pending)) && Value() == old(Value()).(pending := old(pending) - {id})
    {
      found := id in pending;
      pending := pending - {id};
    }

    /** The reader ends: everyone who waits is told. */
    method Close() returns (drained: set<nat>)
      modifies this`pending, this`closed
      ensures drained == old(pending) && Value() == old(Value()).(pending := {}, closed := true)
    {
      closed := true;
      drained := pending;
      pending := {};
    }
  }

  // ── Tasks ─────────────────────────────────────────────────────────

  /** A reply in the channel of a request: the response that carried its id, or the close. */
  datatype Reply = Response(id: nat, value: string) | ConnectionClosed

  datatype Outcome = Got(reply: Reply) | RefusedClosed | SendFailed | TimedOut | Cancelled

  /** Where a request is: it has its id, it waits, its time is up but its entry is not removed yet,
    * or it is over. */
  datatype Phase = HasId | Waiting | Expired | Done(outcome: Outcome)

  datatype Request = Request(phase: Phase, inbox: seq<Reply>)

  datatype System = System(inner: Inner, requests: map<nat, Request>)

  /** One step of one request or of the reader. */
  datatype Step =
    | Take
    | Register(id: nat)
    | FailSend(id: nat)
    | Respond(id: nat, value: string)
    | Pick(id: nat)
    | Expire(id: nat)
    | CleanUp(id: nat)
    | Cancel(id: nat)
    | Close

  predicate In(s: System, id: nat, phase: Phase) {
    id in s.requests && s.requests[id].phase == phase
  }

  function Move(s: System, id: nat, phase: Phase): System
    requires id in s.requests
  {
    s.(requests := s.requests[id := s.requests[id].(phase := phase)])
  }

  /** Send on the channels of `ids`; a receiver that is gone does not mind. */
  function Deliver(requests: map<nat, Request>, ids: set<nat>, reply: Reply): map<nat, Request> {
    map id | id in requests ::
      if id in ids then requests[id].(inbox := requests[id].inbox + [reply]) else requests[id]
  }

  /** A step that cannot be taken leaves the system as it is. */
  function Next(s: System, step: Step): System {
    match step
    case Take =>
      System(s.inner.(nextId := s.inner.nextId + 1), s.requests[s.inner.nextId := Request(HasId, [])])
    case Register(id) =>
      if !In(s, id, HasId) then s
      else if s.inner.closed then Move(s, id, Done(RefusedClosed))
      else Move(s, id, Waiting).(inner := s.inner.(pending := s.inner.pending + {id}))
    case FailSend(id) => if In(s, id, Waiting) then Move(s, id, Done(SendFailed)) else s
    case Respond(id, value) =>
      if id in s.inner.pending
      then System(s.inner.(pending := s.inner.pending - {id}), Deliver(s.requests, {id}, Response(id, value)))
      else s
    case Pick(id) =>
      if In(s, id, Waiting) && s.requests[id].inbox != [] then Move(s, id, Done(Got(s.requests[id].inbox[0]))) else s
    case Expire(id) => if In(s, id, Waiting) && s.requests[id].inbox == [] then Move(s, id, Expired) else s
    case CleanUp(id) =>
      if In(s, id, Expired)
      then Move(s, id, Done(TimedOut)).(inner := s.inner.(pending := s.inner.pending - {id})) else s
    case Cancel(id) => if id in s.requests && !s.requests[id].phase.Done? then Move(s, id, Done(Cancelled)) else s
    case Close =>
      System(s.inner.(pending := {}, closed := true), Deliver(s.requests, s.inner.pending, ConnectionClosed))
  }

  function Run(steps: seq<Step>): (s: System) {
    if steps == [] then System(CONNECTED, map[]) else Next(Run(steps[..|steps| - 1]), steps[|steps| - 1])
  }

  // ── The lock does what the steps say ──────────────────────────────

  /** A request registers once it has its id, and cleans up once its time is up. */
  predicate CanTake(s: System, step: Step) {
    && (step.Register? ==> In(s, step.id, HasId))
    && (step.CleanUp? ==> In(s, step.id, Expired))
  }

  /** What a step sends to the requests it reaches. */
  function Sent(step: Step): (reply: Reply) {
    if step.Respond? then Response(step.id, step.value) else ConnectionClosed
  }

  predicate Gets(s: System, t: System, id: nat, replies: seq<Reply>)
    requires id in s.requests
  {
    id in t.requests && t.requests[id].inbox == s.requests[id].inbox + replies
  }

  /** One step as a request or the reader takes it, in one region under the lock: the fields become those of the next
    * state, and exactly the requests that are reached get the reply. */
  method Perform(inner: CdpInner, ghost s: System, step: Step) returns (reached: set<nat>)
    requires inner.Value() == s.inner && CanTake(s, step)
    modifies inner
    ensures inner.Value() == Next(s, step).inner
    ensures forall id | id in s.requests && (step.Take? ==> id != s.inner.nextId) ::
      Gets(s, Next(s, step), id, if id in reached then [Sent(step)] else [])
  {
    reached := {};
    match step {
      case Take => var id := inner.TakeId();
      case Register(id) => var registered := inner.Register(id);
      case CleanUp(id) => var found := inner.TakeSender(id);
      case Respond(id, value) =>
        var found := inner.TakeSender(id);
        reached := if found then {id} else {};
      case Close => reached := inner.Close();
      case FailSend(_) | Pick(_) | Expire(_) | Cancel(_) =>
    }
  }

  /** Any run, step by step: the object is in the state the run has reached. */
  method Serve(steps: seq<Step>) returns (inner: CdpInner)
    requires forall i | 0 <= i < |steps| :: CanTake(Run(steps[..i]), steps[i])
    ensures inner.Value() == Run(steps).inner
  {
    inner := new CdpInner();
    for i := 0 to |steps|
      invariant fresh(inner) && inner.Value() == Run(steps[..i]).inner
    {
      var reached := Perform(inner, Run(steps[..i]), steps[i]);
      assert steps[..i + 1][..i] == steps[..i];
    }
    assert steps[..|steps|] == steps;
  }

  // ── Every run ─────────────────────────────────────────────────────

  /** One request: its channel got at most one reply, which was its own response or the close; who
    * still waits for one has its sender in the table. */
  predicate RequestOk(id: nat, r: Request, inner: Inner) {
    && id < inner.nextId
    && |r.inbox| <= 1
    && (r.inbox != [] ==> if r.inbox[0].Response? then r.inbox[0].id == id else inner.closed)
    && (id in inner.pending ==> r.inbox == [])
    && (r.phase.HasId? ==> r.inbox == [] && id !in inner.pending)
    && (r.phase.Waiting? && r.inbox == [] ==> id in inner.pending)
    && (r.phase.Done? && r.phase.outcome.Got? ==> r.inbox == [r.phase.outcome.reply])
  }

  predicate Invariant(s: System) {
    && (forall id | id in s.requests :: RequestOk(id, s.requests[id], s.inner))
    && s.inner.pending <= s.requests.Keys
    && (s.inner.closed ==> s.inner.pending == {})
  }

  lemma NextKeepsInvariant(s: System, step: Step)
    requires Invariant(s)
    ensures Invariant(Next(s, step))
  {
    assert forall id | id in s.requests :: RequestOk(id, s.requests[id], s.inner);
  }

  /** In every run the invariant holds, and the next id to be given out was never given out. */
  lemma {:induction false} RunKeepsInvariant(steps: seq<Step>)
    ensures Invariant(Run(steps)) && Run(steps).inner.nextId !in Run(steps).requests
  {
    if steps != [] {
      RunKeepsInvariant(steps[..|steps| - 1]);
      NextKeepsInvariant(Run(steps[..|steps| - 1]), steps[|steps| - 1]);
    }
  }

  /** What a step can do to a channel: nothing, or put the first and only reply into it. */
  lemma InboxAfter(s: System, step: Step, id: nat)
    requires Invariant(s) && id in s.requests
    ensures id in Next(s, step).requests
    ensures var before, after := s.requests[id].inbox, Next(s, step).requests[id].inbox;
      || after == before
      || (before == [] && step.Respond? && step.id == id && after == [Response(id, step.value)])
      || (before == [] && step.Close? && after == [ConnectionClosed] && Next(s, step).inner.closed)
  {
    assert RequestOk(id, s.requests[id], s.inner);
  }

  lemma NewRequestIsEmpty(s: System, step: Step, id: nat)
    requires id !in s.requests && id in Next(s, step).requests
    ensures Next(s, step).requests[id].inbox == []
  {
  }

  lemma DoneIsFinal(s: System, step: Step, id: nat)
    requires Invariant(s) && id in s.requests && s.requests[id].phase.Done?
    ensures id in Next(s, step).requests && Next(s, step).requests[id].phase == s.requests[id].phase
  {
    assert RequestOk(id, s.requests[id], s.inner);
  }

  /** Once a request has its reply, nothing changes it: it is completed at most once. */
  lemma ReplyIsFinal(s: System, step: Step, id: nat)
    requires Invariant(s) && id in s.requests && s.requests[id].inbox != []
    ensures id in Next(s, step).requests && Next(s, step).requests[id].inbox == s.requests[id].inbox
  {
    InboxAfter(s, step, id);
  }

  lemma ClosedStaysClosed(s: System, step: Step)
    requires s.inner.closed
    ensures Next(s, step).inner.closed
  {
  }

  /** What a request gets is what a response with its own id said, or the end of the connection. */
  lemma {:induction false} RepliesAreOwn(steps: seq<Step>, id: nat)
    requires id in Run(steps).requests && Run(steps).requests[id].inbox != []
    ensures var reply := Run(steps).requests[id].inbox[0];
      match reply
      case Response(k, value) => k == id && Respond(id, value) in steps
      case ConnectionClosed => Close in steps && Run(steps).inner.closed
  {
    var front, step := steps[..|steps| - 1], steps[|steps| - 1];
    var s := Run(front);
    assert step in steps;
    RunKeepsInvariant(front);
    if id in s.requests {
      InboxAfter(s, step, id);
      if s.requests[id].inbox != [] {
        RepliesAreOwn(front, id);
        if s.inner.closed {
          ClosedStaysClosed(s, step);
        }
      }
    } else {
      NewRequestIsEmpty(s, step, id);
    }
  }

  /** After the close nothing is pending, and nobody waits without a reply: no request hangs. */
  lemma CloseReachesEveryone(steps: seq<Step>, id: nat)
    requires Run(steps).inner.closed && id in Run(steps).requests
    ensures Run(steps).inner.pending == {}
    ensures Run(steps).requests[id].phase.Waiting? ==> Run(steps).requests[id].inbox != []
  {
    RunKeepsInvariant(steps);
    assert RequestOk(id, Run(steps).requests[id], Run(steps).inner);
  }

  /** A response that comes after the entry was cleaned up reaches nobody. */
  lemma LateResponseIsDropped(s: System, id: nat, value: string)
    requires Invariant(s) && In(s, id, Expired)
    ensures Next(Next(s, CleanUp(id)), Respond(id, value)) == Next(s, CleanUp(id))
  {
  }

  // ── A send that fails ─────────────────────────────────────────────

  /** The entry of a request that is over stays until its response or the close takes it. */
  lemma EntryStaysUntil(s: System, step: Step, id: nat)
    requires Invariant(s) && id in s.inner.pending && s.requests[id].phase.Done?
    ensures id in Next(s, step).inner.pending <==> !step.Close? && !(step.Respond? && step.id == id)
  {
    assert RequestOk(id, s.requests[id], s.inner);
  }

  lemma {:induction false} StaysDone(steps: seq<Step>, id: nat, outcome: Outcome, more: seq<Step>)
    requires In(Run(steps), id, Done(outcome))
    ensures In(Run(steps + more), id, Done(outcome))
    decreases |more|
  {
    if more == [] {
      assert steps + more == steps;
    } else {
      var front, all := steps + more[..|more| - 1], steps + more;
      assert all[..|all| - 1] == front && all[|all| - 1] == more[|more| - 1];
      StaysDone(steps, id, outcome, more[..|more| - 1]);
      RunKeepsInvariant(front);
      DoneIsFinal(Run(front), more[|more| - 1], id);
    }
  }

  /** A failed send leaves the entry in the table.  Whatever happens then, the request stays failed, and
    * when a response or the close takes the entry, no other request notices. */
  lemma FailedSendIsHarmless(steps: seq<Step>, id: nat, failed: seq<Step>, more: seq<Step>)
    requires In(Run(steps), id, Waiting) && failed == steps + [FailSend(id)]
    ensures Run(failed).inner == Run(steps).inner
    ensures In(Run(failed + more), id, Done(SendFailed))
  {
    assert failed[..|failed| - 1] == steps && failed[|failed| - 1] == FailSend(id);
    StaysDone(failed, id, SendFailed, more);
  }

  lemma LateReplyIsOwn(s: System, id: nat, value: string, k: nat)
    requires Invariant(s) && k in s.requests && k != id
    ensures k in Next(s, Respond(id, value)).requests && Next(s, Respond(id, value)).requests[k] == s.requests[k]
  {
  }
}
