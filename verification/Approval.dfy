/** Approval requests that wait for the user, and the calls that answer them, in any order. */
module Approval {
  import opened Wrappers

  datatype Decision = Allow | TrustSession | TrustWorkspace | Deny | BlockForever

  function ParseDecision(s: string): (d: Option<Decision>) {
    if s == "allow" then Some(Allow)
    else if s == "trust_session" then Some(TrustSession)
    else if s == "trust_workspace" then Some(TrustWorkspace)
    else if s == "deny" then Some(Deny)
    else if s == "block_forever" then Some(BlockForever)
    else None
  }

  /** The five words a call may use; any other is refused. */
  lemma DecisionWords(s: string)
    ensures ParseDecision("allow") == Some(Allow) && ParseDecision("trust_session") == Some(TrustSession)
    ensures ParseDecision("trust_workspace") == Some(TrustWorkspace) && ParseDecision("deny") == Some(Deny)
    ensures ParseDecision("block_forever") == Some(BlockForever)
    ensures ParseDecision(s).Some? <==> s in {"allow", "trust_session", "trust_workspace", "deny", "block_forever"}
  {
    assert |"allow"| == 5 && |"trust_session"| == 13 && |"trust_workspace"| == 15 && |"deny"| == 4;
  }

  datatype Result = Decided(d: Decision) | TimedOut | Cancelled

  /** A request waits, has given up but not yet left the table, or is over. */
  datatype Phase = Waiting | Leaving(result: Result) | Over(result: Result)

  /** A request of a session; `inbox` is its channel. */
  datatype Request = Request(owner: string, phase: Phase, inbox: seq<Decision>)

  /** A call of `approve_tool` that took an entry out of the table and has not dealt with it yet. */
  datatype Call = Call(request: nat, owner: string, caller: string, decision: Decision)

  /** `pending` is the table: the request id and the owning session; every entry and every call in
    * hand holds the sender of its request. */
  datatype System = System(pending: map<nat, string>, requests: map<nat, Request>, calls: map<nat, Call>)

  datatype Step =
    | Ask(id: nat, session: string)
    | TakeEntry(call: nat, request: nat, caller: string, decision: string)
    | Settle(call: nat)
    | Pick(id: nat)
    | TimeOut(id: nat)
    | Abort(id: nat)
    | Leave(id: nat)

  function SetPhase(s: System, id: nat, phase: Phase): System
    requires id in s.requests
  {
    s.(requests := s.requests[id := s.requests[id].(phase := phase)])
  }

  predicate IsWaiting(s: System, id: nat) {
    id in s.requests && s.requests[id].phase.Waiting?
  }

  /** Ids of requests and calls are new; a step that cannot be taken changes nothing. */
  function Next(s: System, step: Step): System {
    match step
    case Ask(id, session) =>
      if id in s.requests then s
      else s.(pending := s.pending[id := session], requests := s.requests[id := Request(session, Waiting, [])])
    case TakeEntry(call, request, caller, decision) =>
      if ParseDecision(decision).None? || request !in s.pending || call in s.calls then s
      else
        s.(pending := s.pending - {request},
           calls := s.calls[call := Call(request, s.pending[request], caller, ParseDecision(decision).value)])
    case Settle(call) =>
      if call !in s.calls then s
      else
        var c, t := s.calls[call], s.(calls := s.calls - {call});
        if c.owner != c.caller then t.(pending := t.pending[c.request := c.owner])
        else if c.request in t.requests
        then
          var r := t.requests[c.request];
          t.(requests := t.requests[c.request := r.(inbox := r.inbox + [c.decision])])
        else t
    case Pick(id) =>
      if IsWaiting(s, id) && s.requests[id].inbox != []
      then SetPhase(s, id, Leaving(Decided(s.requests[id].inbox[0]))) else s
    case TimeOut(id) =>
      if IsWaiting(s, id) && s.requests[id].inbox == [] then SetPhase(s, id, Leaving(TimedOut)) else s
    case Abort(id) => if IsWaiting(s, id) then SetPhase(s, id, Leaving(Cancelled)) else s
    case Leave(id) =>
      if id in s.requests && s.requests[id].phase.Leaving?
      then SetPhase(s, id, Over(s.requests[id].phase.result)).(pending := s.pending - {id})
      else s
  }

  function Run(steps: seq<Step>): (s: System) {
    if steps == [] then System(map[], map[], map[]) else Next(Run(steps[..|steps| - 1]), steps[|steps| - 1])
  }

  // ── The table as a program ────────────────────────────────────────

  /** The shared table; each method is one locked region. */
  class PendingTable {
    var pending: map<nat, string>

    constructor ()
      ensures pending == map[]
    {
      pending := map[];
    }

    method Insert(id: nat, owner: string)
      modifies this
      ensures pending == old(pending)[id := owner]
    {
      pending := pending[id := owner];
    }

    method Remove(id: nat) returns (owner: Option<string>)
      modifies this
      ensures owner == if id in old(pending) then Some(old(pending)[id]) else None
      ensures pending == old(pending) - {id}
    {
      owner := if id in pending then Some(pending[id]) else None;
      pending := pending - {id};
    }

    /** What a call does with the entry it took: put it back, or let the decision through. */
    method SettleEntry(id: nat, owner: string, caller: string) returns (send: bool)
      modifies this
      ensures send == (owner == caller)
      ensures pending == if send then old(pending) else old(pending)[id := owner]
    {
      if owner != caller {
        pending := pending[id := owner];
        return false;
      }
      send := true;
    }
  }

  // ── The table does what the steps say ─────────────────────────────

  /** Ids are new, and a call settles what it took. */
  predicate CanTake(s: System, step: Step, hand: Option<Call>) {
    match step
    case Ask(id, _) => id !in s.requests
    case TakeEntry(call, _, _, _) => call !in s.calls
    case Settle(call) => call in s.calls && hand == Some(s.calls[call])
    case Leave(id) => id in s.requests && s.requests[id].phase.Leaving?
    case Pick(_) | TimeOut(_) | Abort(_) => true
  }

  /** The channel of the request gets the decision of the call that is sent, if it is for this request. */
  predicate Gets(s: System, t: System, id: nat, sent: Option<Call>)
    requires id in s.requests
  {
    && id in t.requests
    && t.requests[id].inbox
       == s.requests[id].inbox + if sent.Some? && sent.value.request == id then [sent.value.decision] else []
  }

  /** One step as the requests and calls take it, with what a call has in its hand: the table becomes that
    * of the next state, a call has the entry it took, and a decision is sent exactly if it arrives. */
  method Perform(table: PendingTable, ghost s: System, step: Step, hand: Option<Call>)
    returns (taken: Option<Call>, sent: Option<Call>)
    requires table.pending == s.pending && CanTake(s, step, hand)
    modifies table
    ensures table.pending == Next(s, step).pending
    ensures step.TakeEntry? && taken.Some? ==> Next(s, step).calls == s.calls[step.call := taken.value]
    ensures step.TakeEntry? && taken.None? ==> Next(s, step).calls == s.calls
    ensures forall id | id in s.requests :: Gets(s, Next(s, step), id, sent)
  {
    taken, sent := None, None;
    match step {
      case Ask(id, session) => table.Insert(id, session);
      case TakeEntry(call, request, caller, decision) =>
        var d := ParseDecision(decision);
        if d.Some? {
          var owner := table.Remove(request);
          if owner.Some? {
            taken := Some(Call(request, owner.value, caller, d.value));
          }
        }
      case Settle(call) =>
        var send := table.SettleEntry(hand.value.request, hand.value.owner, hand.value.caller);
        sent := if send then hand else None;
      case Leave(id) => var owner := table.Remove(id);
      case Pick(_) | TimeOut(_) | Abort(_) =>
    }
  }

  // ── Every run ─────────────────────────────────────────────────────

  /** The call holds the sender of the request. */
  predicate Holds(s: System, call: nat, id: nat) {
    call in s.calls && s.calls[call].request == id
  }

  /** One sender per request: it is in the table, or in the hand of one call, or used up, and it knows
    * the owner. */
  predicate Invariant(s: System) {
    && (forall id | id in s.pending ::
          id in s.requests && s.requests[id].owner == s.pending[id] && s.requests[id].inbox == [])
    && (forall c | c in s.calls ::
          var call := s.calls[c];
          && call.request in s.requests && s.requests[call.request].owner == call.owner
          && call.request !in s.pending && s.requests[call.request].inbox == [])
    && (forall c, d | c in s.calls && d in s.calls && s.calls[c].request == s.calls[d].request :: c == d)
    && (forall id | id in s.requests :: |s.requests[id].inbox| <= 1 && ResultOk(s.requests[id]))
  }

  predicate ResultOk(r: Request) {
    match r.phase
    case Waiting => true
    case Leaving(result) => result.Decided? ==> r.inbox == [result.d]
    case Over(result) => result.Decided? ==> r.inbox == [result.d]
  }

  lemma TakeKeepsInvariant(s: System, step: Step)
    requires Invariant(s) && step.TakeEntry?
    ensures Invariant(Next(s, step))
  {
  }

  lemma SettleKeepsInvariant(s: System, step: Step)
    requires Invariant(s) && step.Settle?
    ensures Invariant(Next(s, step))
  {
    if step.call in s.calls {
      assert forall c | c in s.calls - {step.call} :: s.calls[c].request != s.calls[step.call].request;
    }
  }

  lemma NextKeepsInvariant(s: System, step: Step)
    requires Invariant(s)
    ensures Invariant(Next(s, step))
  {
    if step.TakeEntry? {
      TakeKeepsInvariant(s, step);
    } else if step.Settle? {
      SettleKeepsInvariant(s, step);
    }
  }

  lemma {:induction false} RunKeepsInvariant(steps: seq<Step>)
    ensures Invariant(Run(steps))
  {
    if steps != [] {
      RunKeepsInvariant(steps[..|steps| - 1]);
      NextKeepsInvariant(Run(steps[..|steps| - 1]), steps[|steps| - 1]);
    }
  }

  /** What a step can do to a channel: nothing, or the first and only decision, from a call whose
    * session owns the request. */
  lemma InboxAfter(s: System, step: Step, id: nat)
    requires Invariant(s) && id in s.requests
    ensures id in Next(s, step).requests && Next(s, step).requests[id].owner == s.requests[id].owner
    ensures var before, after := s.requests[id].inbox, Next(s, step).requests[id].inbox;
      || after == before
      || (before == [] && step.Settle? && Holds(s, step.call, id) && after == [s.calls[step.call].decision]
          && s.calls[step.call].caller == s.requests[id].owner)
  {
  }

  /** A call of this session with this decision took the entry of the request. */
  predicate Asked(steps: seq<Step>, id: nat, caller: string, d: Decision) {
    exists i :: 0 <= i < |steps| && steps[i].TakeEntry? && steps[i].request == id && steps[i].caller == caller
      && ParseDecision(steps[i].decision) == Some(d)
  }

  lemma AskedSnoc(steps: seq<Step>, step: Step, id: nat, caller: string, d: Decision)
    requires Asked(steps, id, caller, d)
    ensures Asked(steps + [step], id, caller, d)
  {
    var i :| 0 <= i < |steps| && steps[i].TakeEntry? && steps[i].request == id && steps[i].caller == caller
      && ParseDecision(steps[i].decision) == Some(d);
    assert (steps + [step])[i] == steps[i];
  }

  lemma AskedNow(steps: seq<Step>, step: Step, id: nat, caller: string, d: Decision)
    requires step.TakeEntry? && step.request == id && step.caller == caller && ParseDecision(step.decision) == Some(d)
    ensures Asked(steps + [step], id, caller, d)
  {
    assert (steps + [step])[|steps|] == step;
  }

  lemma NewCall(s: System, step: Step, call: nat)
    requires call in Next(s, step).calls
    ensures var c := Next(s, step).calls[call];
      (call in s.calls && s.calls[call] == c)
      || (step.TakeEntry? && step.request == c.request && step.caller == c.caller
          && ParseDecision(step.decision) == Some(c.decision))
  {
  }

  /** Every call in hand was made. */
  lemma {:induction false} CallsWereMade(steps: seq<Step>, call: nat)
    requires call in Run(steps).calls
    ensures var c := Run(steps).calls[call]; Asked(steps, c.request, c.caller, c.decision)
  {
    var front, step := steps[..|steps| - 1], steps[|steps| - 1];
    var s, c := Run(front), Run(steps).calls[call];
    assert steps == front + [step];
    NewCall(s, step, call);
    if call in s.calls && s.calls[call] == c {
      CallsWereMade(front, call);
      AskedSnoc(front, step, c.request, c.caller, c.decision);
    } else {
      AskedNow(front, step, c.request, c.caller, c.decision);
    }
  }

  lemma NewRequestIsEmpty(s: System, step: Step, id: nat)
    requires id !in s.requests && id in Next(s, step).requests
    ensures Next(s, step).requests[id].inbox == []
  {
  }

  /** A decision reaches a request at most once, and only from a call that named the session that
    * owns it, whatever the other calls, timeouts and put-backs do. */
  lemma {:induction false} DecisionsAreOwned(steps: seq<Step>, id: nat)
    requires id in Run(steps).requests && Run(steps).requests[id].inbox != []
    ensures var r := Run(steps).requests[id]; |r.inbox| == 1 && Asked(steps, id, r.owner, r.inbox[0])
  {
    var front, step := steps[..|steps| - 1], steps[|steps| - 1];
    var s, r := Run(front), Run(steps).requests[id];
    assert steps == front + [step];
    RunKeepsInvariant(front);
    if id in s.requests {
      InboxAfter(s, step, id);
      if s.requests[id].inbox != [] {
        DecisionsAreOwned(front, id);
      } else {
        CallsWereMade(front, step.call);
      }
      AskedSnoc(front, step, id, r.owner, r.inbox[0]);
    } else {
      NewRequestIsEmpty(s, step, id);
    }
  }

  /** A request that ended with a decision got it that way. */
  lemma OutcomeIsOwned(steps: seq<Step>, id: nat, d: Decision)
    requires id in Run(steps).requests && Run(steps).requests[id].phase == Over(Decided(d))
    ensures Asked(steps, id, Run(steps).requests[id].owner, d)
  {
    RunKeepsInvariant(steps);
    DecisionsAreOwned(steps, id);
  }

  /** A put-back after the request has left leaves an entry nobody waits for; it is answered without
    * effect. */
  lemma LateEntryIsHarmless(s: System, step: Step, id: nat)
    requires Invariant(s) && id in s.requests && s.requests[id].phase.Over?
    ensures id in Next(s, step).requests && Next(s, step).requests[id].phase == s.requests[id].phase
  {
  }

  /** A request that is given up takes its entry with it, and is over. */
  lemma LeavingClears(s: System, id: nat)
    requires id in s.requests && s.requests[id].phase.Leaving?
    ensures var t := Next(s, Leave(id));
      && id !in t.pending && (forall k | k != id :: k in t.pending <==> k in s.pending)
      && id in t.requests && t.requests[id].phase == Over(s.requests[id].phase.result)
  {
  }

  // ── Nobody is left without an answer ──────────────────────────────

  /** If the request waits without a decision, its sender is in the table, under its owner, or in the hand
    * of a call. */
  ghost predicate IsAnswerable(s: System, id: nat) {
    IsWaiting(s, id) && s.requests[id].inbox == [] ==>
      (id in s.pending && s.pending[id] == s.requests[id].owner) || exists c :: Holds(s, c, id)
  }

  ghost predicate Answerable(s: System) {
    forall id :: IsAnswerable(s, id)
  }

  lemma AskAnswerable(s: System, step: Step)
    requires Invariant(s) && Answerable(s) && step.Ask?
    ensures Answerable(Next(s, step))
  {
    var t := Next(s, step);
    forall id ensures IsAnswerable(t, id) {
      assert IsAnswerable(s, id);
      if c :| Holds(s, c, id) {
        assert Holds(t, c, id);
      }
    }
  }

  lemma TakeAnswerable(s: System, step: Step)
    requires Invariant(s) && Answerable(s) && step.TakeEntry?
    ensures Answerable(Next(s, step))
  {
    var t := Next(s, step);
    forall id ensures IsAnswerable(t, id) {
      assert IsAnswerable(s, id);
      if c :| Holds(s, c, id) {
        assert Holds(t, c, id);
      } else if id == step.request && t != s {
        assert Holds(t, step.call, id);
      }
    }
  }

  lemma SettleAnswerable(s: System, step: Step)
    requires Invariant(s) && Answerable(s) && step.Settle?
    ensures Answerable(Next(s, step))
  {
    var t := Next(s, step);
    forall id ensures IsAnswerable(t, id) {
      assert IsAnswerable(s, id);
      if c :| Holds(s, c, id) && c != step.call {
        assert Holds(t, c, id);
      }
    }
  }

  lemma LeaveAnswerable(s: System, step: Step)
    requires Invariant(s) && Answerable(s) && !step.Ask? && !step.TakeEntry? && !step.Settle?
    ensures Answerable(Next(s, step))
  {
    var t := Next(s, step);
    forall id ensures IsAnswerable(t, id) {
      assert IsAnswerable(s, id);
      if c :| Holds(s, c, id) {
        assert Holds(t, c, id);
      }
    }
  }

  /** In every interleaving, whatever calls of other sessions do, a request that waits can be answered. */
  lemma {:induction false} WaitingIsAnswerable(steps: seq<Step>)
    ensures Answerable(Run(steps))
  {
    if steps != [] {
      var s, step := Run(steps[..|steps| - 1]), steps[|steps| - 1];
      WaitingIsAnswerable(steps[..|steps| - 1]);
      RunKeepsInvariant(steps[..|steps| - 1]);
      match step
      case Ask(_, _) => AskAnswerable(s, step);
      case TakeEntry(_, _, _, _) => TakeAnswerable(s, step);
      case Settle(_) => SettleAnswerable(s, step);
      case _ => LeaveAnswerable(s, step);
    }
  }

  /** The owner's answer arrives; that of another session leaves everything as it was. */
  lemma AnswerArrivesIff(s: System, call: nat, id: nat, caller: string, word: string)
    requires Invariant(s) && id in s.pending && call !in s.calls
    requires word in {"allow", "trust_session", "trust_workspace", "deny", "block_forever"}
    ensures var t := Next(Next(s, TakeEntry(call, id, caller, word)), Settle(call));
      if caller == s.requests[id].owner
      then id in t.requests && t.requests[id].inbox == [ParseDecision(word).value]
      else t == s
  {
    DecisionWords(word);
    var taken := Next(s, TakeEntry(call, id, caller, word));
    assert taken.calls - {call} == s.calls;
    assert (s.pending - {id})[id := s.pending[id]] == s.pending;
  }
}
