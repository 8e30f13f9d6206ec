/** What the user has decided about paths outside the workspace, session by session. */
module PathTrust {
  import opened Collections

  const MAX_APPROVED_PER_SESSION := 64
  const MAX_SESSIONS := 32

  /** A path in the form it is compared in. */
  type Path = string

  datatype SessionPaths = SessionPaths(approved: set<Path>, denied: set<Path>)

  type Registry = map<string, SessionPaths>

  function PathsOf(reg: Registry, session: string): SessionPaths {
    if session in reg then reg[session] else SessionPaths({}, {})
  }

  /** Add a path; a full set drops `victim` first, which may be any entry. */
  function InsertBounded(paths: set<Path>, path: Path, victim: Path): (r: set<Path>) {
    (if |paths| >= MAX_APPROVED_PER_SESSION then paths - {victim} else paths) + {path}
  }

  /** Make room for a new session by dropping `oldest`, which may be any session. */
  function MakeRoom(reg: Registry, session: string, oldest: string): (r: Registry) {
    if |reg| >= MAX_SESSIONS && session !in reg then reg - {oldest} else reg
  }

  function Approve(reg: Registry, session: string, path: Path, oldest: string, victim: Path): (r: Registry) {
    var room := MakeRoom(reg, session, oldest);
    var s := PathsOf(room, session);
    room[session := SessionPaths(InsertBounded(s.approved, path, victim), s.denied - {path})]
  }

  function Deny(reg: Registry, session: string, path: Path, victim: Path): (r: Registry) {
    if session == "" then reg
    else
      var s := PathsOf(reg, session);
      reg[session := SessionPaths(s.approved - {path}, InsertBounded(s.denied, path, victim))]
  }

  function Forget(reg: Registry, session: string): Registry {
    reg - {session}
  }

  predicate IsApproved(reg: Registry, session: string, path: Path) {
    session != "" && path in PathsOf(reg, session).approved
  }

  predicate IsDenied(reg: Registry, session: string, path: Path) {
    session != "" && path in PathsOf(reg, session).denied
  }

  /** The entries an operation may drop are there to be dropped. */
  predicate LegalVictim(paths: set<Path>, victim: Path) {
    |paths| >= MAX_APPROVED_PER_SESSION ==> victim in paths
  }

  // ── The registry as a program ─────────────────────────────────────

  class Trust {
    var registry: Registry

    constructor ()
      ensures registry == map[]
    {
      registry := map[];
    }

    static method InsertInto(paths: set<Path>, path: Path) returns (r: set<Path>, ghost victim: Path)
      ensures path in r && r <= paths + {path} && (|paths| < MAX_APPROVED_PER_SESSION ==> r == paths + {path})
      ensures LegalVictim(paths, victim) && r == InsertBounded(paths, path, victim)
    {
      r, victim := paths, path;
      if |r| >= MAX_APPROVED_PER_SESSION {
        var first :| first in r;
        victim := first;
        r := r - {first};
      }
      r := r + {path};
    }

    method ApprovePath(session: string, path: Path) returns (ghost oldest: string, ghost victim: Path)
      modifies this
      ensures registry == Approve(old(registry), session, path, oldest, victim)
      ensures |old(registry)| >= MAX_SESSIONS ==> oldest in old(registry) || session in old(registry)
      ensures LegalVictim(PathsOf(MakeRoom(old(registry), session, oldest), session).approved, victim)
    {
      oldest := session;
      if |registry| >= MAX_SESSIONS && session !in registry {
        var first :| first in registry.Keys;
        oldest := first;
        registry := registry - {first};
      }
      var s := PathsOf(registry, session);
      var approved, v := InsertInto(s.approved, path);
      victim := v;
      registry := registry[session := SessionPaths(approved, s.denied - {path})];
    }

    method DenyPath(session: string, path: Path) returns (ghost victim: Path)
      modifies this
      ensures registry == Deny(old(registry), session, path, victim)
      ensures LegalVictim(PathsOf(old(registry), session).denied, victim)
    {
      victim := path;
      if PathsOf(registry, session).denied != {} {
        victim :| victim in PathsOf(registry, session).denied;
      }
      if session == "" {
        return;
      }
      var s := PathsOf(registry, session);
      var denied, v := InsertInto(s.denied, path);
      victim := v;
      registry := registry[session := SessionPaths(s.approved - {path}, denied)];
    }

    method ForgetSession(session: string)
      modifies this
      ensures registry == Forget(old(registry), session)
      ensures forall path :: !IsApproved(registry, session, path) && !IsDenied(registry, session, path)
    {
      registry := registry - {session};
    }
  }

  // ── Every run ─────────────────────────────────────────────────────

  datatype Step =
    | DoApprove(session: string, path: Path, oldest: string, victim: Path)
    | DoDeny(session: string, path: Path, victim: Path)
    | DoForget(session: string)

  function Next(reg: Registry, step: Step): Registry {
    match step
    case DoApprove(session, path, oldest, victim) => Approve(reg, session, path, oldest, victim)
    case DoDeny(session, path, victim) => Deny(reg, session, path, victim)
    case DoForget(session) => Forget(reg, session)
  }

  /** What an operation drops is there. */
  predicate Legal(reg: Registry, step: Step) {
    match step
    case DoApprove(session, path, oldest, victim) =>
      && (|reg| >= MAX_SESSIONS && session !in reg ==> oldest in reg)
      && LegalVictim(PathsOf(MakeRoom(reg, session, oldest), session).approved, victim)
    case DoDeny(session, path, victim) => session == "" || LegalVictim(PathsOf(reg, session).denied, victim)
    case DoForget(_) => true
  }

  /** Nothing is dropped. */
  predicate Fits(reg: Registry, step: Step) {
    match step
    case DoApprove(session, path, _, _) =>
      (session in reg || |reg| < 32) && |PathsOf(reg, session).approved| < 64
    case DoDeny(session, path, _) => |PathsOf(reg, session).denied| < 64
    case DoForget(_) => true
  }

  function Run(steps: seq<Step>): (reg: Registry) {
    if steps == [] then map[] else Next(Run(steps[..|steps| - 1]), steps[|steps| - 1])
  }

  predicate LegalRun(steps: seq<Step>) {
    steps == [] || (LegalRun(steps[..|steps| - 1]) && Legal(Run(steps[..|steps| - 1]), steps[|steps| - 1]))
  }

  predicate RoomyRun(steps: seq<Step>) {
    steps == [] || (RoomyRun(steps[..|steps| - 1]) && Fits(Run(steps[..|steps| - 1]), steps[|steps| - 1]))
  }

  datatype Verdict = Approved | Denied | Unknown

  /** The latest decision about a path in a session. */
  function Latest(steps: seq<Step>, session: string, path: Path): (v: Verdict) {
    if steps == [] || session == "" then Unknown
    else
      var last := steps[|steps| - 1];
      if last.session != session then Latest(steps[..|steps| - 1], session, path)
      else if last.DoForget? then Unknown
      else if last.path != path then Latest(steps[..|steps| - 1], session, path)
      else if last.DoApprove? then Approved
      else Denied
  }

  /** What the registry says of a path. */
  function Says(reg: Registry, session: string, path: Path): Verdict {
    if IsApproved(reg, session, path) then Approved else if IsDenied(reg, session, path) then Denied else Unknown
  }

  predicate BoundedPaths(s: SessionPaths) {
    s.approved !! s.denied && |s.approved| <= 64 && |s.denied| <= 64
  }

  predicate Bounded(reg: Registry) {
    forall s | s in reg :: BoundedPaths(reg[s])
  }

  lemma InsertIsBounded(paths: set<Path>, path: Path, victim: Path)
    requires |paths| <= MAX_APPROVED_PER_SESSION && LegalVictim(paths, victim)
    ensures |InsertBounded(paths, path, victim)| <= MAX_APPROVED_PER_SESSION
  {
    if path !in paths && |paths| < MAX_APPROVED_PER_SESSION {
      assert paths + {path} - {path} == paths;
    } else if path in paths {
      assert paths + {path} == paths;
    }
  }

  lemma ApprovedPathsAreBounded(s: SessionPaths, path: Path, victim: Path)
    requires BoundedPaths(s) && LegalVictim(s.approved, victim)
    ensures BoundedPaths(SessionPaths(InsertBounded(s.approved, path, victim), s.denied - {path}))
  {
    InsertIsBounded(s.approved, path, victim);
    SubsetIsSmaller(s.denied - {path}, s.denied);
  }

  lemma DeniedPathsAreBounded(s: SessionPaths, path: Path, victim: Path)
    requires BoundedPaths(s) && LegalVictim(s.denied, victim)
    ensures BoundedPaths(SessionPaths(s.approved - {path}, InsertBounded(s.denied, path, victim)))
  {
    InsertIsBounded(s.denied, path, victim);
    SubsetIsSmaller(s.approved - {path}, s.approved);
  }

  lemma UpdateIsBounded(reg: Registry, session: string, s: SessionPaths)
    requires Bounded(reg) && BoundedPaths(s)
    ensures Bounded(reg[session := s])
  {
  }

  lemma DropIsBounded(reg: Registry, session: string)
    requires Bounded(reg)
    ensures Bounded(reg - {session})
  {
    assert forall s | s in reg - {session} :: s in reg && (reg - {session})[s] == reg[s];
  }

  lemma PathsAreBounded(reg: Registry, session: string)
    requires Bounded(reg)
    ensures BoundedPaths(PathsOf(reg, session))
  {
  }

  lemma NextIsBounded(reg: Registry, step: Step)
    requires Bounded(reg) && Legal(reg, step)
    ensures Bounded(Next(reg, step))
  {
    match step
    case DoApprove(session, path, oldest, victim) =>
      var room := MakeRoom(reg, session, oldest);
      DropIsBounded(reg, oldest);
      PathsAreBounded(room, session);
      var s := PathsOf(room, session);
      ApprovedPathsAreBounded(s, path, victim);
      UpdateIsBounded(room, session, SessionPaths(InsertBounded(s.approved, path, victim), s.denied - {path}));
    case DoDeny(session, path, victim) =>
      if session != "" {
        var s := PathsOf(reg, session);
        PathsAreBounded(reg, session);
        DeniedPathsAreBounded(s, path, victim);
        UpdateIsBounded(reg, session, SessionPaths(s.approved - {path}, InsertBounded(s.denied, path, victim)));
      }
    case DoForget(session) => DropIsBounded(reg, session);
  }

  /** In every run no path of a session is both approved and denied, and each set is bounded. */
  lemma {:induction false} RunIsBounded(steps: seq<Step>)
    requires LegalRun(steps)
    ensures Bounded(Run(steps))
  {
    if steps != [] {
      RunIsBounded(steps[..|steps| - 1]);
      NextIsBounded(Run(steps[..|steps| - 1]), steps[|steps| - 1]);
    }
  }

  /** A decision is kept, or forgotten if something was dropped. */
  predicate Fades(before: Verdict, after: Verdict, fits: bool) {
    after == before || (after == Unknown && !fits)
  }

  /** What an approval changes: the path reads as approved, and another path at most becomes
    * unknown, which it does not if nothing is dropped. */
  lemma ApproveSays(reg: Registry, step: Step, session: string, path: Path)
    requires step.DoApprove? && Bounded(reg) && session != ""
    ensures var after := Next(reg, step);
      if session == step.session && path == step.path then Says(after, session, path) == Approved
      else Fades(Says(reg, session, path), Says(after, session, path), Fits(reg, step))
  {
    var room := MakeRoom(reg, step.session, step.oldest);
    assert session in room ==> room[session] == reg[session];
  }

  lemma DenySays(reg: Registry, step: Step, session: string, path: Path)
    requires step.DoDeny? && Bounded(reg) && session != ""
    ensures var after := Next(reg, step);
      if session == step.session && path == step.path then Says(after, session, path) == Denied
      else Fades(Says(reg, session, path), Says(after, session, path), Fits(reg, step))
  {
    if session in reg {
      assert BoundedPaths(reg[session]);
    }
  }

  lemma ForgetSays(reg: Registry, step: Step, session: string, path: Path)
    requires step.DoForget?
    ensures Says(Next(reg, step), session, path)
         == if session == step.session then Unknown else Says(reg, session, path)
  {
  }

  lemma NextSays(reg: Registry, step: Step, session: string, path: Path)
    requires Bounded(reg) && session != ""
    ensures var before, after := Says(reg, session, path), Says(Next(reg, step), session, path);
      if step.session != session || (!step.DoForget? && step.path != path)
      then Fades(before, after, Fits(reg, step))
      else after == if step.DoForget? then Unknown else if step.DoApprove? then Approved else Denied
  {
    match step
    case DoApprove(_, _, _, _) => ApproveSays(reg, step, session, path);
    case DoDeny(_, _, _) => DenySays(reg, step, session, path);
    case DoForget(_) => ForgetSays(reg, step, session, path);
  }

  /** The registry never says more than the latest decision: a path reads as approved only if the
    * last approve, deny or forget about it was an approve, whatever was dropped; and as denied only
    * if it was a deny. */
  lemma {:induction false} RegistryIsHonest(steps: seq<Step>, session: string, path: Path)
    requires LegalRun(steps)
    ensures Says(Run(steps), session, path) == Latest(steps, session, path)
         || Says(Run(steps), session, path) == Unknown
  {
    if steps != [] && session != "" {
      var front := steps[..|steps| - 1];
      RunIsBounded(front);
      RegistryIsHonest(front, session, path);
      NextSays(Run(front), steps[|steps| - 1], session, path);
    }
  }

  /** If nothing ever had to be dropped, it says exactly the latest decision. */
  lemma {:induction false} RoomyRegistryIsExact(steps: seq<Step>, session: string, path: Path)
    requires LegalRun(steps) && RoomyRun(steps)
    ensures Says(Run(steps), session, path) == Latest(steps, session, path)
  {
    if steps != [] && session != "" {
      var front := steps[..|steps| - 1];
      RunIsBounded(front);
      RoomyRegistryIsExact(front, session, path);
      NextSays(Run(front), steps[|steps| - 1], session, path);
    }
  }
}
