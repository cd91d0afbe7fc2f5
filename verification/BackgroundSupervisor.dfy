/** The background supervisor: reconcile passes, child exits, heartbeats, restart timers and
    shutdown, in any interleaving at the points where the supervisor waits. */
module BackgroundSupervisor {

  /** Child processes are numbered in the order they are spawned, from 1. */
  type Child = nat

  datatype Status = Starting | Stopping | Inactive | Exited | Standby | Stopped | Failed | Reported(text: string)

  datatype Record = Record(desired: bool, status: Status, pid: Child, restartCount: nat)

  const FRESH := Record(true, Starting, 0, 0)

  const ON_DEMAND_ROLE := "import-worker"

  datatype Heartbeat = Heartbeat(status: string, desired: bool)

  /** `Reconcile` is the start of a reconcile of one role, by a pass or by a restart timer.
      `DemandKnown` resumes an on-demand reconcile once the demand was inspected; `killFails`
      says whether stopping the child would throw. */
  datatype Event =
    | Reconcile(role: string)
    | DemandKnown(role: string, active: bool, killFails: bool)
    | ChildExit(child: Child)
    | ChildHeartbeat(child: Child, payload: Heartbeat)
    | ChildError(child: Child)
    | Shutdown

  /** `live` are the children whose exit was not seen yet, `everRole` the role of every child ever
      spawned, `inspecting` the reconciles that wait for a demand, `timers` the scheduled restarts,
      and `stops` tells of each child that was asked to stop whether the last request went through. */
  datatype State = State(
    closing: bool,
    children: map<string, Child>,
    records: map<string, Record>,
    suppressed: set<string>,
    spawnCount: nat,
    live: map<Child, string>,
    everRole: map<Child, string>,
    inspecting: multiset<string>,
    timers: multiset<string>,
    stops: map<Child, bool>
  )

  const START := State(false, map[], map[], {}, 0, map[], map[], multiset{}, multiset{}, map[])

  function RecordOf(s: State, role: string): Record {
    if role in s.records then s.records[role] else FRESH
  }

  // ---------- one event

  function Spawn(s: State, role: string): State {
    if s.closing then s
    else
      var child := s.spawnCount + 1;
      s.(records := s.records[role := Record(true, Starting, child, RecordOf(s, role).restartCount)],
         children := s.children[role := child],
         spawnCount := child,
         live := s.live[child := role],
         everRole := s.everRole[child := role])
  }

  function SpawnIfAbsent(s: State, role: string): State {
    if role in s.children then s else Spawn(s, role)
  }

  function RecordIdle(s: State, role: string): State {
    var tracked := role in s.children;
    s.(records := s.records[role :=
      RecordOf(s, role).(desired := false, status := if tracked then Stopping else Inactive,
                         pid := if tracked then s.children[role] else 0)])
  }

  function StopIdle(s: State, role: string, killFails: bool): State {
    var idle := RecordIdle(s, role);
    if role !in s.children then idle
    else
      idle.(suppressed := if killFails then idle.suppressed - {role} else idle.suppressed + {role},
            stops := idle.stops[s.children[role] := !killFails])
  }

  function OnDemandKnown(before: State, role: string, active: bool, killFails: bool): State {
    if role !in before.inspecting then before
    else
      var s := before.(inspecting := before.inspecting - multiset{role});
      if active then SpawnIfAbsent(s.(records := s.records[role := RecordOf(s, role).(desired := true)]), role)
      else StopIdle(s, role, killFails)
  }

  function OnExit(s: State, child: Child): State {
    if child !in s.live then s
    else
      var role := s.live[child];
      var suppressed, current := role in s.suppressed, RecordOf(s, role);
      var restarts := !s.closing && !suppressed;
      s.(suppressed := s.suppressed - {role},
         children := s.children - {role},
         live := s.live - {child},
         records := s.records[role := Record(
           !suppressed && current.desired,
           if s.closing then Stopped else if suppressed then Standby else Exited,
           0,
           current.restartCount + if restarts then 1 else 0)],
         timers := if restarts then s.timers + multiset{role} else s.timers)
  }

  function OnHeartbeat(s: State, child: Child, payload: Heartbeat): State {
    if child !in s.everRole then s
    else
      var role := s.everRole[child];
      s.(records := s.records[role := Record(payload.desired, Reported(payload.status), child, RecordOf(s, role).restartCount)])
  }

  function OnError(s: State, child: Child): State {
    if child !in s.everRole then s
    else
      var role := s.everRole[child];
      s.(records := s.records[role := RecordOf(s, role).(status := Failed)])
  }

  function Step(s: State, e: Event): State {
    match e
    case Reconcile(role) =>
      if role == ON_DEMAND_ROLE then s.(inspecting := s.inspecting + multiset{role}) else SpawnIfAbsent(s, role)
    case DemandKnown(role, active, killFails) => OnDemandKnown(s, role, active, killFails)
    case ChildExit(child) => OnExit(s, child)
    case ChildHeartbeat(child, payload) => OnHeartbeat(s, child, payload)
    case ChildError(child) => OnError(s, child)
    case Shutdown => s.(closing := true)
  }

  function Run(events: seq<Event>): State {
    if events == [] then START else Step(Run(events[..|events| - 1]), events[|events| - 1])
  }

  // ---------- what holds after every event

  /** The tracked children are exactly the live ones, each under its own role. */
  ghost predicate Tracked(s: State) {
    && (forall role :: role in s.children ==> s.children[role] in s.live && s.live[s.children[role]] == role)
    && (forall child :: child in s.live ==> s.live[child] in s.children && s.children[s.live[child]] == child)
    && (forall child :: child in s.live ==> child in s.everRole && s.everRole[child] == s.live[child])
    && (forall child :: child in s.everRole <==> 1 <= child <= s.spawnCount)
  }

  /** A role's next exit is not restarted exactly if its current child was asked to stop while
      idle and the last such request went through. */
  ghost predicate SuppressionFits(s: State) {
    && (forall role :: role in s.suppressed <==>
          role in s.children && s.children[role] in s.stops && s.stops[s.children[role]])
    && forall child :: child in s.stops ==> child in s.everRole
  }

  ghost predicate Inv(s: State) {
    Tracked(s) && SuppressionFits(s)
  }

  lemma {:induction false} SpawnKeepsInv(s: State, role: string)
    requires Inv(s) && role !in s.children
    ensures Inv(Spawn(s, role))
  {
    if !s.closing {
      var child, t := s.spawnCount + 1, Spawn(s, role);
      assert child !in s.everRole && child !in s.live && child !in s.stops;
      assert Tracked(t);
      assert SuppressionFits(t);
    }
  }

  lemma {:induction false} ExitKeepsInv(s: State, child: Child)
    requires Inv(s) && child in s.live
    ensures Inv(OnExit(s, child))
  {
    var t := OnExit(s, child);
    assert Tracked(t);
    assert SuppressionFits(t);
  }

  lemma {:induction false} StopKeepsInv(s: State, role: string, killFails: bool)
    requires Inv(s)
    ensures Inv(StopIdle(s, role, killFails))
  {
    if role in s.children {
      var t := StopIdle(s, role, killFails);
      assert Tracked(t);
      forall r ensures r in t.suppressed <==> r in t.children && t.children[r] in t.stops && t.stops[t.children[r]] {
        if r != role && r in s.children {
          assert s.live[s.children[r]] != s.live[s.children[role]];
        }
      }
    }
  }

  lemma {:induction false} DemandKeepsInv(s: State, role: string, active: bool, killFails: bool)
    requires Inv(s)
    ensures Inv(OnDemandKnown(s, role, active, killFails))
  {
    if role in s.inspecting {
      var t := s.(inspecting := s.inspecting - multiset{role});
      if active {
        var wanted := t.(records := t.records[role := RecordOf(t, role).(desired := true)]);
        if role !in s.children { SpawnKeepsInv(wanted, role); }
      } else {
        StopKeepsInv(t, role, killFails);
      }
    }
  }

  lemma {:induction false} StepKeepsInv(s: State, e: Event)
    requires Inv(s)
    ensures Inv(Step(s, e))
  {
    match e
    case Reconcile(role) => if role != ON_DEMAND_ROLE && role !in s.children { SpawnKeepsInv(s, role); }
    case DemandKnown(role, active, killFails) => DemandKeepsInv(s, role, active, killFails);
    case ChildExit(child) => if child in s.live { ExitKeepsInv(s, child); }
    case ChildHeartbeat(child, payload) =>
    case ChildError(child) =>
    case Shutdown =>
  }

  /** In every interleaving, the supervisor's tables stay accurate. */
  lemma {:induction false} RunKeepsInv(events: seq<Event>)
    ensures Inv(Run(events))
  {
    if events != [] {
      RunKeepsInv(events[..|events| - 1]);
      StepKeepsInv(Run(events[..|events| - 1]), events[|events| - 1]);
    }
  }

  /** Each role has at most one live child, and it is the tracked one. */
  lemma {:induction false} OneChildPerRole(events: seq<Event>, a: Child, b: Child)
    requires a in Run(events).live && b in Run(events).live && Run(events).live[a] == Run(events).live[b]
    ensures a == b && Run(events).live[a] in Run(events).children && Run(events).children[Run(events).live[a]] == a
  {
    RunKeepsInv(events);
  }

  /** An exit removes the exiting child and no other, so never a newer child of the same role. */
  lemma {:induction false} ExitRemovesOnlyItself(events: seq<Event>, child: Child)
    requires child in Run(events).live
    ensures var s := Run(events);
            var t := OnExit(s, child);
            && (forall c :: c in t.live <==> c in s.live && c != child)
            && (forall role :: role in t.children <==> role in s.children && s.children[role] != child)
            && forall role :: role in t.children ==> t.children[role] == s.children[role]
  {
    RunKeepsInv(events);
  }

  // ---------- restart accounting

  /** The event is the exit of a child of the role that is neither suppressed nor at shutdown. */
  predicate CountedExit(s: State, e: Event, role: string) {
    && e.ChildExit? && e.child in s.live && s.live[e.child] == role
    && !s.closing && role !in s.suppressed
  }

  function CountedExits(events: seq<Event>, role: string): nat {
    if events == [] then 0
    else
      var front, last := events[..|events| - 1], events[|events| - 1];
      CountedExits(front, role) + if CountedExit(Run(front), last, role) then 1 else 0
  }

  ghost predicate SameCounts(s: State, t: State) {
    t.timers == s.timers && forall role :: RecordOf(t, role).restartCount == RecordOf(s, role).restartCount
  }

  lemma {:induction false} SpawnSameCounts(s: State, role: string)
    ensures SameCounts(s, SpawnIfAbsent(s, role))
  {
  }

  lemma {:induction false} StopSameCounts(s: State, role: string, killFails: bool)
    ensures SameCounts(s, StopIdle(s, role, killFails))
  {
  }

  lemma {:induction false} DemandSameCounts(s: State, role: string, active: bool, killFails: bool)
    ensures SameCounts(s, OnDemandKnown(s, role, active, killFails))
  {
    if role in s.inspecting {
      var t := s.(inspecting := s.inspecting - multiset{role});
      var wanted := t.(records := t.records[role := RecordOf(t, role).(desired := true)]);
      assert SameCounts(s, wanted);
      SpawnSameCounts(wanted, role);
      StopSameCounts(t, role, killFails);
    }
  }

  lemma {:induction false} StepCounts(s: State, e: Event, role: string)
    ensures var more := if CountedExit(s, e, role) then 1 else 0;
            && RecordOf(Step(s, e), role).restartCount == RecordOf(s, role).restartCount + more
            && Step(s, e).timers[role] == s.timers[role] + more
  {
    match e
    case Reconcile(r) => SpawnSameCounts(s, r);
    case DemandKnown(r, active, killFails) => DemandSameCounts(s, r, active, killFails);
    case ChildExit(child) =>
    case ChildHeartbeat(child, payload) =>
    case ChildError(child) =>
    case Shutdown =>
  }

  /** The restart count of a role is the number of its unsuppressed exits before shutdown, however
      heartbeats, respawns and idle stops rewrite its record; as many restarts were scheduled. */
  lemma {:induction false} RestartCountExact(events: seq<Event>, role: string)
    ensures RecordOf(Run(events), role).restartCount == CountedExits(events, role)
    ensures Run(events).timers[role] == CountedExits(events, role)
  {
    if events != [] {
      var front, last := events[..|events| - 1], events[|events| - 1];
      RestartCountExact(front, role);
      StepCounts(Run(front), last, role);
    }
  }

  // ---------- shutdown

  function Continue(s: State, events: seq<Event>): State {
    if events == [] then s else Step(Continue(s, events[..|events| - 1]), events[|events| - 1])
  }

  lemma {:induction false} RunAppend(events: seq<Event>, e: Event)
    ensures Run(events + [e]) == Step(Run(events), e)
  {
    var all := events + [e];
    assert all[..|all| - 1] == events && all[|all| - 1] == e;
  }

  lemma {:induction false} RunContinues(before: seq<Event>, after: seq<Event>)
    ensures Run(before + after) == Continue(Run(before), after)
  {
    if after != [] {
      var front, last := after[..|after| - 1], after[|after| - 1];
      RunContinues(before, front);
      RunAppend(before + front, last);
      assert before + after == (before + front) + [last];
    } else {
      assert before + after == before;
    }
  }

  function ExitsIn(events: seq<Event>): set<Child> {
    set i | 0 <= i < |events| && events[i].ChildExit? :: events[i].child
  }

  /** From `s` to `t` no child was spawned, no restart counted or scheduled, and exactly the
      children in `gone` left. */
  ghost predicate OnlyWoundDown(s: State, t: State, gone: set<Child>) {
    t.closing && t.spawnCount == s.spawnCount && t.everRole == s.everRole && SameCounts(s, t) && t.live == s.live - gone
  }

  ghost predicate SameProcesses(s: State, t: State) {
    t.closing && t.spawnCount == s.spawnCount && t.everRole == s.everRole && t.live == s.live
  }

  lemma {:induction false} ClosingDemand(t: State, role: string, active: bool, killFails: bool)
    requires t.closing
    ensures SameProcesses(t, OnDemandKnown(t, role, active, killFails))
  {
    if role in t.inspecting {
      var u := t.(inspecting := t.inspecting - multiset{role});
      if active {
        var wanted := u.(records := u.records[role := RecordOf(u, role).(desired := true)]);
        assert SpawnIfAbsent(wanted, role) == wanted;
      } else {
        var idle := RecordIdle(u, role);
        assert SameProcesses(t, idle);
        assert SameProcesses(t, StopIdle(u, role, killFails));
      }
    }
  }

  lemma {:induction false} ClosingExit(t: State, child: Child)
    requires t.closing
    ensures var u := OnExit(t, child);
            u.closing && u.spawnCount == t.spawnCount && u.everRole == t.everRole && u.live == t.live - {child}
  {
    if child !in t.live {
      assert t.live - {child} == t.live;
    }
  }

  lemma {:induction false} ClosingStep(t: State, e: Event)
    requires t.closing
    ensures OnlyWoundDown(t, Step(t, e), if e.ChildExit? then {e.child} else {})
  {
    assert t.live - {} == t.live;
    match e {
      case Reconcile(r) => assert SameProcesses(t, Step(t, e));
      case DemandKnown(r, active, killFails) => ClosingDemand(t, r, active, killFails);
      case ChildExit(child) => ClosingExit(t, child);
      case ChildHeartbeat(child, payload) => assert SameProcesses(t, Step(t, e));
      case ChildError(child) => assert SameProcesses(t, Step(t, e));
      case Shutdown =>
    }
    ClosingCounts(t, e);
  }

  lemma {:induction false} ClosingCounts(t: State, e: Event)
    requires t.closing
    ensures SameCounts(t, Step(t, e))
  {
    forall role
      ensures RecordOf(Step(t, e), role).restartCount == RecordOf(t, role).restartCount
      ensures Step(t, e).timers[role] == t.timers[role]
    {
      StepCounts(t, e, role);
    }
  }

  lemma {:induction false} WindDownStep(s: State, t: State, gone: set<Child>, e: Event)
    requires OnlyWoundDown(s, t, gone)
    ensures OnlyWoundDown(s, Step(t, e), gone + if e.ChildExit? then {e.child} else {})
  {
    ClosingStep(t, e);
    var own := if e.ChildExit? then {e.child} else {};
    assert (s.live - gone) - own == s.live - (gone + own);
    SameCountsTransitive(s, t, Step(t, e));
  }

  lemma {:induction false} SameCountsTransitive(s: State, t: State, u: State)
    requires SameCounts(s, t) && SameCounts(t, u)
    ensures SameCounts(s, u)
  {
    forall role ensures RecordOf(u, role).restartCount == RecordOf(s, role).restartCount {
      assert RecordOf(t, role).restartCount == RecordOf(s, role).restartCount;
    }
  }

  lemma {:induction false} ExitsStep(front: seq<Event>, last: Event)
    ensures ExitsIn(front + [last]) == ExitsIn(front) + if last.ChildExit? then {last.child} else {}
  {
    var all := front + [last];
    assert forall i :: 0 <= i < |front| ==> all[i] == front[i];
    assert all[|front|] == last;
  }

  /** After closing no child is ever spawned, whatever reconciles, timers and demands still
      arrive; the live children only leave, by their own exits. */
  lemma {:induction false} NoSpawnAfterClosing(s: State, after: seq<Event>)
    requires s.closing
    ensures OnlyWoundDown(s, Continue(s, after), ExitsIn(after))
  {
    if after != [] {
      var front, last := after[..|after| - 1], after[|after| - 1];
      NoSpawnAfterClosing(s, front);
      assert after == front + [last];
      ExitsStep(front, last);
      WindDownStep(s, Continue(s, front), ExitsIn(front), last);
    } else {
      assert s.live - ExitsIn(after) == s.live;
    }
  }

  // ---------- the supervisor itself

  class Supervisor {
    var closing: bool
    var children: map<string, Child>
    var records: map<string, Record>
    var suppressRestartRoles: set<string>
    var spawnCount: nat
    ghost var live: map<Child, string>
    ghost var everRole: map<Child, string>
    ghost var inspecting: multiset<string>
    ghost var timers: multiset<string>
    ghost var stops: map<Child, bool>

    ghost function Abstract(): State
      reads this
    {
      State(closing, children, records, suppressRestartRoles, spawnCount, live, everRole, inspecting, timers, stops)
    }

    ghost predicate Valid()
      reads this
    {
      Inv(Abstract())
    }

    constructor ()
      ensures Valid() && Abstract() == START
    {
      closing, children, records, suppressRestartRoles, spawnCount := false, map[], map[], {}, 0;
      live, everRole, inspecting, timers, stops := map[], map[], multiset{}, multiset{}, map[];
    }

    method Current(role: string) returns (r: Record)
      ensures r == RecordOf(Abstract(), role)
    {
      r := if role in records then records[role] else FRESH;
    }

    method SpawnRole(role: string)
      modifies this`records, this`children, this`spawnCount, this`live, this`everRole
      ensures Abstract() == Spawn(old(Abstract()), role)
    {
      if closing { return; }
      var previous := Current(role);
      var child := spawnCount + 1;
      spawnCount := child;
      live := live[child := role];
      everRole := everRole[child := role];
      records := records[role := Record(true, Starting, child, previous.restartCount)];
      children := children[role := child];
    }

    method ReconcileRole(role: string)
      requires Valid()
      modifies this
      ensures Valid() && Abstract() == Step(old(Abstract()), Reconcile(role))
    {
      StepKeepsInv(Abstract(), Reconcile(role));
      if role != ON_DEMAND_ROLE {
        if role !in children { SpawnRole(role); }
        return;
      }
      inspecting := inspecting + multiset{role};
    }

    /** The rest of an on-demand reconcile, after its demand was inspected. */
    method ResumeReconcile(role: string, active: bool, killFails: bool)
      requires Valid() && role in inspecting
      modifies this
      ensures Valid() && Abstract() == Step(old(Abstract()), DemandKnown(role, active, killFails))
    {
      StepKeepsInv(Abstract(), DemandKnown(role, active, killFails));
      ActOnDemand(role, active, killFails);
    }

    method ActOnDemand(role: string, active: bool, killFails: bool)
      requires role in inspecting
      modifies this
      ensures Abstract() == OnDemandKnown(old(Abstract()), role, active, killFails)
    {
      inspecting := inspecting - multiset{role};
      if active {
        UpdateRoleDemand(role);
        if role !in children { SpawnRole(role); }
        return;
      }
      StopIdleRole(role, killFails);
    }

    /** Records the role as idle and asks a tracked child to stop, undoing the suppression if that throws. */
    method StopIdleRole(role: string, killFails: bool)
      modifies this`records, this`suppressRestartRoles, this`stops
      ensures Abstract() == StopIdle(old(Abstract()), role, killFails)
    {
      var tracked := role in children;
      RecordIdleRole(role);
      if !tracked { return; }
      suppressRestartRoles := suppressRestartRoles + {role};
      stops := stops[children[role] := !killFails];
      if killFails {
        suppressRestartRoles := suppressRestartRoles - {role};
        assert old(suppressRestartRoles) + {role} - {role} == old(suppressRestartRoles) - {role};
      }
    }

    method UpdateRoleDemand(role: string)
      modifies this`records
      ensures records == old(records)[role := RecordOf(old(Abstract()), role).(desired := true)]
    {
      var previous := Current(role);
      records := records[role := previous.(desired := true)];
    }

    method RecordIdleRole(role: string)
      modifies this`records
      ensures Abstract() == RecordIdle(old(Abstract()), role)
    {
      var previous := Current(role);
      var tracked := role in children;
      records := records[role := previous.(desired := false, status := if tracked then Stopping else Inactive,
                                           pid := if tracked then children[role] else 0)];
    }

    /** The exit handler of one child, whose role was fixed when it was spawned. */
    method OnChildExit(child: Child, role: string)
      requires Valid() && child in live && live[child] == role
      modifies this
      ensures Valid() && Abstract() == Step(old(Abstract()), ChildExit(child))
    {
      StepKeepsInv(Abstract(), ChildExit(child));
      HandleExit(child, role);
    }

    method HandleExit(child: Child, role: string)
      requires child in live && live[child] == role
      modifies this
      ensures Abstract() == OnExit(old(Abstract()), child)
    {
      var current := Current(role);
      var restartSuppressed := role in suppressRestartRoles;
      suppressRestartRoles := suppressRestartRoles - {role};
      children := children - {role};
      live := live - {child};
      records := records[role := Record(
        if restartSuppressed then false else current.desired,
        if closing then Stopped else if restartSuppressed then Standby else Exited,
        0,
        current.restartCount + if closing || restartSuppressed then 0 else 1)];
      if !closing && !restartSuppressed {
        timers := timers + multiset{role};
      }
    }

    method OnChildHeartbeat(child: Child, role: string, payload: Heartbeat)
      requires Valid() && child in everRole && everRole[child] == role
      modifies this`records
      ensures Valid() && Abstract() == Step(old(Abstract()), ChildHeartbeat(child, payload))
    {
      var current := Current(role);
      records := records[role := Record(payload.desired, Reported(payload.status), child, current.restartCount)];
    }

    method OnChildError(child: Child, role: string)
      requires Valid() && child in everRole && everRole[child] == role
      modifies this`records
      ensures Valid() && Abstract() == Step(old(Abstract()), ChildError(child))
    {
      var current := Current(role);
      records := records[role := current.(status := Failed)];
    }

    method ShutDown()
      requires Valid()
      modifies this`closing
      ensures Valid() && Abstract() == Step(old(Abstract()), Shutdown)
    {
      closing := true;
    }
  }
}
