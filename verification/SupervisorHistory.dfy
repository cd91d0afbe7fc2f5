/** What a whole run of the background supervisor amounts to: when a child is spawned, asked to stop or restarted,
    and what the record of its role then says. */
module SupervisorHistory {
  import opened BackgroundSupervisor

  // ---------- what events ask for

  /** The event asks for a child of the role: a reconcile of an always-on role, or an awaited demand that is active. */
  predicate AsksFor(s: State, e: Event, role: string) {
    match e
    case Reconcile(r) => r == role && role != "import-worker"
    case DemandKnown(r, active, _) => r == role && active && role in s.inspecting
    case _ => false
  }

  /** The event is an awaited demand of the role that is not active. */
  predicate Dismisses(s: State, e: Event, role: string) {
    e.DemandKnown? && e.role == role && !e.active && role in s.inspecting
  }

  predicate Spawns(s: State, e: Event, role: string) {
    !s.closing && role !in s.children && AsksFor(s, e, role)
  }

  ghost predicate SomeSpawn(s: State, e: Event) {
    exists role :: Spawns(s, e, role)
  }

  /** The child was asked to stop, and the last such request went through. */
  predicate Stopped(s: State, child: Child) {
    child in s.stops && s.stops[child]
  }

  ghost predicate NewChild(s: State, t: State, role: string) {
    && t.spawnCount == s.spawnCount + 1
    && t.everRole == s.everRole[t.spawnCount := role] && t.live == s.live[t.spawnCount := role]
    && t.children == s.children[role := t.spawnCount]
    && t.records == s.records[role := Record(true, Starting, t.spawnCount, RecordOf(s, role).restartCount)]
    && t.closing == s.closing
  }

  lemma {:induction false} AbsentSpawned(s: State, role: string)
    ensures !s.closing && role !in s.children ==> NewChild(s, SpawnIfAbsent(s, role), role)
    ensures s.closing || role in s.children ==> SpawnIfAbsent(s, role) == s
    ensures SpawnIfAbsent(s, role).inspecting == s.inspecting
  {
  }

  lemma {:induction false} DemandSpawns(s: State, role: string, active: bool, killFails: bool)
    ensures var t := OnDemandKnown(s, role, active, killFails);
            if !s.closing && role !in s.children && active && role in s.inspecting then NewChild(s, t, role)
            else t.spawnCount == s.spawnCount && t.everRole == s.everRole
  {
    if role in s.inspecting && active {
      var t := s.(inspecting := s.inspecting - multiset{role});
      var wanted := t.(records := t.records[role := RecordOf(t, role).(desired := true)]);
      AbsentSpawned(wanted, role);
    }
  }

  /** Events that are neither reconciles nor demands spawn nothing. */
  lemma {:induction false} OthersSpawnNothing(s: State, e: Event)
    requires !e.Reconcile? && !e.DemandKnown?
    ensures Step(s, e).spawnCount == s.spawnCount && Step(s, e).everRole == s.everRole
  {
  }

  lemma {:induction false} StepSpawns(s: State, e: Event, role: string)
    ensures Spawns(s, e, role) ==> NewChild(s, Step(s, e), role)
  {
    match e
    case Reconcile(r) => AbsentSpawned(s, r);
    case DemandKnown(r, active, killFails) => DemandSpawns(s, r, active, killFails);
    case _ =>
  }

  lemma {:induction false} StepSpawnsNothing(s: State, e: Event)
    requires !SomeSpawn(s, e)
    ensures Step(s, e).spawnCount == s.spawnCount && Step(s, e).everRole == s.everRole
  {
    match e
    case Reconcile(r) => assert !Spawns(s, e, r); AbsentSpawned(s, r);
    case DemandKnown(r, active, killFails) => assert !Spawns(s, e, r); DemandSpawns(s, r, active, killFails);
    case _ => OthersSpawnNothing(s, e);
  }

  /** In any state that a run can reach, an event spawns a child of a role exactly if the supervisor is not closing, the
      role has no tracked child, and the event is a reconcile of an always-on role or an awaited demand that is active. */
  lemma {:induction false} SpawnedExactly(events: seq<Event>, e: Event, role: string)
    ensures var s, t := Run(events), Run(events + [e]);
            && (Spawns(s, e, role) <==> t.spawnCount > s.spawnCount && t.spawnCount in t.everRole && t.everRole[t.spawnCount] == role)
            && (Spawns(s, e, role) ==> NewChild(s, t, role))
            && t.spawnCount == s.spawnCount + if SomeSpawn(s, e) then 1 else 0
  {
    var s := Run(events);
    RunAppend(events, e);
    if r :| Spawns(s, e, r) {
      StepSpawns(s, e, r);
      OneSpawn(s, e, role, r);
    } else {
      StepSpawnsNothing(s, e);
    }
  }

  lemma {:induction false} OneSpawn(s: State, e: Event, role: string, r: string)
    requires Spawns(s, e, r)
    ensures Spawns(s, e, role) <==> role == r
  {
  }

  ghost function SpawnsIn(events: seq<Event>): nat {
    if events == [] then 0
    else SpawnsIn(events[..|events| - 1]) + if SomeSpawn(Run(events[..|events| - 1]), events[|events| - 1]) then 1 else 0
  }

  /** The `k`-th event spawns child number `child` of the role. */
  ghost predicate SpawnsAt(events: seq<Event>, k: nat, child: Child, role: string)
    requires k < |events|
  {
    Spawns(Run(events[..k]), events[k], role) && child == SpawnsIn(events[..k]) + 1
  }

  ghost predicate EverSpawned(events: seq<Event>, child: Child, role: string) {
    exists k: nat :: k < |events| && SpawnsAt(events, k, child, role)
  }

  lemma {:induction false} SpawnedStep(front: seq<Event>, last: Event, child: Child, role: string)
    ensures EverSpawned(front + [last], child, role) <==>
            EverSpawned(front, child, role) || (Spawns(Run(front), last, role) && child == SpawnsIn(front) + 1)
  {
    var all := front + [last];
    assert all[..|front|] == front && all[|front|] == last;
    forall k: nat | k < |front| ensures SpawnsAt(all, k, child, role) <==> SpawnsAt(front, k, child, role) {
      assert all[..k] == front[..k];
    }
    if EverSpawned(all, child, role) {
      var k: nat :| k < |all| && SpawnsAt(all, k, child, role);
      if k == |front| { assert SpawnsAt(all, |front|, child, role); }
    }
    if Spawns(Run(front), last, role) && child == SpawnsIn(front) + 1 { assert SpawnsAt(all, |front|, child, role); }
  }

  /** Over every run, the children ever spawned are exactly those that its events ask for, in order. */
  lemma {:induction false} ChildrenExactly(events: seq<Event>, child: Child, role: string)
    ensures Run(events).spawnCount == SpawnsIn(events)
    ensures child in Run(events).everRole && Run(events).everRole[child] == role <==> EverSpawned(events, child, role)
  {
    if events != [] {
      var front, last := events[..|events| - 1], events[|events| - 1];
      assert events == front + [last];
      ChildrenExactly(front, child, role);
      SpawnedExactly(front, last, role);
      SpawnedStep(front, last, child, role);
      RunKeepsInv(front);
      NewOrOld(Run(front), last, child, role);
    }
  }

  lemma {:induction false} NewOrOld(s: State, e: Event, child: Child, role: string)
    requires Inv(s)
    ensures var t := Step(s, e);
            child in t.everRole && t.everRole[child] == role <==>
            (child in s.everRole && s.everRole[child] == role) || (Spawns(s, e, role) && child == s.spawnCount + 1)
  {
    if r :| Spawns(s, e, r) {
      StepSpawns(s, e, r);
      OneSpawn(s, e, role, r);
      assert s.spawnCount + 1 !in s.everRole;
    } else {
      StepSpawnsNothing(s, e);
    }
  }

  // ---------- demands

  lemma {:induction false} StepWaits(s: State, e: Event, role: string)
    ensures Step(s, e).inspecting[role] ==
            if e == Reconcile(role) && role == "import-worker" then s.inspecting[role] + 1
            else if e.DemandKnown? && e.role == role && s.inspecting[role] > 0 then s.inspecting[role] - 1
            else s.inspecting[role]
  {
    match e
    case Reconcile(r) => AbsentSpawned(s, r);
    case DemandKnown(r, active, killFails) => DemandWaits(s, r, active, killFails);
    case _ => assert Step(s, e).inspecting == s.inspecting;
  }

  lemma {:induction false} DemandWaits(s: State, role: string, active: bool, killFails: bool)
    ensures OnDemandKnown(s, role, active, killFails).inspecting == s.inspecting - multiset{role}
    ensures OnDemandKnown(s, role, active, killFails).closing == s.closing
  {
    if role in s.inspecting && active {
      var t := s.(inspecting := s.inspecting - multiset{role});
      AbsentSpawned(t.(records := t.records[role := RecordOf(t, role).(desired := true)]), role);
    }
  }

  /** Only the on-demand role ever waits for a demand, once for each of its reconciles that has not got one. */
  lemma {:induction false} OnlyDemandWaits(events: seq<Event>, role: string)
    ensures Run(events).inspecting[role] == Waits(events, role)
    ensures role != "import-worker" ==> Waits(events, role) == 0
  {
    if events != [] {
      OnlyDemandWaits(events[..|events| - 1], role);
      StepWaits(Run(events[..|events| - 1]), events[|events| - 1], role);
    }
  }

  function Waits(events: seq<Event>, role: string): nat {
    if events == [] then 0
    else
      var before, e := Waits(events[..|events| - 1], role), events[|events| - 1];
      if e == Reconcile(role) && role == "import-worker" then before + 1
      else if e.DemandKnown? && e.role == role && before > 0 then before - 1
      else before
  }

  /** What an active demand leads to: the role is wanted, and has its tracked child unless the supervisor is closing. */
  ghost predicate Granted(s: State, t: State, role: string) {
    && role in t.records && t.records[role].desired
    && (role in t.children || s.closing)
    && (role in s.children ==> t.children == s.children && t.live == s.live && t.spawnCount == s.spawnCount
                               && t.records[role] == RecordOf(s, role).(desired := true))
    && t.stops == s.stops && t.suppressed == s.suppressed
  }

  /** What an inactive demand leads to: nothing is spawned, the role is not wanted, and its tracked child, if there is
      one, has been asked to stop and will not be restarted if the request went through. */
  ghost predicate Denied(s: State, t: State, role: string, killFails: bool) {
    && t.spawnCount == s.spawnCount && t.children == s.children && t.live == s.live
    && role in t.records
    && t.records[role] == Record(false, if role in s.children then Stopping else Inactive,
                                 if role in s.children then s.children[role] else 0, RecordOf(s, role).restartCount)
    && t.stops == (if role in s.children then s.stops[s.children[role] := !killFails] else s.stops)
    && (role in s.children ==> (role in t.suppressed <==> !killFails))
  }

  lemma {:induction false} ActiveGrants(s: State, role: string, killFails: bool)
    requires role in s.inspecting
    ensures var t := OnDemandKnown(s, role, true, killFails);
            Granted(s, t, role) && t.timers == s.timers
  {
    var u := s.(inspecting := s.inspecting - multiset{role});
    AbsentSpawned(u.(records := u.records[role := RecordOf(u, role).(desired := true)]), role);
  }

  lemma {:induction false} InactiveDenies(s: State, role: string, killFails: bool)
    requires role in s.inspecting
    ensures var t := OnDemandKnown(s, role, false, killFails);
            Denied(s, t, role, killFails) && t.timers == s.timers
  {
  }

  /** In any state that a run can reach, a demand that was awaited decides: active, the role is wanted and served;
      inactive, it is not, and its child has been asked to stop. */
  lemma {:induction false} DemandDecides(events: seq<Event>, role: string, active: bool, killFails: bool)
    requires role in Run(events).inspecting
    ensures var s, t := Run(events), Run(events + [DemandKnown(role, active, killFails)]);
            && (if active then Granted(s, t, role) else Denied(s, t, role, killFails))
            && t.inspecting == s.inspecting - multiset{role} && t.timers == s.timers
  {
    RunAppend(events, DemandKnown(role, active, killFails));
    DemandWaits(Run(events), role, active, killFails);
    if active { ActiveGrants(Run(events), role, killFails); } else { InactiveDenies(Run(events), role, killFails); }
  }

  /** An always-on role that is reconciled has its tracked child, unless the supervisor is closing. */
  lemma {:induction false} AlwaysOnTracked(events: seq<Event>, role: string)
    requires role != "import-worker"
    ensures var s, t := Run(events), Run(events + [Reconcile(role)]);
            && (role in t.children || s.closing) && t.stops == s.stops && t.timers == s.timers && t.inspecting == s.inspecting
            && (role in s.children || s.closing ==> t == s)
  {
    RunAppend(events, Reconcile(role));
  }

  ghost predicate DismissesAt(events: seq<Event>, k: nat, child: Child)
    requires k < |events|
  {
    var s := Run(events[..k]);
    exists role :: Dismisses(s, events[k], role) && role in s.children && s.children[role] == child
  }

  /** The `k`-th event is the last that asks the child to stop. */
  ghost predicate LastDismissal(events: seq<Event>, k: nat, child: Child) {
    k < |events| && DismissesAt(events, k, child) && forall i: nat :: k < i < |events| ==> !DismissesAt(events, i, child)
  }

  lemma {:induction false} EarlierDismissal(front: seq<Event>, last: Event, k: nat, child: Child)
    requires k < |front|
    ensures DismissesAt(front + [last], k, child) <==> DismissesAt(front, k, child)
  {
    assert (front + [last])[..k] == front[..k];
  }

  lemma {:induction false} StopStep(events: seq<Event>, child: Child)
    requires events != []
    ensures var k := |events| - 1;
            var s, t := Run(events[..k]), Run(events);
            if DismissesAt(events, k, child) then child in t.stops && t.stops[child] == !events[k].killFails
            else (child in t.stops <==> child in s.stops) && (child in s.stops ==> t.stops[child] == s.stops[child])
  {
    var k := |events| - 1;
    var s, e := Run(events[..k]), events[k];
    RunKeepsInv(events[..k]);
    if e.DemandKnown? && Dismisses(s, e, e.role) && e.role in s.children && s.children[e.role] != child {
      assert !DismissesAt(events, k, child);
    }
  }

  /** A child was asked to stop exactly by the inactive demands that met it as the tracked one, and the last of
      them decides whether the request went through. */
  lemma {:induction false} StopsExactly(events: seq<Event>, child: Child)
    ensures child in Run(events).stops <==> exists k: nat :: LastDismissal(events, k, child)
    ensures forall k: nat :: LastDismissal(events, k, child) ==>
              child in Run(events).stops && Run(events).stops[child] == !events[k].killFails
  {
    if events != [] {
      var front, k := events[..|events| - 1], |events| - 1;
      assert events == front + [events[k]];
      StopsExactly(front, child);
      StopStep(events, child);
      forall i: nat | i < k ensures DismissesAt(events, i, child) <==> DismissesAt(front, i, child) {
        EarlierDismissal(front, events[k], i, child);
      }
      if DismissesAt(events, k, child) {
        assert LastDismissal(events, k, child);
      } else {
        forall i: nat ensures LastDismissal(events, i, child) <==> LastDismissal(front, i, child) {
        }
      }
    }
  }

  // ---------- exits, reports and the end

  /** An exit is followed by a scheduled restart exactly if the supervisor is not closing and the child was not
      stopped; the role's record tells which of the three it was. */
  lemma {:induction false} ExitDecides(events: seq<Event>, child: Child)
    requires child in Run(events).live
    ensures var s, t := Run(events), Run(events + [ChildExit(child)]);
            var role := s.live[child];
            && t.timers == s.timers + (if s.closing || Stopped(s, child) then multiset{} else multiset{role})
            && role !in t.children && child !in t.live && role !in t.suppressed
            && role in t.records && t.records == s.records[role := t.records[role]]
            && t.records[role].pid == 0 && (t.records[role].desired <==> RecordOf(s, role).desired && !Stopped(s, child))
            && t.records[role].status == if s.closing then Status.Stopped else if Stopped(s, child) then Standby else Exited
  {
    RunKeepsInv(events);
    RunAppend(events, ChildExit(child));
  }

  /** A heartbeat and an error rewrite the record of the child's own role, and nothing else. */
  lemma {:induction false} ReportsOnlyRewrite(events: seq<Event>, child: Child, payload: Heartbeat)
    requires child in Run(events).everRole
    ensures var s := Run(events);
            var role, beat, failed := s.everRole[child], Run(events + [ChildHeartbeat(child, payload)]), Run(events + [ChildError(child)]);
            && beat == s.(records := beat.records) && failed == s.(records := failed.records)
            && role in beat.records && beat.records == s.records[role := beat.records[role]]
            && beat.records[role] == Record(payload.desired, Reported(payload.status), child, RecordOf(s, role).restartCount)
            && role in failed.records && failed.records == s.records[role := failed.records[role]]
            && failed.records[role] == Record(RecordOf(s, role).desired, Status.Failed, RecordOf(s, role).pid, RecordOf(s, role).restartCount)
  {
    RunAppend(events, ChildHeartbeat(child, payload));
    RunAppend(events, ChildError(child));
  }

  lemma {:induction false} StepCloses(s: State, e: Event)
    ensures Step(s, e).closing == (s.closing || e.Shutdown?)
  {
    match e
    case Reconcile(r) => AbsentSpawned(s, r);
    case DemandKnown(r, active, killFails) => DemandWaits(s, r, active, killFails);
    case _ =>
  }

  ghost predicate ShutDownIn(events: seq<Event>) {
    exists k :: 0 <= k < |events| && events[k].Shutdown?
  }

  /** The supervisor is closing exactly once it was shut down. */
  lemma {:induction false} ClosingExactly(events: seq<Event>)
    ensures Run(events).closing <==> ShutDownIn(events)
  {
    if events != [] {
      var front, last := events[..|events| - 1], events[|events| - 1];
      ClosingExactly(front);
      StepCloses(Run(front), last);
      assert ShutDownIn(events) <==> ShutDownIn(front) || last.Shutdown? by {
        assert events == front + [last];
        if ShutDownIn(front) {
          var k :| 0 <= k < |front| && front[k].Shutdown?;
          assert events[k].Shutdown?;
        }
      }
    }
  }
}
