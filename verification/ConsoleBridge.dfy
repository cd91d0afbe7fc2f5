/** The host side of the plugin console bridge: bounded concurrent tool calls, timeouts,
    revocation, and at most one reply to each invoke message. */
module ConsoleBridge {
  import opened Wrappers

  const MAX_REQUEST_BYTES: nat := 1048576
  const MAX_RESPONSE_BYTES: nat := 8388608
  const MAX_CONCURRENT_CALLS: nat := 4

  /** The size of a value as JSON text; some values have none. */
  datatype Size = Bytes(n: nat) | Unserializable

  predicate Exceeds(size: Size, limit: nat) {
    size.Unserializable? || size.n > limit
  }

  /** The id and tool patterns stay arbitrary. `callable` says that a tool function is present. */
  datatype Config = Config(
    toolIds: seq<string>,
    callable: bool,
    isInvokeId: string -> bool,
    isToolId: string -> bool
  )

  datatype Message = Failed | Invoke(id: string, toolId: string, payload: Size) | Other

  /** A stale view comes with a reason, perhaps the empty one. */
  datatype Revalidation = Current | Stale(reason: string)

  datatype Settlement = Returned(size: Size, cloneable: bool) | Threw

  /** Arrivals, settlements, timers and outside revocations come in any order. */
  datatype Event =
    | Receive(message: Message, status: Revalidation)
    | Settle(call: nat, settlement: Settlement)
    | TimerFires(call: nat)
    | RevokeCalled(reason: string)

  datatype Code = RevalidationFailed | ToolDenied | PayloadTooLarge | ConcurrencyLimit | TimedOut

  datatype Post = Result(message: nat, id: string, failure: Option<Code>) | Revoked(reason: string)

  /** Messages and calls are numbered by arrival. `pending` are the calls whose tool has not
      settled, `armed` the timers that can still fire, `timedOut` the calls their timer aborted. */
  datatype State = State(
    revoked: bool,
    inFlight: nat,
    timers: set<nat>,
    controllers: seq<nat>,
    inbox: seq<(Message, Revalidation)>,
    pending: set<nat>,
    armed: set<nat>,
    timedOut: set<nat>,
    invoked: seq<nat>,
    posted: seq<Post>
  )

  const START := State(false, 0, {}, [], [], {}, {}, {}, [], [])

  // ---------- one event

  function Reply(s: State, n: nat, id: string, failure: Option<Code>): State {
    if s.revoked then s else s.(posted := s.posted + [Result(n, id, failure)])
  }

  /** A reason that is empty counts as none. */
  function Told(reason: string, otherwise: string): string {
    if reason == "" then otherwise else reason
  }

  function Revoking(s: State, reason: string): State {
    if s.revoked then s
    else s.(revoked := true, timers := {}, armed := {}, controllers := [], posted := s.posted + [Revoked(Told(reason, REVOKED))])
  }

  function Without(calls: seq<nat>, call: nat): seq<nat> {
    if calls == [] then []
    else if calls[0] == call then calls[1..]
    else [calls[0]] + Without(calls[1..], call)
  }

  const REVOKED := "plugin_console_revoked"
  const REVALIDATION_FAILED := "plugin_console_revalidation_failed"
  const GUEST_FAILED := "plugin_console_failed"

  /** The rejection of an invoke message, checked in this order, or None if it is admitted. */
  function Rejection(c: Config, s: State, m: Message, status: Revalidation): Option<Code>
    requires m.Invoke?
  {
    if status.Stale? then Some(RevalidationFailed)
    else if m.toolId !in c.toolIds || !c.isToolId(m.toolId) then Some(ToolDenied)
    else if Exceeds(m.payload, MAX_REQUEST_BYTES) then Some(PayloadTooLarge)
    else if s.inFlight >= MAX_CONCURRENT_CALLS then Some(ConcurrencyLimit)
    else if !c.callable then Some(ToolDenied)
    else None
  }

  function Admit(s: State, n: nat): State {
    s.(inFlight := s.inFlight + 1, controllers := s.controllers + [n], timers := s.timers + {n},
       armed := s.armed + {n}, pending := s.pending + {n}, invoked := s.invoked + [n])
  }

  function OnReceive(c: Config, before: State, m: Message, status: Revalidation): State {
    var n := |before.inbox|;
    var s := before.(inbox := before.inbox + [(m, status)]);
    if m.Failed? then Revoking(s, GUEST_FAILED)
    else if !m.Invoke? || s.revoked || !c.isInvokeId(m.id) then s
    else
      var rejection := Rejection(c, s, m, status);
      if rejection.None? then Admit(s, n)
      else
        var told := Reply(s, n, m.id, rejection);
        if status.Current? then told
        else Revoking(told, Told(status.reason, REVALIDATION_FAILED))
  }

  function FailureOf(s: State, call: nat, settlement: Settlement): Option<Code> {
    match settlement
    case Returned(size, _) => if Exceeds(size, MAX_RESPONSE_BYTES) then Some(PayloadTooLarge) else None
    case Threw => Some(if call in s.timedOut then TimedOut else ToolDenied)
  }

  /** A reply that cannot be cloned is dropped by the port; error replies always can. */
  predicate Deliverable(settlement: Settlement) {
    settlement.Threw? || settlement.cloneable || Exceeds(settlement.size, MAX_RESPONSE_BYTES)
  }

  function IdOf(s: State, n: nat): string {
    if n < |s.inbox| && s.inbox[n].0.Invoke? then s.inbox[n].0.id else ""
  }

  /** The counter is clamped at zero, as the source does. */
  function OnSettle(s: State, call: nat, settlement: Settlement): State {
    if call !in s.pending then s
    else
      var told := if Deliverable(settlement) then Reply(s, call, IdOf(s, call), FailureOf(s, call, settlement)) else s;
      told.(armed := told.armed - {call}, timers := told.timers - {call}, controllers := Without(told.controllers, call),
            pending := told.pending - {call}, inFlight := if told.inFlight == 0 then 0 else told.inFlight - 1)
  }

  function OnTimer(s: State, call: nat): State {
    if call !in s.armed then s else s.(armed := s.armed - {call}, timedOut := s.timedOut + {call})
  }

  function Step(c: Config, s: State, e: Event): State {
    match e
    case Receive(m, status) => OnReceive(c, s, m, status)
    case Settle(call, settlement) => OnSettle(s, call, settlement)
    case TimerFires(call) => OnTimer(s, call)
    case RevokeCalled(reason) => Revoking(s, reason)
  }

  function Run(c: Config, events: seq<Event>): State {
    if events == [] then START else Step(c, Run(c, events[..|events| - 1]), events[|events| - 1])
  }

  // ---------- what holds after every event

  ghost predicate Distinct(calls: seq<nat>) {
    forall i, j :: 0 <= i < j < |calls| ==> calls[i] != calls[j]
  }

  /** A message whose tool call may start: well formed, current, listed and within the limit. */
  predicate Allowed(c: Config, m: Message, status: Revalidation) {
    && m.Invoke? && c.isInvokeId(m.id) && status.Current?
    && m.toolId in c.toolIds && c.isToolId(m.toolId)
    && !Exceeds(m.payload, MAX_REQUEST_BYTES) && c.callable
  }

  /** The message got a reply. */
  ghost predicate Replied(posted: seq<Post>, n: nat) {
    exists i :: 0 <= i < |posted| && posted[i].Result? && posted[i].message == n
  }

  /** The counter is the number of unsettled calls and stays within the bound; controllers and
      timers are exactly those of the unsettled calls until revocation and empty after it. */
  ghost predicate CallsAccounted(s: State) {
    && s.inFlight == |s.pending| <= MAX_CONCURRENT_CALLS
    && Distinct(s.controllers)
    && (!s.revoked ==> (set n | n in s.controllers) == s.pending == s.timers)
    && (s.revoked ==> s.controllers == [] && s.timers == {})
    && s.armed <= s.timers
    && (forall n :: n in s.pending ==> n in s.invoked)
    && forall n :: n in s.invoked ==> n < |s.inbox|
  }

  /** No message has two replies, and a revocation is the last post. */
  ghost predicate Tidy(posted: seq<Post>, revoked: bool) {
    && (forall i, j :: 0 <= i < j < |posted| && posted[i].Result? && posted[j].Result? ==> posted[i].message != posted[j].message)
    && (forall i :: 0 <= i < |posted| && posted[i].Revoked? ==> i == |posted| - 1)
    && (revoked <==> posted != [] && posted[|posted| - 1].Revoked?)
  }

  ghost predicate RepliesOrdered(s: State) {
    && Tidy(s.posted, s.revoked)
    && forall n: nat :: n in s.pending || n >= |s.inbox| ==> !Replied(s.posted, n)
  }

  ghost predicate InvocationsAllowed(c: Config, s: State) {
    && Distinct(s.invoked)
    && forall n :: n in s.invoked ==> n < |s.inbox| && Allowed(c, s.inbox[n].0, s.inbox[n].1)
  }

  ghost predicate Inv(c: Config, s: State) {
    CallsAccounted(s) && RepliesOrdered(s) && InvocationsAllowed(c, s)
  }

  lemma {:induction false} WithoutOne(calls: seq<nat>, call: nat)
    requires Distinct(calls)
    ensures Distinct(Without(calls, call))
    ensures forall n :: n in Without(calls, call) <==> n in calls && n != call
  {
    if calls != [] {
      var rest := calls[1..];
      assert calls == [calls[0]] + rest;
      assert forall i :: 0 <= i < |rest| ==> rest[i] == calls[i + 1];
      assert calls[0] !in rest;
      WithoutOne(rest, call);
    }
  }

  lemma {:induction false} PostResult(posted: seq<Post>, n: nat, id: string, failure: Option<Code>)
    requires Tidy(posted, false) && !Replied(posted, n)
    ensures Tidy(posted + [Result(n, id, failure)], false)
    ensures forall k :: Replied(posted + [Result(n, id, failure)], k) <==> Replied(posted, k) || k == n
  {
    var more := posted + [Result(n, id, failure)];
    forall i | 0 <= i < |posted| && posted[i].Result? ensures posted[i].message != n {
    }
    forall k ensures Replied(more, k) <==> Replied(posted, k) || k == n {
      if i :| 0 <= i < |posted| && posted[i].Result? && posted[i].message == k {
        assert more[i] == posted[i];
      }
      if k == n { assert more[|posted|].message == n; }
    }
  }

  lemma {:induction false} PostRevocation(posted: seq<Post>, reason: string)
    requires Tidy(posted, false)
    ensures Tidy(posted + [Revoked(reason)], true)
    ensures forall k :: Replied(posted + [Revoked(reason)], k) <==> Replied(posted, k)
  {
    var more := posted + [Revoked(reason)];
    forall k ensures Replied(more, k) <==> Replied(posted, k) {
      if i :| 0 <= i < |posted| && posted[i].Result? && posted[i].message == k {
        assert more[i] == posted[i];
      }
    }
  }

  lemma {:induction false} RevokingKeepsInv(c: Config, s: State, reason: string)
    requires Inv(c, s)
    ensures Inv(c, Revoking(s, reason))
  {
    if !s.revoked {
      PostRevocation(s.posted, Told(reason, REVOKED));
    }
  }

  /** A message that is only heard changes nothing but the inbox. */
  lemma {:induction false} HearingKeepsInv(c: Config, s: State, m: Message, status: Revalidation)
    requires Inv(c, s)
    ensures Inv(c, s.(inbox := s.inbox + [(m, status)]))
  {
    var heard := s.(inbox := s.inbox + [(m, status)]);
    assert forall k :: 0 <= k < |s.inbox| ==> heard.inbox[k] == s.inbox[k];
  }

  lemma {:induction false} RejectingKeepsInv(c: Config, s: State, m: Message, status: Revalidation, code: Option<Code>)
    requires Inv(c, s) && !s.revoked
    ensures Inv(c, Reply(s.(inbox := s.inbox + [(m, status)]), |s.inbox|, m.id, code))
    requires m.Invoke?
  {
    HearingKeepsInv(c, s, m, status);
    PostResult(s.posted, |s.inbox|, m.id, code);
    assert forall n :: n in s.pending ==> n < |s.inbox|;
  }

  lemma {:induction false} AdmittingKeepsCalls(s: State)
    requires CallsAccounted(s) && !s.revoked && s.inFlight < MAX_CONCURRENT_CALLS
    ensures forall entry :: CallsAccounted(Admit(s.(inbox := s.inbox + [entry]), |s.inbox|))
  {
    var n := |s.inbox|;
    assert n !in s.invoked && n !in s.pending;
    assert n !in s.controllers by {
      assert n !in set k | k in s.controllers;
    }
    assert (set k | k in s.controllers + [n]) == (set k | k in s.controllers) + {n};
  }

  lemma {:induction false} AdmittingKeepsInvocations(c: Config, s: State, m: Message, status: Revalidation)
    requires InvocationsAllowed(c, s) && Allowed(c, m, status)
    ensures InvocationsAllowed(c, Admit(s.(inbox := s.inbox + [(m, status)]), |s.inbox|))
  {
    var n, t := |s.inbox|, Admit(s.(inbox := s.inbox + [(m, status)]), |s.inbox|);
    assert n !in s.invoked;
    assert forall k :: 0 <= k < n ==> t.inbox[k] == s.inbox[k];
    assert t.inbox[n] == (m, status);
  }

  lemma {:induction false} AdmittingKeepsInv(c: Config, s: State, m: Message, status: Revalidation)
    requires Inv(c, s) && !s.revoked && s.inFlight < MAX_CONCURRENT_CALLS && Allowed(c, m, status)
    ensures Inv(c, Admit(s.(inbox := s.inbox + [(m, status)]), |s.inbox|))
  {
    AdmittingKeepsCalls(s);
    AdmittingKeepsInvocations(c, s, m, status);
    var entry := (m, status);
    var t := Admit(s.(inbox := s.inbox + [entry]), |s.inbox|);
    assert CallsAccounted(t);
    assert RepliesOrdered(t);
  }

  lemma {:induction false} ReceiveKeepsInv(c: Config, s: State, m: Message, status: Revalidation)
    requires Inv(c, s)
    ensures Inv(c, OnReceive(c, s, m, status))
  {
    var heard := s.(inbox := s.inbox + [(m, status)]);
    HearingKeepsInv(c, s, m, status);
    if m.Failed? {
      RevokingKeepsInv(c, heard, GUEST_FAILED);
    } else if m.Invoke? && !s.revoked && c.isInvokeId(m.id) {
      var rejection := Rejection(c, heard, m, status);
      if rejection.None? {
        AdmittingKeepsInv(c, s, m, status);
      } else {
        RejectingKeepsInv(c, s, m, status, rejection);
        var told := Reply(heard, |s.inbox|, m.id, rejection);
        RevokingKeepsInv(c, told, if status.Stale? then Told(status.reason, REVALIDATION_FAILED) else REVALIDATION_FAILED);
      }
    }
  }

  lemma {:induction false} ReleasingKeepsCalls(s: State, call: nat)
    requires CallsAccounted(s) && call in s.pending
    ensures CallsAccounted(s.(armed := s.armed - {call}, timers := s.timers - {call}, controllers := Without(s.controllers, call),
                              pending := s.pending - {call}, inFlight := if s.inFlight == 0 then 0 else s.inFlight - 1))
  {
    WithoutOne(s.controllers, call);
    assert (set n | n in Without(s.controllers, call)) == (set n | n in s.controllers) - {call};
    assert |s.pending - {call}| == |s.pending| - 1;
    assert s.revoked ==> Without(s.controllers, call) == [];
  }

  lemma {:induction false} SettleKeepsInv(c: Config, s: State, call: nat, settlement: Settlement)
    requires Inv(c, s)
    ensures Inv(c, OnSettle(s, call, settlement))
  {
    if call in s.pending {
      if !s.revoked {
        PostResult(s.posted, call, IdOf(s, call), FailureOf(s, call, settlement));
      }
      ReleasingKeepsCalls(s, call);
      var t := OnSettle(s, call, settlement);
      assert CallsAccounted(t);
      assert call < |s.inbox|;
    }
  }

  lemma {:induction false} StepKeepsInv(c: Config, s: State, e: Event)
    requires Inv(c, s)
    ensures Inv(c, Step(c, s, e))
  {
    match e
    case Receive(m, status) => ReceiveKeepsInv(c, s, m, status);
    case Settle(call, settlement) => SettleKeepsInv(c, s, call, settlement);
    case TimerFires(call) =>
    case RevokeCalled(reason) => RevokingKeepsInv(c, s, reason);
  }

  /** Under every interleaving of events the bridge stays accounted for. */
  lemma {:induction false} RunKeepsInv(c: Config, events: seq<Event>)
    ensures Inv(c, Run(c, events))
  {
    if events != [] {
      RunKeepsInv(c, events[..|events| - 1]);
      StepKeepsInv(c, Run(c, events[..|events| - 1]), events[|events| - 1]);
    }
  }

  /** The clamp of the counter never takes effect: a settling call was counted. */
  lemma {:induction false} ClampIsIdle(c: Config, events: seq<Event>, call: nat, settlement: Settlement)
    requires call in Run(c, events).pending
    ensures Run(c, events).inFlight >= 1
    ensures OnSettle(Run(c, events), call, settlement).inFlight == Run(c, events).inFlight - 1
  {
    RunKeepsInv(c, events);
    assert |Run(c, events).pending| >= |{call}| by {
      assert Run(c, events).pending == (Run(c, events).pending - {call}) + {call};
    }
  }

  // ---------- replies over a whole run

  function Continue(c: Config, s: State, events: seq<Event>): State {
    if events == [] then s else Step(c, Continue(c, s, events[..|events| - 1]), events[|events| - 1])
  }

  lemma {:induction false} RunAppend(c: Config, events: seq<Event>, e: Event)
    ensures Run(c, events + [e]) == Step(c, Run(c, events), e)
  {
    var all := events + [e];
    assert all[..|all| - 1] == events && all[|all| - 1] == e;
  }

  lemma {:induction false} RunContinues(c: Config, before: seq<Event>, after: seq<Event>)
    ensures Run(c, before + after) == Continue(c, Run(c, before), after)
  {
    if after != [] {
      var front, last := after[..|after| - 1], after[|after| - 1];
      RunContinues(c, before, front);
      RunAppend(c, before + front, last);
      assert before + after == (before + front) + [last];
    } else {
      assert before + after == before;
    }
  }

  function SettledIn(events: seq<Event>): set<nat> {
    set i | 0 <= i < |events| && events[i].Settle? :: events[i].call
  }

  /** From `s` to `t` nothing was posted and no call started, and exactly the settled calls left. */
  ghost predicate OnlyDrained(s: State, t: State, settled: set<nat>) {
    t.revoked && t.posted == s.posted && t.invoked == s.invoked && t.pending == s.pending - settled
  }

  /** Nothing is posted after the revocation message and no call starts; the unsettled calls
      become fewer by exactly those that settle, and the counter drains with them. */
  lemma {:induction false} SilentAfterRevocation(c: Config, s: State, after: seq<Event>)
    requires Inv(c, s) && s.revoked
    ensures Inv(c, Continue(c, s, after)) && OnlyDrained(s, Continue(c, s, after), SettledIn(after))
    ensures Continue(c, s, after).inFlight == |s.pending - SettledIn(after)|
  {
    if after != [] {
      var front, last := after[..|after| - 1], after[|after| - 1];
      SilentAfterRevocation(c, s, front);
      assert after == front + [last];
      SettledStep(front, last);
      SilentStep(c, s, Continue(c, s, front), SettledIn(front), last);
      StepKeepsInv(c, Continue(c, s, front), last);
    } else {
      assert s.pending - SettledIn(after) == s.pending;
    }
    assert CallsAccounted(Continue(c, s, after));
  }

  lemma {:induction false} SettledStep(front: seq<Event>, last: Event)
    ensures SettledIn(front + [last]) == SettledIn(front) + if last.Settle? then {last.call} else {}
  {
    var all := front + [last];
    assert forall i :: 0 <= i < |front| ==> all[i] == front[i];
    assert all[|front|] == last;
  }

  lemma {:induction false} SilentStep(c: Config, s: State, t: State, settled: set<nat>, e: Event)
    requires OnlyDrained(s, t, settled)
    ensures OnlyDrained(s, Step(c, t, e), settled + if e.Settle? then {e.call} else {})
  {
    match e
    case Receive(m, status) =>
    case Settle(call, settlement) =>
      assert (s.pending - settled) - {call} == s.pending - (settled + {call});
      if call !in t.pending {
        assert s.pending - settled == s.pending - (settled + {call});
      }
    case TimerFires(call) =>
    case RevokeCalled(reason) =>
  }

  /** The events that give message `n` its reply: its own rejection, or the deliverable
      settlement of its call, before revocation. */
  ghost predicate Answers(c: Config, s: State, e: Event, n: nat) {
    && !s.revoked
    && match e
       case Receive(m, status) => n == |s.inbox| && m.Invoke? && c.isInvokeId(m.id) && Rejection(c, s, m, status).Some?
       case Settle(call, settlement) => call == n && n in s.pending && Deliverable(settlement)
       case _ => false
  }

  lemma {:induction false} StepReplies(c: Config, s: State, e: Event, n: nat)
    requires Inv(c, s)
    ensures Replied(Step(c, s, e).posted, n) <==> Replied(s.posted, n) || Answers(c, s, e, n)
  {
    if !s.revoked {
      match e
      case Receive(m, status) => ReceiveReplies(c, s, m, status, n);
      case Settle(call, settlement) =>
        if call in s.pending {
          PostResult(s.posted, call, IdOf(s, call), FailureOf(s, call, settlement));
        }
      case TimerFires(call) =>
      case RevokeCalled(reason) => PostRevocation(s.posted, Told(reason, REVOKED));
    }
  }

  lemma {:induction false} ReceiveReplies(c: Config, s: State, m: Message, status: Revalidation, n: nat)
    requires Inv(c, s) && !s.revoked
    ensures Replied(OnReceive(c, s, m, status).posted, n) <==>
            Replied(s.posted, n) || Answers(c, s, Receive(m, status), n)
  {
    if m.Failed? {
      PostRevocation(s.posted, Told(GUEST_FAILED, REVOKED));
    } else if m.Invoke? && c.isInvokeId(m.id) {
      var heard := s.(inbox := s.inbox + [(m, status)]);
      var rejection := Rejection(c, heard, m, status);
      assert rejection == Rejection(c, s, m, status);
      if rejection.Some? {
        PostResult(s.posted, |s.inbox|, m.id, rejection);
        var reason := if status.Stale? then Told(status.reason, REVALIDATION_FAILED) else REVALIDATION_FAILED;
        PostRevocation(s.posted + [Result(|s.inbox|, m.id, rejection)], Told(reason, REVOKED));
      }
    }
  }

  /** At most one reply to each message in the run; and a message is replied to exactly if some
      event of the run answers it. */
  lemma {:induction false} RepliedExactly(c: Config, events: seq<Event>, n: nat)
    ensures Tidy(Run(c, events).posted, Run(c, events).revoked)
    ensures Replied(Run(c, events).posted, n) <==>
            AnsweredIn(c, events, n)
  {
    RunKeepsInv(c, events);
    if events != [] {
      var front, last := events[..|events| - 1], events[|events| - 1];
      RepliedExactly(c, front, n);
      RunKeepsInv(c, front);
      StepReplies(c, Run(c, front), last, n);
      AnsweredStep(c, front, last, n);
      assert events == front + [last];
    }
  }

  ghost predicate AnsweredIn(c: Config, events: seq<Event>, n: nat) {
    exists k :: 0 <= k < |events| && Answers(c, Run(c, events[..k]), events[k], n)
  }

  lemma {:induction false} AnsweredStep(c: Config, front: seq<Event>, last: Event, n: nat)
    ensures AnsweredIn(c, front + [last], n) <==> AnsweredIn(c, front, n) || Answers(c, Run(c, front), last, n)
  {
    var all := front + [last];
    assert all[..|front|] == front && all[|front|] == last;
    assert forall k :: 0 <= k < |front| ==> all[..k] == front[..k] && all[k] == front[k];
    if k :| 0 <= k < |front| && Answers(c, Run(c, front[..k]), front[k], n) {
      assert Answers(c, Run(c, all[..k]), all[k], n);
    }
  }

  /** The reply of a settled call tells the timeout exactly when its own timer had fired and the
      tool then failed, an oversized result as such, and success otherwise. */
  lemma {:induction false} SettledReply(c: Config, events: seq<Event>, call: nat, settlement: Settlement)
    requires Answers(c, Run(c, events), Settle(call, settlement), call)
    ensures var s := Run(c, events);
            && call < |s.inbox| && Allowed(c, s.inbox[call].0, s.inbox[call].1)
            && Run(c, events + [Settle(call, settlement)]).posted ==
                 s.posted + [Result(call, s.inbox[call].0.id,
                   if settlement.Threw? then Some(if call in s.timedOut then TimedOut else ToolDenied)
                   else if Exceeds(settlement.size, MAX_RESPONSE_BYTES) then Some(PayloadTooLarge) else None)]
  {
    RunKeepsInv(c, events);
    assert (events + [Settle(call, settlement)])[..|events|] == events;
  }

  lemma {:induction false} AdmissionStep(c: Config, s: State, m: Message, status: Revalidation)
    requires CallsAccounted(s) && m.Invoke? && c.isInvokeId(m.id) && !s.revoked
    ensures var t := OnReceive(c, s, m, status);
            && (|s.inbox| in t.invoked <==> Allowed(c, m, status) && |s.pending| < MAX_CONCURRENT_CALLS)
            && (Allowed(c, m, status) && |s.pending| >= MAX_CONCURRENT_CALLS ==>
                  t.posted == s.posted + [Result(|s.inbox|, m.id, Some(ConcurrencyLimit))])
  {
    assert |s.inbox| !in s.invoked;
  }

  /** A call starts exactly for an allowed message that meets fewer than four unsettled calls; a fifth
      allowed one is told so. */
  lemma {:induction false} AdmittedExactly(c: Config, events: seq<Event>, m: Message, status: Revalidation)
    requires m.Invoke? && c.isInvokeId(m.id) && !Run(c, events).revoked
    ensures var s, t := Run(c, events), Run(c, events + [Receive(m, status)]);
            && (|s.inbox| in t.invoked <==> Allowed(c, m, status) && |s.pending| < MAX_CONCURRENT_CALLS)
            && (Allowed(c, m, status) && |s.pending| >= MAX_CONCURRENT_CALLS ==>
                  t.posted == s.posted + [Result(|s.inbox|, m.id, Some(ConcurrencyLimit))])
  {
    RunKeepsInv(c, events);
    RunAppend(c, events, Receive(m, status));
    AdmissionStep(c, Run(c, events), m, status);
  }

  /** The failing side of one reply per call: a call that settles before revocation with a result that the
      port cannot clone gets none. By `RepliedExactly` this is the only way. */
  lemma {:induction false} UncloneableGetsNoReply(c: Config, m: Message, size: Size)
    requires Allowed(c, m, Current) && !Exceeds(size, MAX_RESPONSE_BYTES)
    ensures var s := Run(c, [Receive(m, Current), Settle(0, Returned(size, false))]);
            0 in s.invoked && 0 !in s.pending && !s.revoked && !Replied(s.posted, 0)
  {
    var first, events := [Receive(m, Current)], [Receive(m, Current), Settle(0, Returned(size, false))];
    assert first[..0] == [] && events[..1] == first;
    assert Run(c, first) == Step(c, START, first[0]);
    assert Run(c, events) == Step(c, Run(c, first), events[1]);
  }

  // ---------- the bridge itself

  class HostBridge {
    const config: Config
    var portOpen: bool
    var revoked: bool
    var inFlight: int
    var timers: set<nat>
    var controllers: seq<nat>
    var received: nat
    ghost var inbox: seq<(Message, Revalidation)>
    ghost var pending: set<nat>
    ghost var armed: set<nat>
    var timedOut: set<nat>
    ghost var invoked: seq<nat>
    ghost var posted: seq<Post>
    var ids: map<nat, string>

    ghost function Abstract(): State
      reads this
      requires inFlight >= 0
    {
      State(revoked, inFlight, timers, controllers, inbox, pending, armed, timedOut, invoked, posted)
    }

    ghost predicate Valid()
      reads this
    {
      Ready() && Inv(config, Abstract())
    }

    /** The counters and tables that the handlers read are in step. */
    ghost predicate Ready()
      reads this
    {
      inFlight >= 0 && received == |inbox| && (portOpen <==> !revoked) && Named()
    }

    /** The handler of each unsettled call knows the id of its message. */
    ghost predicate Named()
      reads this
      requires inFlight >= 0
    {
      forall n :: n in pending ==> n in ids && ids[n] == IdOf(Abstract(), n) && n < |inbox|
    }

    constructor (c: Config)
      ensures config == c && Valid() && Abstract() == START
    {
      config := c;
      portOpen, revoked, inFlight, timers, controllers, received := true, false, 0, {}, [], 0;
      inbox, pending, armed, timedOut, invoked, posted, ids := [], {}, {}, {}, [], [], map[];
    }

    method Revoke(reason: string)
      requires Valid()
      modifies this
      ensures Valid() && Abstract() == Step(config, old(Abstract()), RevokeCalled(reason))
    {
      if revoked { return; }
      StepKeepsInv(config, Abstract(), RevokeCalled(reason));
      CloseDown(reason);
    }

    /** Clears timers, aborts controllers, posts the revocation and closes the port. */
    method CloseDown(reason: string)
      requires !revoked && portOpen && inFlight >= 0
      modifies this
      ensures inFlight >= 0 && Abstract() == Revoking(old(Abstract()), reason) && !portOpen
      ensures received == old(received) && ids == old(ids)
    {
      revoked := true;
      armed := armed - timers;
      timers := {};
      armed := {};
      controllers := [];
      posted := posted + [Post.Revoked(Told(reason, REVOKED))];
      portOpen := false;
    }

    method PostReply(n: nat, id: string, failure: Option<Code>)
      requires inFlight >= 0
      modifies this`posted
      ensures Abstract() == Reply(old(Abstract()), n, id, failure)
    {
      if revoked { return; }
      posted := posted + [Result(n, id, failure)];
    }

    method OnMessage(m: Message, status: Revalidation)
      requires Valid()
      modifies this
      ensures Valid() && Abstract() == Step(config, old(Abstract()), Receive(m, status))
    {
      StepKeepsInv(config, Abstract(), Receive(m, status));
      Handle(m, status);
    }

    /** The handler, in the order of its checks. */
    method Handle(m: Message, status: Revalidation)
      requires Ready()
      modifies this
      ensures Ready()
      ensures Abstract() == OnReceive(config, old(Abstract()), m, status)
    {
      var n := received;
      received := received + 1;
      inbox := inbox + [(m, status)];
      if m.Failed? {
        if !revoked { CloseDown(GUEST_FAILED); }
        return;
      }
      if !m.Invoke? || revoked { return; }
      if !config.isInvokeId(m.id) { return; }
      if status.Stale? {
        PostReply(n, m.id, Some(RevalidationFailed));
        CloseDown(Told(status.reason, REVALIDATION_FAILED));
        return;
      }
      if m.toolId !in config.toolIds || !config.isToolId(m.toolId) {
        PostReply(n, m.id, Some(ToolDenied));
        return;
      }
      if Exceeds(m.payload, MAX_REQUEST_BYTES) {
        PostReply(n, m.id, Some(PayloadTooLarge));
        return;
      }
      if inFlight >= MAX_CONCURRENT_CALLS {
        PostReply(n, m.id, Some(ConcurrencyLimit));
        return;
      }
      if !config.callable {
        PostReply(n, m.id, Some(ToolDenied));
        return;
      }
      AdmitCall(n, m.id);
    }

    method AdmitCall(n: nat, id: string)
      requires inFlight >= 0
      modifies this`inFlight, this`controllers, this`timers, this`armed, this`ids, this`pending, this`invoked
      ensures inFlight >= 0 && ids == old(ids)[n := id] && Abstract() == Admit(old(Abstract()), n)
    {
      inFlight := inFlight + 1;
      controllers := controllers + [n];
      timers := timers + {n};
      armed := armed + {n};
      ids := ids[n := id];
      pending := pending + {n};
      invoked := invoked + [n];
    }

    /** A tool call settles: reply, then always release the timer, the controller and the slot. */
    method OnSettled(call: nat, settlement: Settlement)
      requires Valid() && call in pending
      modifies this
      ensures Valid() && Abstract() == Step(config, old(Abstract()), Settle(call, settlement))
    {
      ghost var before := Abstract();
      SettleKeepsInv(config, before, call, settlement);
      Finish(call, settlement);
      assert Abstract() == OnSettle(before, call, settlement);
    }

    method Answer(call: nat, id: string, settlement: Settlement)
      requires inFlight >= 0
      modifies this`posted
      ensures Abstract() == if Deliverable(settlement) then Reply(old(Abstract()), call, id, FailureOf(old(Abstract()), call, settlement))
                            else old(Abstract())
    {
      match settlement {
        case Returned(size, cloneable) =>
          if Exceeds(size, MAX_RESPONSE_BYTES) {
            PostReply(call, id, Some(PayloadTooLarge));
          } else if cloneable {
            PostReply(call, id, None);
          }
        case Threw =>
          PostReply(call, id, Some(if call in timedOut then TimedOut else ToolDenied));
      }
    }

    method Finish(call: nat, settlement: Settlement)
      requires Ready() && call in pending
      modifies this`posted, this`armed, this`timers, this`controllers, this`pending, this`inFlight
      ensures Ready() && Abstract() == OnSettle(old(Abstract()), call, settlement)
    {
      Answer(call, ids[call], settlement);
      armed := armed - {call};
      timers := timers - {call};
      controllers := Without(controllers, call);
      pending := pending - {call};
      inFlight := if inFlight - 1 > 0 then inFlight - 1 else 0;
    }

    method OnTimeout(call: nat)
      requires Valid() && call in armed
      modifies this`armed, this`timedOut
      ensures Valid() && Abstract() == Step(config, old(Abstract()), TimerFires(call))
    {
      armed := armed - {call};
      timedOut := timedOut + {call};
    }
  }
}
