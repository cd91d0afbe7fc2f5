/** What a whole run of the plugin console bridge amounts to, read off its events: when the bridge is
    revoked and what it then says, which calls start, are unsettled or timed out, and what every message is told. */
module ConsoleHistory {
  import opened Wrappers
  import opened ConsoleBridge

  // ---------- revocation

  /** Events that revoke a bridge that is not revoked yet: an outside revocation, a failed guest, and an
      invoke message with a valid id from a view that has become stale. */
  predicate Revokes(c: Config, e: Event) {
    match e
    case RevokeCalled(_) => true
    case Receive(m, status) => m.Failed? || (m.Invoke? && c.isInvokeId(m.id) && status.Stale?)
    case _ => false
  }

  /** The reason that such an event gives. */
  function ReasonOf(e: Event): string {
    match e
    case RevokeCalled(reason) => if reason == "" then "plugin_console_revoked" else reason
    case Receive(m, status) =>
      if m.Failed? then "plugin_console_failed"
      else if status.Stale? && status.reason != "" then status.reason
      else "plugin_console_revalidation_failed"
    case _ => ""
  }

  function Received(events: seq<Event>): nat {
    if events == [] then 0 else Received(events[..|events| - 1]) + if events[|events| - 1].Receive? then 1 else 0
  }

  /** What is posted on revocation: a stale message is first told so itself, and the reason comes last. */
  function Farewell(e: Event, n: nat): seq<Post> {
    (if e.Receive? && e.message.Invoke? then [Result(n, e.message.id, Some(RevalidationFailed))] else []) + [Revoked(ReasonOf(e))]
  }

  lemma {:induction false} InboxCounts(c: Config, events: seq<Event>)
    ensures |Run(c, events).inbox| == Received(events)
  {
    if events != [] {
      InboxCounts(c, events[..|events| - 1]);
    }
  }

  lemma {:induction false} StepRevokes(c: Config, s: State, e: Event)
    requires |REVOKED| > 0 && |GUEST_FAILED| > 0 && |REVALIDATION_FAILED| > 0
    ensures Step(c, s, e).revoked <==> s.revoked || Revokes(c, e)
    ensures !s.revoked && Revokes(c, e) ==> Step(c, s, e).posted == s.posted + Farewell(e, |s.inbox|)
  {
    if e.Receive? && e.message.Invoke? && !s.revoked && Revokes(c, e) {
      var told := Result(|s.inbox|, e.message.id, Some(RevalidationFailed));
      assert s.posted + [told] + [Revoked(ReasonOf(e))] == s.posted + Farewell(e, |s.inbox|);
    }
  }

  ghost predicate SomeRevokes(c: Config, events: seq<Event>) {
    exists k :: 0 <= k < |events| && Revokes(c, events[k])
  }

  lemma {:induction false} SomeStep(c: Config, front: seq<Event>, last: Event)
    ensures SomeRevokes(c, front + [last]) <==> SomeRevokes(c, front) || Revokes(c, last)
  {
    var all := front + [last];
    assert all[|front|] == last && forall k :: 0 <= k < |front| ==> all[k] == front[k];
  }

  /** The bridge is revoked exactly if some event of the run revokes it. */
  lemma {:induction false} RevokedExactly(c: Config, events: seq<Event>)
    ensures Run(c, events).revoked <==> SomeRevokes(c, events)
  {
    if events != [] {
      var front, last := events[..|events| - 1], events[|events| - 1];
      assert events == front + [last];
      RevokedExactly(c, front);
      ReasonsGiven();
      StepRevokes(c, Run(c, front), last);
      SomeStep(c, front, last);
    }
  }

  lemma {:induction false} ReasonsGiven()
    ensures |REVOKED| > 0 && |GUEST_FAILED| > 0 && |REVALIDATION_FAILED| > 0
  {
  }

  /** The first revoking event of a run. */
  ghost predicate FirstRevoker(c: Config, events: seq<Event>, k: nat) {
    k < |events| && Revokes(c, events[k]) && forall i :: 0 <= i < k ==> !Revokes(c, events[i])
  }

  /** The first revoking event has the last word: after what was posted before it comes, for a stale message,
      that message's own result, then the reason, and nothing more to the end of the run. */
  lemma {:induction false} RevokerHasLastWord(c: Config, events: seq<Event>, k: nat)
    requires FirstRevoker(c, events, k)
    ensures Run(c, events).posted == Run(c, events[..k]).posted + Farewell(events[k], Received(events[..k]))
  {
    var s := Run(c, events[..k]);
    RevokedExactly(c, events[..k]);
    InboxCounts(c, events[..k]);
    ReasonsGiven();
    StepRevokes(c, s, events[k]);
    assert events[..k + 1][..k] == events[..k];
    RunKeepsInv(c, events[..k + 1]);
    RunContinues(c, events[..k + 1], events[k + 1..]);
    assert events == events[..k + 1] + events[k + 1..];
    SilentAfterRevocation(c, Run(c, events[..k + 1]), events[k + 1..]);
  }

  // ---------- what every message is told

  /** The message is heard: it asks for a call, with a valid id, of a bridge that is not revoked. */
  predicate Heard(c: Config, s: State, m: Message) {
    m.Invoke? && c.isInvokeId(m.id) && !s.revoked
  }

  predicate Fits(size: Size) { size.Bytes? && size.n <= 1048576 }

  predicate Listed(c: Config, m: Message)
    requires m.Invoke?
  {
    m.toolId in c.toolIds && c.isToolId(m.toolId)
  }

  /** Each check is told by its own code, the first that fails; a message that passes all starts a call and is told
      nothing yet; and what is not heard is not answered. */
  ghost predicate Answered(c: Config, s: State, t: State, m: Message, status: Revalidation) {
    var n := |s.inbox|;
    if !Heard(c, s, m) then t.invoked == s.invoked && (m.Failed? || t.posted == s.posted)
    else
      && (status.Stale? ==> Result(n, m.id, Some(RevalidationFailed)) in t.posted)
      && (status.Current? && !Listed(c, m) ==> t.posted == s.posted + [Result(n, m.id, Some(ToolDenied))])
      && (status.Current? && Listed(c, m) && !Fits(m.payload) ==> t.posted == s.posted + [Result(n, m.id, Some(PayloadTooLarge))])
      && (status.Current? && Listed(c, m) && Fits(m.payload) && |s.pending| >= 4 ==>
            t.posted == s.posted + [Result(n, m.id, Some(ConcurrencyLimit))])
      && (status.Current? && Listed(c, m) && Fits(m.payload) && |s.pending| < 4 && !c.callable ==>
            t.posted == s.posted + [Result(n, m.id, Some(ToolDenied))])
      && (if status.Current? && Listed(c, m) && Fits(m.payload) && |s.pending| < 4 && c.callable
          then t.posted == s.posted && t.invoked == s.invoked + [n] && t.pending == s.pending + {n}
          else t.invoked == s.invoked && t.pending == s.pending)
  }

  lemma {:induction false} MessageAnswered(c: Config, events: seq<Event>, m: Message, status: Revalidation)
    ensures Answered(c, Run(c, events), Run(c, events + [Receive(m, status)]), m, status)
  {
    var s := Run(c, events);
    RunKeepsInv(c, events);
    RunAppend(c, events, Receive(m, status));
    ReceiveAnswers(c, s, m, status);
  }

  lemma {:induction false} ReceiveAnswers(c: Config, s: State, m: Message, status: Revalidation)
    requires CallsAccounted(s)
    ensures Answered(c, s, OnReceive(c, s, m, status), m, status)
  {
    if Heard(c, s, m) && status.Stale? {
      var told, t := Result(|s.inbox|, m.id, Some(RevalidationFailed)), OnReceive(c, s, m, status);
      assert t.posted[|s.posted|] == told;
    }
  }

  /** What an unsettled call's settlement is told, unless the bridge is revoked or the port cannot clone the result. */
  ghost predicate SettlementAnswered(s: State, t: State, call: nat, settlement: Settlement)
    requires call < |s.inbox| && s.inbox[call].0.Invoke?
  {
    var id := s.inbox[call].0.id;
    && (s.revoked ==> t.posted == s.posted)
    && (!s.revoked && settlement.Threw? ==>
          t.posted == s.posted + [Result(call, id, Some(if call in s.timedOut then TimedOut else ToolDenied))])
    && (!s.revoked && settlement.Returned? ==>
          if settlement.size.Unserializable? || settlement.size.n > 8388608 then
            t.posted == s.posted + [Result(call, id, Some(PayloadTooLarge))]
          else t.posted == s.posted + if settlement.cloneable then [Result(call, id, None)] else [])
  }

  lemma {:induction false} SettlementTold(c: Config, events: seq<Event>, call: nat, settlement: Settlement)
    requires call in Run(c, events).pending
    ensures var s, t := Run(c, events), Run(c, events + [Settle(call, settlement)]);
            && call < |s.inbox| && s.inbox[call].0.Invoke? && SettlementAnswered(s, t, call, settlement)
            && t.pending == s.pending - {call} && t.revoked == s.revoked
  {
    RunKeepsInv(c, events);
    RunAppend(c, events, Settle(call, settlement));
    assert call in Run(c, events).invoked;
  }

  // ---------- which calls started, are unsettled, timed out or armed

  /** Message `n`, as it arrived, starts a call. */
  ghost predicate StartsAt(c: Config, events: seq<Event>, k: nat, n: nat)
    requires k < |events|
  {
    var s := Run(c, events[..k]);
    && events[k].Receive? && n == Received(events[..k])
    && Heard(c, s, events[k].message) && events[k].status.Current? && Listed(c, events[k].message)
    && Fits(events[k].message.payload) && |s.pending| < 4 && c.callable
  }

  /** A call that is unsettled in that state settles. */
  ghost predicate SettlesAt(c: Config, events: seq<Event>, k: nat, n: nat)
    requires k < |events|
  {
    events[k].Settle? && events[k].call == n && n in Run(c, events[..k]).invoked
  }

  /** The timer of a call fires while the call is unsettled and the bridge is not revoked. */
  ghost predicate TimesOutAt(c: Config, events: seq<Event>, k: nat, n: nat)
    requires k < |events|
  {
    var s := Run(c, events[..k]);
    events[k].TimerFires? && events[k].call == n && n in s.pending && !s.revoked
  }

  ghost predicate Starts(c: Config, events: seq<Event>, n: nat) {
    exists k: nat :: k < |events| && StartsAt(c, events, k, n)
  }

  ghost predicate Settles(c: Config, events: seq<Event>, n: nat) {
    exists k: nat :: k < |events| && SettlesAt(c, events, k, n)
  }

  ghost predicate TimesOut(c: Config, events: seq<Event>, n: nat) {
    exists k: nat :: k < |events| && TimesOutAt(c, events, k, n)
  }

  lemma {:induction false} EarlierSame(c: Config, front: seq<Event>, last: Event, k: nat, n: nat)
    requires k < |front|
    ensures StartsAt(c, front + [last], k, n) <==> StartsAt(c, front, k, n)
    ensures SettlesAt(c, front + [last], k, n) <==> SettlesAt(c, front, k, n)
    ensures TimesOutAt(c, front + [last], k, n) <==> TimesOutAt(c, front, k, n)
  {
    assert (front + [last])[..k] == front[..k];
  }

  lemma {:induction false} LastStep(c: Config, front: seq<Event>, last: Event, n: nat)
    ensures var all, k := front + [last], |front|;
            && (Starts(c, all, n) <==> Starts(c, front, n) || StartsAt(c, all, k, n))
            && (Settles(c, all, n) <==> Settles(c, front, n) || SettlesAt(c, all, k, n))
            && (TimesOut(c, all, n) <==> TimesOut(c, front, n) || TimesOutAt(c, all, k, n))
  {
    var all := front + [last];
    forall k: nat | k < |front|
      ensures StartsAt(c, all, k, n) <==> StartsAt(c, front, k, n)
      ensures SettlesAt(c, all, k, n) <==> SettlesAt(c, front, k, n)
      ensures TimesOutAt(c, all, k, n) <==> TimesOutAt(c, front, k, n)
    {
      EarlierSame(c, front, last, k, n);
    }
  }

  /** What is known of call `n` in a state, given what happened to it. */
  ghost predicate CallIs(s: State, n: nat, starts: bool, settles: bool, timesOut: bool) {
    && (n in s.invoked <==> starts)
    && (n in s.pending <==> starts && !settles)
    && (n in s.timedOut <==> timesOut)
    && (n in s.armed <==> starts && !settles && !timesOut && !s.revoked)
  }

  lemma {:induction false} CallStep(c: Config, s: State, e: Event, n: nat, starts: bool, settles: bool, timesOut: bool)
    requires CallsAccounted(s) && CallIs(s, n, starts, settles, timesOut)
    requires settles || timesOut ==> starts
    ensures CallIs(Step(c, s, e), n,
                   starts || (e.Receive? && n == |s.inbox| && Heard(c, s, e.message) && e.status.Current? && Listed(c, e.message)
                              && Fits(e.message.payload) && |s.pending| < 4 && c.callable),
                   settles || (e.Settle? && e.call == n && n in s.invoked),
                   timesOut || (e.TimerFires? && e.call == n && n in s.pending && !s.revoked))
  {
  }

  /** Over every run: a call starts exactly with its own message; it is unsettled exactly from then until it
      settles, has timed out exactly if its timer fired meanwhile, and its timer can still fire exactly if it has
      not yet, the call is unsettled and the bridge is not revoked. */
  lemma {:induction false} CallsExactly(c: Config, events: seq<Event>, n: nat)
    ensures CallIs(Run(c, events), n, Starts(c, events, n), Settles(c, events, n), TimesOut(c, events, n))
    ensures Settles(c, events, n) || TimesOut(c, events, n) ==> Starts(c, events, n)
  {
    if events != [] {
      var front, last := events[..|events| - 1], events[|events| - 1];
      assert events == front + [last];
      CallsExactly(c, front, n);
      RunKeepsInv(c, front);
      InboxCounts(c, front);
      LastStep(c, front, last, n);
      CallStep(c, Run(c, front), last, n, Starts(c, front, n), Settles(c, front, n), TimesOut(c, front, n));
    }
  }
}
