/** The session token that tool calls carry: fetched once for all the calls that wait for it, and
    kept fresh by the answers to the calls. Calls, answers and the continuations that wait on one
    fetch come in any order. */
module ConsoleToken {
  import opened Wrappers

  /** What a session fetch brings: a failure or a refusal, or a token, perhaps an empty one. */
  datatype Session = Unavailable | Session(token: string)

  /** `Started` is a call of the tool function; `Answered` the answer to the fetch of that number, `Cleared` the
      end of its promise, `Resumed` the continuation of a call that waited on it, and `Refreshed` the answer to a
      posted call, with the token it carries. */
  datatype Event =
    | Started(call: nat)
    | Answered(fetch: nat, session: Session)
    | Cleared(fetch: nat)
    | Resumed(call: nat)
    | Refreshed(call: nat, token: string)

  datatype Post = Post(call: nat, token: string)

  /** Fetches are numbered from 0. `promise` is the shared promise while there is one; `outcomes` tells of each
      answered fetch whether it brought a token; `waiting` maps each call to the fetch that it waits for. */
  datatype State = State(
    token: string,
    promise: Option<nat>,
    fetches: nat,
    outcomes: map<nat, bool>,
    waiting: map<nat, nat>,
    started: set<nat>,
    failed: set<nat>,
    posted: seq<Post>
  )

  const START := State("", None, 0, map[], map[], {}, {}, [])

  // ---------- one event

  /** A call posts at once if there is a token; else it waits for the fetch, starting one if there is none. */
  function OnStart(s: State, call: nat): State {
    if call in s.started then s
    else
      var known := s.(started := s.started + {call});
      if s.token != "" then known.(posted := s.posted + [Post(call, s.token)])
      else if s.promise.Some? then known.(waiting := s.waiting[call := s.promise.value])
      else known.(promise := Some(s.fetches), fetches := s.fetches + 1, waiting := s.waiting[call := s.fetches])
  }

  /** The answer sets the token, even to an empty one, which then counts as a failure. */
  function OnAnswer(s: State, fetch: nat, session: Session): State {
    if s.promise != Some(fetch) || fetch in s.outcomes then s
    else match session
      case Unavailable => s.(outcomes := s.outcomes[fetch := false])
      case Session(token) => s.(token := token, outcomes := s.outcomes[fetch := token != ""])
  }

  function OnClear(s: State, fetch: nat): State {
    if s.promise == Some(fetch) && fetch in s.outcomes then s.(promise := None) else s
  }

  /** A waiting call goes on once the promise of its fetch has ended: it posts the present token, or fails. */
  function OnResume(s: State, call: nat): State {
    if call !in s.waiting || s.waiting[call] !in s.outcomes || s.promise == Some(s.waiting[call]) then s
    else
      var ready := s.(waiting := s.waiting - {call});
      if s.outcomes[s.waiting[call]] then ready.(posted := s.posted + [Post(call, s.token)])
      else ready.(failed := s.failed + {call})
  }

  function OnRefresh(s: State, call: nat, token: string): State {
    if token != "" && Posted(s.posted, call) then s.(token := token) else s
  }

  predicate Posted(posted: seq<Post>, call: nat) {
    exists i :: 0 <= i < |posted| && posted[i].call == call
  }

  function Step(s: State, e: Event): State {
    match e
    case Started(call) => OnStart(s, call)
    case Answered(fetch, session) => OnAnswer(s, fetch, session)
    case Cleared(fetch) => OnClear(s, fetch)
    case Resumed(call) => OnResume(s, call)
    case Refreshed(call, token) => OnRefresh(s, call, token)
  }

  function Run(events: seq<Event>): State {
    if events == [] then START else Step(Run(events[..|events| - 1]), events[|events| - 1])
  }

  // ---------- what holds after every event

  /** At most the fetch behind the promise is unanswered. */
  ghost predicate SingleFlight(s: State) {
    && (forall f :: f in s.outcomes ==> f < s.fetches)
    && (forall f :: 0 <= f < s.fetches && f !in s.outcomes ==> s.promise == Some(f))
    && (s.promise.Some? ==> s.promise.value + 1 == s.fetches)
  }

  /** A fetch that brought a token was the last one, there is a token from then on and only then, and no call
      was posted before. */
  ghost predicate TokenFits(s: State) {
    && (forall f :: f in s.outcomes && s.outcomes[f] ==> f == s.fetches - 1)
    && (s.token != "" <==> s.fetches > 0 && s.fetches - 1 in s.outcomes && s.outcomes[s.fetches - 1])
    && (s.posted != [] ==> s.token != "")
  }

  ghost predicate PostsCarryTokens(s: State) {
    forall i :: 0 <= i < |s.posted| ==> s.posted[i].token != "" && s.posted[i].call in s.started
  }

  /** Every started call is in exactly one place: waiting, failed, or posted once. */
  ghost predicate CallsAccounted(s: State) {
    && (forall c :: c in s.waiting ==> c in s.started && s.waiting[c] < s.fetches)
    && s.failed <= s.started
    && (forall c :: c in s.started <==> c in s.waiting || c in s.failed || Posted(s.posted, c))
    && (forall c :: c in s.waiting ==> c !in s.failed && !Posted(s.posted, c))
    && (forall c :: c in s.failed ==> !Posted(s.posted, c))
    && forall i, j :: 0 <= i < j < |s.posted| ==> s.posted[i].call != s.posted[j].call
  }

  ghost predicate Inv(s: State) {
    SingleFlight(s) && TokenFits(s) && PostsCarryTokens(s) && CallsAccounted(s)
  }

  lemma {:induction false} PostOne(posted: seq<Post>, post: Post)
    ensures forall c :: Posted(posted + [post], c) <==> Posted(posted, c) || c == post.call
  {
    assert (posted + [post])[|posted|] == post;
    forall c | Posted(posted, c) ensures Posted(posted + [post], c) {
      var i :| 0 <= i < |posted| && posted[i].call == c;
      assert (posted + [post])[i].call == c;
    }
  }

  lemma {:induction false} StartKeepsInv(s: State, call: nat)
    requires Inv(s)
    ensures Inv(OnStart(s, call))
  {
    PostOne(s.posted, Post(call, s.token));
  }

  lemma {:induction false} AnswerKeepsInv(s: State, fetch: nat, session: Session)
    requires Inv(s)
    ensures Inv(OnAnswer(s, fetch, session))
  {
  }

  lemma {:induction false} ClearKeepsInv(s: State, fetch: nat)
    requires Inv(s)
    ensures Inv(OnClear(s, fetch))
  {
  }

  lemma {:induction false} ResumeKeepsInv(s: State, call: nat)
    requires Inv(s)
    ensures Inv(OnResume(s, call))
  {
    PostOne(s.posted, Post(call, s.token));
  }

  lemma {:induction false} RefreshKeepsInv(s: State, call: nat, token: string)
    requires Inv(s)
    ensures Inv(OnRefresh(s, call, token))
  {
    assert Posted(s.posted, call) ==> s.posted != [];
  }

  lemma {:induction false} StepKeepsInv(s: State, e: Event)
    requires Inv(s)
    ensures Inv(Step(s, e))
  {
    match e
    case Started(call) => StartKeepsInv(s, call);
    case Answered(fetch, session) => AnswerKeepsInv(s, fetch, session);
    case Cleared(fetch) => ClearKeepsInv(s, fetch);
    case Resumed(call) => ResumeKeepsInv(s, call);
    case Refreshed(call, token) => RefreshKeepsInv(s, call, token);
  }

  /** In every interleaving, tables and token fit. */
  lemma {:induction false} RunKeepsInv(events: seq<Event>)
    ensures Inv(Run(events))
  {
    if events != [] {
      RunKeepsInv(events[..|events| - 1]);
      StepKeepsInv(Run(events[..|events| - 1]), events[|events| - 1]);
    }
  }

  /** At most one session fetch is in flight at any time; and each but the last brought nothing. */
  lemma {:induction false} OneFetchAtATime(events: seq<Event>, f: nat, g: nat)
    requires var s := Run(events); f < s.fetches && g < s.fetches
    ensures var s := Run(events);
            && (f !in s.outcomes && g !in s.outcomes ==> f == g)
            && (f + 1 < s.fetches ==> f in s.outcomes && !s.outcomes[f])
  {
    RunKeepsInv(events);
  }

  /** No call is ever posted with an empty token, and none twice. */
  lemma {:induction false} NoEmptyToken(events: seq<Event>, i: nat, j: nat)
    requires i < |Run(events).posted| && j < |Run(events).posted|
    ensures Run(events).posted[i].token != ""
    ensures i != j ==> Run(events).posted[i].call != Run(events).posted[j].call
  {
    RunKeepsInv(events);
  }

  function Continue(s: State, events: seq<Event>): State {
    if events == [] then s else Step(Continue(s, events[..|events| - 1]), events[|events| - 1])
  }

  lemma {:induction false} RunContinues(before: seq<Event>, after: seq<Event>)
    ensures Run(before + after) == Continue(Run(before), after)
  {
    if after == [] {
      assert before + after == before;
    } else {
      var last := |after| - 1;
      RunContinues(before, after[..last]);
      assert (before + after)[..|before + after| - 1] == before + after[..last];
    }
  }

  /** Once there is a token there is one for good, and no further session fetch starts. */
  lemma {:induction false} TokenLasts(s: State, after: seq<Event>)
    requires Inv(s) && s.token != ""
    ensures var t := Continue(s, after);
            Inv(t) && t.token != "" && t.fetches == s.fetches
  {
    if after != [] {
      var t := Continue(s, after[..|after| - 1]);
      TokenLasts(s, after[..|after| - 1]);
      StepKeepsInv(t, after[|after| - 1]);
    }
  }

  /** All calls that wait on one fetch share its fate: on going on, each posts the token if it brought one and
      fails if not; a call goes on only once the promise has ended. */
  lemma {:induction false} SharedFate(events: seq<Event>, call: nat)
    requires call in Run(events).waiting
    ensures var s, t := Run(events), Run(events + [Resumed(call)]);
            var fetch := s.waiting[call];
            if fetch in s.outcomes && s.promise != Some(fetch) then
              && (s.outcomes[fetch] ==> t.posted == s.posted + [Post(call, s.token)] && s.token != "")
              && (!s.outcomes[fetch] ==> t.posted == s.posted && call in t.failed)
            else t == s
  {
    RunKeepsInv(events);
    assert (events + [Resumed(call)])[..|events|] == events;
  }

  // ---------- over a whole run: which token, which posts, which fetches

  /** The event provides a token: the answer to the fetch that is under way, or the answer to a posted call that
      carries one. */
  predicate Provides(s: State, e: Event, token: string) {
    match e
    case Answered(fetch, session) => s.promise == Some(fetch) && fetch !in s.outcomes && session == Session(token)
    case Refreshed(call, renewed) => renewed == token != "" && Posted(s.posted, call)
    case _ => false
  }

  /** The event posts a call with that token: a new call that finds it, or one that waited for a fetch that brought a
      token and has ended. */
  predicate Posts(s: State, e: Event, call: nat, token: string) {
    token == s.token &&
    match e
    case Started(c) => c == call && call !in s.started && token != ""
    case Resumed(c) =>
      && c == call && call in s.waiting && s.promise != Some(s.waiting[call])
      && s.waiting[call] in s.outcomes && s.outcomes[s.waiting[call]]
    case _ => false
  }

  /** The event starts a session fetch: a new call that finds neither a token nor a fetch under way. */
  predicate Fetches(s: State, e: Event) {
    e.Started? && e.call !in s.started && s.token == "" && s.promise.None?
  }

  lemma {:induction false} StepTells(s: State, e: Event)
    ensures var t := Step(s, e);
            && (forall token :: Provides(s, e, token) ==> t.token == token)
            && ((forall token :: !Provides(s, e, token)) ==> t.token == s.token)
            && (forall call, token :: Posts(s, e, call, token) ==> t.posted == s.posted + [Post(call, token)])
            && ((forall call, token :: !Posts(s, e, call, token)) ==> t.posted == s.posted)
            && t.fetches == s.fetches + (if Fetches(s, e) then 1 else 0)
            && (Fetches(s, e) ==> t.promise == Some(s.fetches) && e.call in t.waiting && t.waiting[e.call] == s.fetches)
  {
    match e
    case Answered(fetch, session) => assert session.Session? && s.promise == Some(fetch) && fetch !in s.outcomes ==> Provides(s, e, session.token);
    case Refreshed(call, renewed) => assert renewed != "" && Posted(s.posted, call) ==> Provides(s, e, renewed);
    case Started(call) => assert call !in s.started && s.token != "" ==> Posts(s, e, call, s.token);
    case Resumed(call) =>
      assert call in s.waiting && s.promise != Some(s.waiting[call]) && s.waiting[call] in s.outcomes && s.outcomes[s.waiting[call]] ==>
        Posts(s, e, call, s.token);
    case Cleared(fetch) =>
  }

  /** The last event of a run that provides a token, and the token it provides. */
  ghost predicate LastProvided(events: seq<Event>, k: nat, token: string) {
    && k < |events| && Provides(Run(events[..k]), events[k], token)
    && forall i, other :: k < i < |events| ==> !Provides(Run(events[..i]), events[i], other)
  }

  /** The present token is the one that the last event to provide any provided. */
  lemma {:induction false} TokenIsLastProvided(events: seq<Event>, k: nat, token: string)
    requires LastProvided(events, k, token)
    ensures Run(events).token == token
  {
    var last := |events| - 1;
    StepTells(Run(events[..last]), events[last]);
    if k < last {
      forall i | 0 <= i < last ensures events[..last][..i] == events[..i] {
      }
      assert LastProvided(events[..last], k, token);
      TokenIsLastProvided(events[..last], k, token);
    }
  }

  ghost predicate SomePosts(events: seq<Event>, call: nat, token: string) {
    exists k :: 0 <= k < |events| && Posts(Run(events[..k]), events[k], call, token)
  }

  lemma {:induction false} SomePostsStep(front: seq<Event>, last: Event, call: nat, token: string)
    ensures SomePosts(front + [last], call, token) <==> SomePosts(front, call, token) || Posts(Run(front), last, call, token)
  {
    var all := front + [last];
    assert all[..|front|] == front && all[|front|] == last;
    assert forall k :: 0 <= k < |front| ==> all[..k] == front[..k] && all[k] == front[k];
    if SomePosts(front, call, token) {
      var k :| 0 <= k < |front| && Posts(Run(front[..k]), front[k], call, token);
      assert Posts(Run(all[..k]), all[k], call, token);
    }
  }

  /** The posted requests are exactly those that some event of the run posts, each with the token of its moment. */
  lemma {:induction false} PostedExactly(events: seq<Event>, call: nat, token: string)
    ensures Post(call, token) in Run(events).posted <==> SomePosts(events, call, token)
  {
    if events != [] {
      var front, last := events[..|events| - 1], events[|events| - 1];
      assert events == front + [last];
      PostedExactly(front, call, token);
      SomePostsStep(front, last, call, token);
      StepTells(Run(front), last);
      PostsOnce(Run(front), last, call, token);
    }
  }

  lemma {:induction false} PostsOnce(s: State, e: Event, call: nat, token: string)
    ensures Post(call, token) in Step(s, e).posted <==> Post(call, token) in s.posted || Posts(s, e, call, token)
  {
    StepTells(s, e);
    if c, t :| Posts(s, e, c, t) {
      assert Posts(s, e, call, token) ==> c == call && t == token;
    }
  }

  // ---------- the module's own variables

  class TokenSource {
    var token: string
    var promise: Option<nat>
    var fetches: nat
    var outcomes: map<nat, bool>
    var waiting: map<nat, nat>
    ghost var started: set<nat>
    ghost var failed: set<nat>
    ghost var posted: seq<Post>

    ghost function Abstract(): State
      reads this
    {
      State(token, promise, fetches, outcomes, waiting, started, failed, posted)
    }

    constructor ()
      ensures Abstract() == START
    {
      token, promise, fetches, outcomes, waiting := "", None, 0, map[], map[];
      started, failed, posted := {}, {}, [];
    }

    /** A call up to its first await: the token it posts with, or none while it waits. */
    method Invoke(call: nat) returns (now: Option<string>)
      requires call !in started
      modifies this
      ensures Abstract() == Step(old(Abstract()), Started(call))
      ensures now == if old(token) != "" then Some(old(token)) else None
    {
      started := started + {call};
      if token == "" {
        if promise.None? {
          promise := Some(fetches);
          fetches := fetches + 1;
        }
        waiting := waiting[call := promise.value];
        return None;
      }
      posted := posted + [Post(call, token)];
      now := Some(token);
    }

    method OnSession(fetch: nat, session: Session)
      requires promise == Some(fetch) && fetch !in outcomes
      modifies this`token, this`outcomes
      ensures Abstract() == Step(old(Abstract()), Answered(fetch, session))
    {
      if session.Unavailable? {
        outcomes := outcomes[fetch := false];
        return;
      }
      token := session.token;
      outcomes := outcomes[fetch := token != ""];
    }

    /** The promise's last step forgets it. */
    method OnFinally(fetch: nat)
      requires promise == Some(fetch) && fetch in outcomes
      modifies this`promise
      ensures Abstract() == Step(old(Abstract()), Cleared(fetch))
    {
      promise := None;
    }

    /** A waiting call after its await: the token it posts with, or none if it fails. */
    method Resume(call: nat) returns (now: Option<string>)
      requires call in waiting && waiting[call] in outcomes && promise != Some(waiting[call])
      modifies this`waiting, this`failed, this`posted
      ensures Abstract() == Step(old(Abstract()), Resumed(call))
      ensures now == if outcomes[old(waiting)[call]] then Some(token) else None
    {
      var brought := outcomes[waiting[call]];
      waiting := waiting - {call};
      if !brought {
        failed := failed + {call};
        return None;
      }
      posted := posted + [Post(call, token)];
      now := Some(token);
    }

    /** The answer to a posted call may carry a newer token. */
    method OnResult(call: nat, refreshed: string)
      requires Posted(posted, call)
      modifies this`token
      ensures Abstract() == Step(old(Abstract()), Refreshed(call, refreshed))
    {
      if refreshed != "" { token := refreshed; }
    }
  }
}
