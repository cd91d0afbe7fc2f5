/** Promotion between the long-lived branches: nightly is advanced directly, stable from the nightly
    tip and release from the stable tip. Which commit is an ancestor of which stays arbitrary. */
module BranchFlow {
  import opened Wrappers

  datatype Branch = Nightly | Stable | Release | Other(name: string)

  /** What a ref name stands for. */
  function Named(name: string): Branch {
    if name == "nightly" then Nightly
    else if name == "stable" then Stable
    else if name == "release" then Release
    else Other(name)
  }

  function NameOf(branch: Branch): string {
    match branch
    case Nightly => "nightly"
    case Stable => "stable"
    case Release => "release"
    case Other(name) => name
  }

  const RETIRED: set<string> := {"main", "master"}
  const ZERO_OID: string := "0000000000000000000000000000000000000000"

  type Commit = string

  datatype Verdict = Verdict(ok: bool, code: string)

  /** The direct upstream of a branch that has one. */
  function Upstream(branch: Branch): Option<Branch> {
    match branch
    case Stable => Some(Nightly)
    case Release => Some(Stable)
    case _ => None
  }

  // ---------- pull requests

  /** The payload of an event; a missing field reads as the empty string. */
  datatype Payload = Payload(baseRepository: string, headRepository: string, baseRef: string, headRef: string)

  function EvaluateBranchFlow(eventName: string, refName: string, baseRef: string, headRef: string, payload: Payload): Verdict {
    if eventName == "push" then
      if !Named(refName).Other? then Verdict(true, "protected-push-event") else Verdict(false, "unexpected-push-ref")
    else if eventName != "pull_request" && eventName != "pull_request_target" then Verdict(true, "event-not-governed")
    else
      var base := if baseRef != "" then baseRef else payload.baseRef;
      var head := if headRef != "" then headRef else payload.headRef;
      if base in RETIRED then Verdict(false, "retired-base")
      else if Named(base).Other? then Verdict(true, "base-not-governed")
      else if payload.baseRepository == "" || payload.headRepository == "" || payload.baseRepository != payload.headRepository then
        Verdict(false, "cross-repository-promotion")
      else if Named(base).Nightly? then
        if Named(head).Other? && head !in RETIRED && |head| > 0 then Verdict(true, "temporary-to-nightly")
        else Verdict(false, "nightly-source-invalid")
      else if Upstream(Named(base)) == Some(Named(head)) then Verdict(true, head + "-to-" + base)
      else Verdict(false, base + "-source-invalid")
  }

  /** How far along the promotion chain a branch stands. */
  function Stage(branch: Branch): nat {
    match branch
    case Release => 3
    case Stable => 2
    case Nightly => 1
    case Other(_) => 0
  }

  /** A pull request is accepted exactly if its base is not retired and, when its base is long-lived, it
      moves one stage along the chain within one repository and not out of a retired branch. */
  lemma {:induction false} OneStageAtATime(eventName: string, refName: string, baseRef: string, headRef: string, payload: Payload)
    requires eventName == "pull_request" || eventName == "pull_request_target"
    ensures var base, head := (if baseRef != "" then baseRef else payload.baseRef), (if headRef != "" then headRef else payload.headRef);
            EvaluateBranchFlow(eventName, refName, baseRef, headRef, payload).ok <==>
            && base !in RETIRED
            && (!Named(base).Other? ==>
                  && payload.baseRepository == payload.headRepository != ""
                  && head != "" && head !in RETIRED
                  && Stage(Named(base)) == Stage(Named(head)) + 1)
  {
    assert eventName != "push" by { assert "pull_request"[1] == 'u' && "push"[1] == 'u' && "pull_request"[2] != "push"[2]; }
  }

  /** A push event is accepted exactly on the three long-lived branches, and events of other kinds always are. */
  lemma {:induction false} OtherEvents(eventName: string, refName: string, baseRef: string, headRef: string, payload: Payload)
    requires eventName != "pull_request" && eventName != "pull_request_target"
    ensures EvaluateBranchFlow(eventName, refName, baseRef, headRef, payload).ok <==>
            eventName != "push" || refName == "nightly" || refName == "stable" || refName == "release"
  {
  }

  // ---------- pushes

  function VerifyProtectedPushTopology(branch: Branch, before: Commit, after: Commit,
                                       branchTip: Branch -> Commit, ancestor: (Commit, Commit) -> bool): Verdict {
    if branch.Other? then Verdict(false, "protected-branch-invalid")
    else if before == "" || after == "" || before == ZERO_OID || after == ZERO_OID then
      Verdict(false, "protected-branch-bootstrap-forbidden")
    else if !ancestor(before, after) then Verdict(false, "protected-branch-not-fast-forward")
    else if branch.Nightly? then Verdict(true, "direct-nightly-advance")
    else
      var upstream := Upstream(branch).value;
      var tip := branchTip(upstream);
      if tip == "" then Verdict(false, "promotion-source-missing")
      else if after == tip then Verdict(true, NameOf(upstream) + "-fast-forward-advanced-" + NameOf(branch))
      else Verdict(false, "promotion-source-tip-mismatch")
  }

  /** A real commit: neither missing nor the all-zero id that stands for creation and deletion. */
  predicate IsReal(c: Commit) {
    |c| >= 1 && !(|c| == 40 && forall i :: 0 <= i < 40 ==> c[i] == '0')
  }

  lemma {:induction false} ZeroOid(c: Commit)
    ensures IsReal(c) <==> c != "" && c != ZERO_OID
  {
    assert |ZERO_OID| == 40 && forall i :: 0 <= i < 40 ==> ZERO_OID[i] == '0';
    if |c| == 40 && forall i :: 0 <= i < 40 ==> c[i] == '0' { assert c == ZERO_OID; }
  }

  /** The tips of the three branches; a branch that does not resolve has the empty tip. */
  datatype Tips = Tips(nightly: Commit, stable: Commit, release: Commit)

  function Tip(t: Tips, branch: Branch): Commit {
    match branch
    case Nightly => t.nightly
    case Stable => t.stable
    case Release => t.release
    case Other(_) => ""
  }

  function TipOf(t: Tips): Branch -> Commit {
    (branch: Branch) => Tip(t, branch)
  }

  function Advance(t: Tips, branch: Branch, after: Commit): Tips {
    match branch
    case Nightly => t.(nightly := after)
    case Stable => t.(stable := after)
    case Release => t.(release := after)
    case Other(_) => t
  }

  datatype Push = Push(branch: Branch, before: Commit, after: Commit)

  /** The push passes the check against the present tips, whatever tip it says it starts from. */
  predicate Passes(ancestor: (Commit, Commit) -> bool, t: Tips, push: Push) {
    VerifyProtectedPushTopology(push.branch, push.before, push.after, TipOf(t), ancestor).ok
  }

  /** A push that passes moves its branch; any other changes nothing. */
  function Step(ancestor: (Commit, Commit) -> bool, t: Tips, push: Push): Tips {
    if Passes(ancestor, t, push) then Advance(t, push.branch, push.after) else t
  }

  function Run(ancestor: (Commit, Commit) -> bool, t: Tips, pushes: seq<Push>): Tips {
    if pushes == [] then t
    else Step(ancestor, Run(ancestor, t, pushes[..|pushes| - 1]), pushes[|pushes| - 1])
  }

  // ---------- one push

  /** A push passes exactly if it moves nightly, stable or release from one real commit to a descendant of it, stable
      to the present nightly tip and release to the present stable tip. */
  lemma {:induction false} PassesExactly(ancestor: (Commit, Commit) -> bool, t: Tips, push: Push)
    ensures Passes(ancestor, t, push) <==>
            && push.branch in {Nightly, Stable, Release}
            && IsReal(push.before) && IsReal(push.after) && ancestor(push.before, push.after)
            && (push.branch == Stable ==> push.after == t.nightly)
            && (push.branch == Release ==> push.after == t.stable)
  {
    ZeroOid(push.before);
    ZeroOid(push.after);
  }

  /** So the upstream's tip can be promoted from any of its real ancestors. */
  lemma {:induction false} PromotionPasses(ancestor: (Commit, Commit) -> bool, t: Tips, branch: Branch, before: Commit)
    requires Upstream(branch).Some? && IsReal(before) && IsReal(Tip(t, Upstream(branch).value))
    requires ancestor(before, Tip(t, Upstream(branch).value))
    ensures Passes(ancestor, t, Push(branch, before, Tip(t, Upstream(branch).value)))
    ensures Tip(Step(ancestor, t, Push(branch, before, Tip(t, Upstream(branch).value))), branch) == Tip(t, Upstream(branch).value)
  {
    PassesExactly(ancestor, t, Push(branch, before, Tip(t, Upstream(branch).value)));
  }

  /** A push that does not pass is told the first thing that is wrong with it. */
  lemma {:induction false} RefusalTold(ancestor: (Commit, Commit) -> bool, t: Tips, push: Push)
    requires !Passes(ancestor, t, push)
    ensures VerifyProtectedPushTopology(push.branch, push.before, push.after, TipOf(t), ancestor) == Verdict(false,
              if push.branch !in {Nightly, Stable, Release} then "protected-branch-invalid"
              else if !IsReal(push.before) || !IsReal(push.after) then "protected-branch-bootstrap-forbidden"
              else if !ancestor(push.before, push.after) then "protected-branch-not-fast-forward"
              else if Tip(t, if push.branch == Stable then Nightly else Stable) == "" then "promotion-source-missing"
              else "promotion-source-tip-mismatch")
  {
    ZeroOid(push.before);
    ZeroOid(push.after);
  }

  ghost predicate IsAncestry(ancestor: (Commit, Commit) -> bool) {
    && (forall c :: ancestor(c, c))
    && forall a, b, c :: ancestor(a, b) && ancestor(b, c) ==> ancestor(a, c)
  }

  ghost predicate Chain(ancestor: (Commit, Commit) -> bool, t: Tips) {
    ancestor(t.release, t.stable) && ancestor(t.stable, t.nightly)
  }

  /** The tip of `branch` lies on its upstream. */
  ghost predicate Linked(ancestor: (Commit, Commit) -> bool, t: Tips, branch: Branch) {
    match Upstream(branch)
    case Some(upstream) => ancestor(Tip(t, branch), Tip(t, upstream))
    case None => true
  }

  predicate Governed(branch: Branch) {
    !branch.Other?
  }

  /** If the push passes, it moves its branch on from the present tip. */
  ghost predicate Extends(ancestor: (Commit, Commit) -> bool, t: Tips, push: Push) {
    Passes(ancestor, t, push) ==> ancestor(Tip(t, push.branch), push.after)
  }

  lemma {:induction false} StepTip(ancestor: (Commit, Commit) -> bool, t: Tips, push: Push, branch: Branch)
    requires Governed(branch)
    ensures Tip(Step(ancestor, t, push), branch) ==
            if Passes(ancestor, t, push) && push.branch == branch then push.after else Tip(t, branch)
    ensures Passes(ancestor, t, push) ==> Governed(push.branch) && ancestor(push.before, push.after)
    ensures Passes(ancestor, t, push) ==>
            match Upstream(push.branch) case Some(upstream) => push.after == Tip(t, upstream) case None => true
  {
  }

  /** A push that starts from the present tip extends it. */
  lemma {:induction false} PresentTipExtends(ancestor: (Commit, Commit) -> bool, t: Tips, push: Push)
    requires push.before == Tip(t, push.branch)
    ensures Extends(ancestor, t, push)
  {
    if Passes(ancestor, t, push) { StepTip(ancestor, t, push, Nightly); }
  }

  /** A push that passes keeps the chain exactly if it is a promotion, or its commit holds the stable tip. */
  lemma {:induction false} PushKeepsChainExactly(ancestor: (Commit, Commit) -> bool, t: Tips, push: Push)
    requires IsAncestry(ancestor) && Chain(ancestor, t) && Passes(ancestor, t, push)
    ensures Chain(ancestor, Step(ancestor, t, push)) <==> push.branch != Nightly || ancestor(t.stable, push.after)
  {
    StepTip(ancestor, t, push, push.branch);
  }

  /** On a chain, a push that passes moves its branch forward exactly if it is a promotion, or its commit
      holds the present nightly tip. */
  lemma {:induction false} PushAdvancesExactly(ancestor: (Commit, Commit) -> bool, t: Tips, push: Push)
    requires IsAncestry(ancestor) && Chain(ancestor, t) && Passes(ancestor, t, push)
    ensures ancestor(Tip(t, push.branch), push.after) <==> push.branch != Nightly || ancestor(t.nightly, push.after)
  {
    StepTip(ancestor, t, push, push.branch);
  }

  /** The failing side: a nightly push from an older tip that passes, takes the branch back and breaks the
      chain. Here commits are histories and an ancestor is a prefix. */
  lemma {:induction false} StaleNightlyBreaksChain()
    ensures var t, push, prefix := Tips("ab", "ab", "ab"), Push(Nightly, "a", "ac"), ((a: Commit, b: Commit) => a <= b);
            && IsAncestry(prefix) && Chain(prefix, t) && Passes(prefix, t, push)
            && !Chain(prefix, Step(prefix, t, push)) && !prefix(t.nightly, Step(prefix, t, push).nightly)
  {
    assert "ab"[1] != "ac"[1];
    assert |ZERO_OID| == 40;
  }

  // ---------- every run

  lemma {:induction false} RunSplits(ancestor: (Commit, Commit) -> bool, t: Tips, pushes: seq<Push>, k: nat)
    requires k < |pushes|
    ensures Run(ancestor, t, pushes[..k + 1]) == Step(ancestor, Run(ancestor, t, pushes[..k]), pushes[k])
  {
    assert pushes[..k + 1][..k] == pushes[..k];
  }

  /** The tips right before the `k`-th push of a run. */
  function Before(ancestor: (Commit, Commit) -> bool, t: Tips, pushes: seq<Push>, k: nat): Tips
    requires k <= |pushes|
  {
    Run(ancestor, t, pushes[..k])
  }

  /** The `k`-th push of the run passes and goes to `branch`. */
  predicate Lands(ancestor: (Commit, Commit) -> bool, t: Tips, pushes: seq<Push>, k: nat, branch: Branch)
    requires k < |pushes|
  {
    Passes(ancestor, Before(ancestor, t, pushes, k), pushes[k]) && pushes[k].branch == branch
  }

  /** Every push to `branch` in the run extends the tip it finds. */
  ghost predicate AlwaysExtends(ancestor: (Commit, Commit) -> bool, t: Tips, pushes: seq<Push>, branch: Branch) {
    forall k :: 0 <= k < |pushes| && Lands(ancestor, t, pushes, k, branch) ==>
      ancestor(Tip(Before(ancestor, t, pushes, k), branch), pushes[k].after)
  }

  /** Every nightly push in the run holds the stable tip it finds. */
  ghost predicate NightlyHoldsStable(ancestor: (Commit, Commit) -> bool, t: Tips, pushes: seq<Push>) {
    forall k :: 0 <= k < |pushes| && Lands(ancestor, t, pushes, k, Nightly) ==>
      ancestor(Before(ancestor, t, pushes, k).stable, pushes[k].after)
  }

  /** A branch advances between any two points of a run in which every push to it extends it. */
  lemma {:induction false} TipsOnlyAdvance(ancestor: (Commit, Commit) -> bool, t: Tips, pushes: seq<Push>, i: nat, j: nat, branch: Branch)
    requires IsAncestry(ancestor) && Governed(branch) && AlwaysExtends(ancestor, t, pushes, branch) && i <= j <= |pushes|
    ensures ancestor(Tip(Before(ancestor, t, pushes, i), branch), Tip(Before(ancestor, t, pushes, j), branch))
    decreases j
  {
    if i < j {
      TipsOnlyAdvance(ancestor, t, pushes, i, j - 1, branch);
      RunSplits(ancestor, t, pushes, j - 1);
      StepTip(ancestor, Before(ancestor, t, pushes, j - 1), pushes[j - 1], branch);
      assert Lands(ancestor, t, pushes, j - 1, branch) ==>
        ancestor(Tip(Before(ancestor, t, pushes, j - 1), branch), pushes[j - 1].after);
    }
  }

  /** Over every run from a chain, the chain holds at every point exactly if it held at the start and every
      nightly push holds the stable tip it finds. Promotions need no condition on where they start. */
  lemma {:induction false} RunKeepsChain(ancestor: (Commit, Commit) -> bool, t: Tips, pushes: seq<Push>)
    requires IsAncestry(ancestor)
    ensures (forall n :: 0 <= n <= |pushes| ==> Chain(ancestor, Before(ancestor, t, pushes, n))) <==>
            Chain(ancestor, t) && NightlyHoldsStable(ancestor, t, pushes)
  {
    assert pushes[..0] == [];
    assert Before(ancestor, t, pushes, 0) == t;
    if Chain(ancestor, t) && NightlyHoldsStable(ancestor, t, pushes) {
      forall n | 0 <= n <= |pushes| ensures Chain(ancestor, Before(ancestor, t, pushes, n)) {
        ChainUpTo(ancestor, t, pushes, n);
      }
    }
    if forall n :: 0 <= n <= |pushes| ==> Chain(ancestor, Before(ancestor, t, pushes, n)) {
      forall k | 0 <= k < |pushes| && Lands(ancestor, t, pushes, k, Nightly)
        ensures ancestor(Before(ancestor, t, pushes, k).stable, pushes[k].after)
      {
        RunSplits(ancestor, t, pushes, k);
        assert Chain(ancestor, Before(ancestor, t, pushes, k)) && Chain(ancestor, Before(ancestor, t, pushes, k + 1));
        PushKeepsChainExactly(ancestor, Before(ancestor, t, pushes, k), pushes[k]);
      }
    }
  }

  lemma {:induction false} ChainUpTo(ancestor: (Commit, Commit) -> bool, t: Tips, pushes: seq<Push>, n: nat)
    requires IsAncestry(ancestor) && Chain(ancestor, t) && n <= |pushes|
    requires NightlyHoldsStable(ancestor, t, pushes) || AlwaysExtends(ancestor, t, pushes, Nightly)
    ensures Chain(ancestor, Before(ancestor, t, pushes, n))
  {
    if n == 0 {
      assert pushes[..0] == [];
    } else {
      ChainUpTo(ancestor, t, pushes, n - 1);
      RunSplits(ancestor, t, pushes, n - 1);
      var before := Before(ancestor, t, pushes, n - 1);
      if Passes(ancestor, before, pushes[n - 1]) {
        if pushes[n - 1].branch == Nightly { assert Lands(ancestor, t, pushes, n - 1, Nightly); }
        PushKeepsChainExactly(ancestor, before, pushes[n - 1]);
      }
    }
  }

  /** From a chain, nightly pushes that extend their tip are all it takes for every branch to extend its own. */
  lemma {:induction false} NightlyDecides(ancestor: (Commit, Commit) -> bool, t: Tips, pushes: seq<Push>)
    requires IsAncestry(ancestor) && Chain(ancestor, t) && AlwaysExtends(ancestor, t, pushes, Nightly)
    ensures NightlyHoldsStable(ancestor, t, pushes)
    ensures forall branch :: Governed(branch) ==> AlwaysExtends(ancestor, t, pushes, branch)
  {
    forall n | 0 <= n <= |pushes| ensures Chain(ancestor, Before(ancestor, t, pushes, n)) {
      ChainUpTo(ancestor, t, pushes, n);
    }
    RunKeepsChain(ancestor, t, pushes);
    forall branch, k | Governed(branch) && 0 <= k < |pushes| && Lands(ancestor, t, pushes, k, branch)
      ensures ancestor(Tip(Before(ancestor, t, pushes, k), branch), pushes[k].after)
    {
      assert Chain(ancestor, Before(ancestor, t, pushes, k));
      PushAdvancesExactly(ancestor, Before(ancestor, t, pushes, k), pushes[k]);
    }
  }

  /** From a chain, between any two points of a run every tip advances, if only nightly pushes extend theirs. */
  lemma {:induction false} ChainOnlyAdvances(ancestor: (Commit, Commit) -> bool, t: Tips, pushes: seq<Push>, i: nat, j: nat, branch: Branch)
    requires IsAncestry(ancestor) && Chain(ancestor, t) && AlwaysExtends(ancestor, t, pushes, Nightly)
    requires Governed(branch) && i <= j <= |pushes|
    ensures ancestor(Tip(Before(ancestor, t, pushes, i), branch), Tip(Before(ancestor, t, pushes, j), branch))
    ensures Chain(ancestor, Before(ancestor, t, pushes, j))
  {
    NightlyDecides(ancestor, t, pushes);
    TipsOnlyAdvance(ancestor, t, pushes, i, j, branch);
    ChainUpTo(ancestor, t, pushes, j);
  }

  /** A link holds after a push if it held before, or the push promoted the branch; and a push to the upstream extends it. */
  lemma {:induction false} LinkStep(ancestor: (Commit, Commit) -> bool, t: Tips, push: Push, branch: Branch)
    requires IsAncestry(ancestor) && Governed(branch)
    requires Linked(ancestor, t, branch) || (Passes(ancestor, t, push) && push.branch == branch)
    requires Upstream(branch) == Some(push.branch) ==> Extends(ancestor, t, push)
    ensures Linked(ancestor, Step(ancestor, t, push), branch)
  {
    StepTip(ancestor, t, push, branch);
    if Upstream(branch).Some? { StepTip(ancestor, t, push, Upstream(branch).value); }
  }

  lemma {:induction false} ExtendsAt(ancestor: (Commit, Commit) -> bool, t: Tips, pushes: seq<Push>, k: nat, branch: Branch)
    requires k < |pushes| && AlwaysExtends(ancestor, t, pushes, branch) && pushes[k].branch == branch
    ensures Extends(ancestor, Before(ancestor, t, pushes, k), pushes[k])
  {
    assert Lands(ancestor, t, pushes, k, branch) <==> Passes(ancestor, Before(ancestor, t, pushes, k), pushes[k]);
  }

  /** The `m`-th push keeps the link of a branch, or makes it. */
  ghost predicate KeepsLink(ancestor: (Commit, Commit) -> bool, t: Tips, pushes: seq<Push>, m: nat, branch: Branch)
    requires m < |pushes|
  {
    Linked(ancestor, Before(ancestor, t, pushes, m), branch) || Lands(ancestor, t, pushes, m, branch) ==>
      Linked(ancestor, Before(ancestor, t, pushes, m + 1), branch)
  }

  lemma {:induction false} KeepsLinkAt(ancestor: (Commit, Commit) -> bool, t: Tips, pushes: seq<Push>, m: nat, branch: Branch)
    requires IsAncestry(ancestor) && Governed(branch) && m < |pushes|
    requires Upstream(branch) == Some(pushes[m].branch) ==> Extends(ancestor, Before(ancestor, t, pushes, m), pushes[m])
    ensures KeepsLink(ancestor, t, pushes, m, branch)
  {
    var before := Before(ancestor, t, pushes, m);
    RunSplits(ancestor, t, pushes, m);
    if Linked(ancestor, before, branch) || (Passes(ancestor, before, pushes[m]) && pushes[m].branch == branch) {
      LinkStep(ancestor, before, pushes[m], branch);
    }
  }

  lemma {:induction false} LinkCarries(ancestor: (Commit, Commit) -> bool, t: Tips, pushes: seq<Push>, k: nat, n: nat, branch: Branch)
    requires k <= n <= |pushes| && forall m :: k <= m < n ==> KeepsLink(ancestor, t, pushes, m, branch)
    requires Linked(ancestor, Before(ancestor, t, pushes, k), branch) || (k < n && Lands(ancestor, t, pushes, k, branch))
    ensures Linked(ancestor, Before(ancestor, t, pushes, n), branch)
    decreases n
  {
    if k < n {
      if k < n - 1 { LinkCarries(ancestor, t, pushes, k, n - 1, branch); }
      assert KeepsLink(ancestor, t, pushes, n - 1, branch);
    }
  }

  /** Without any chain at the start: a link that held at some point, or that a promotion made there, holds
      from then on, as long as every push to the upstream extends it. */
  lemma {:induction false} LinkLasts(ancestor: (Commit, Commit) -> bool, t: Tips, pushes: seq<Push>, k: nat, n: nat, branch: Branch)
    requires IsAncestry(ancestor) && Governed(branch) && k <= n <= |pushes|
    requires Upstream(branch).Some? ==> AlwaysExtends(ancestor, t, pushes, Upstream(branch).value)
    requires Linked(ancestor, Before(ancestor, t, pushes, k), branch)
             || (k < n && Lands(ancestor, t, pushes, k, branch))
    ensures Linked(ancestor, Before(ancestor, t, pushes, n), branch)
  {
    forall m | k <= m < n ensures KeepsLink(ancestor, t, pushes, m, branch) {
      if Upstream(branch) == Some(pushes[m].branch) { ExtendsAt(ancestor, t, pushes, m, pushes[m].branch); }
      KeepsLinkAt(ancestor, t, pushes, m, branch);
    }
    LinkCarries(ancestor, t, pushes, k, n, branch);
  }

  /** Whatever the start, one promotion to stable and one to release set the chain up for good, if pushes to
      nightly and stable extend their tips. */
  lemma {:induction false} PromotionsEstablishChain(ancestor: (Commit, Commit) -> bool, t: Tips, pushes: seq<Push>, i: nat, j: nat, n: nat)
    requires IsAncestry(ancestor) && i < n <= |pushes| && j < n
    requires AlwaysExtends(ancestor, t, pushes, Nightly) && AlwaysExtends(ancestor, t, pushes, Stable)
    requires Lands(ancestor, t, pushes, i, Stable) && Lands(ancestor, t, pushes, j, Release)
    ensures Chain(ancestor, Before(ancestor, t, pushes, n))
  {
    LinkLasts(ancestor, t, pushes, i, n, Stable);
    LinkLasts(ancestor, t, pushes, j, n, Release);
  }

  /** A stable tip that lies on nightly is extended by every promotion to stable. */
  lemma {:induction false} StableExtends(ancestor: (Commit, Commit) -> bool, t: Tips, push: Push)
    requires Linked(ancestor, t, Stable)
    ensures push.branch == Stable ==> Extends(ancestor, t, push)
  {
    StepTip(ancestor, t, push, Stable);
  }

  /** In that order, stable pushes need not extend anything: whatever the start, a promotion to stable and a
      later one to release set the chain up for good. */
  lemma {:induction false} PromotionsInOrderEstablishChain(ancestor: (Commit, Commit) -> bool, t: Tips, pushes: seq<Push>,
                                                           i: nat, j: nat, n: nat)
    requires IsAncestry(ancestor) && i < j < n <= |pushes| && AlwaysExtends(ancestor, t, pushes, Nightly)
    requires Lands(ancestor, t, pushes, i, Stable) && Lands(ancestor, t, pushes, j, Release)
    ensures Chain(ancestor, Before(ancestor, t, pushes, n))
  {
    LinkLasts(ancestor, t, pushes, i, n, Stable);
    forall m | j <= m < n ensures KeepsLink(ancestor, t, pushes, m, Release) {
      LinkLasts(ancestor, t, pushes, i, m, Stable);
      StableExtends(ancestor, Before(ancestor, t, pushes, m), pushes[m]);
      KeepsLinkAt(ancestor, t, pushes, m, Release);
    }
    LinkCarries(ancestor, t, pushes, j, n, Release);
  }

  // ---------- where a tip comes from

  /** A commit was the tip of a branch at some point of the run up to `n`. */
  ghost predicate WasTip(ancestor: (Commit, Commit) -> bool, t: Tips, pushes: seq<Push>, n: nat, branch: Branch, c: Commit)
    requires n <= |pushes|
  {
    exists k :: 0 <= k <= n && Tip(Before(ancestor, t, pushes, k), branch) == c
  }

  /** One push more: a push that lands on the branch gives it the upstream's tip, any other leaves it. */
  lemma {:induction false} TipAfter(ancestor: (Commit, Commit) -> bool, t: Tips, pushes: seq<Push>, n: nat, branch: Branch)
    requires n < |pushes| && Upstream(branch).Some?
    ensures Tip(Before(ancestor, t, pushes, n + 1), branch) ==
            Tip(Before(ancestor, t, pushes, n), if Lands(ancestor, t, pushes, n, branch) then Upstream(branch).value else branch)
  {
    RunSplits(ancestor, t, pushes, n);
    StepTip(ancestor, Before(ancestor, t, pushes, n), pushes[n], branch);
  }

  /** A tip that differs from the one at the start was the upstream's tip at the moment of its promotion. */
  lemma {:induction false} PromotedFromUpstream(ancestor: (Commit, Commit) -> bool, t: Tips, pushes: seq<Push>, n: nat, branch: Branch)
    returns (k: nat)
    requires n <= |pushes| && Upstream(branch).Some?
    requires Tip(Before(ancestor, t, pushes, n), branch) != Tip(t, branch)
    ensures k < n && Lands(ancestor, t, pushes, k, branch)
    ensures Tip(Before(ancestor, t, pushes, k), Upstream(branch).value) == Tip(Before(ancestor, t, pushes, n), branch)
  {
    assert n > 0 by { assert pushes[..0] == []; }
    TipAfter(ancestor, t, pushes, n - 1, branch);
    if Lands(ancestor, t, pushes, n - 1, branch) {
      k := n - 1;
    } else {
      k := PromotedFromUpstream(ancestor, t, pushes, n - 1, branch);
    }
  }

  /** Every release tip is the first one, the first stable tip, or a commit that was the nightly tip earlier
      in the run; wherever the pushes say they start. */
  lemma {:induction false} ReleaseWasNightly(ancestor: (Commit, Commit) -> bool, t: Tips, pushes: seq<Push>)
    ensures var c := Run(ancestor, t, pushes).release;
            c == t.release || c == t.stable || WasTip(ancestor, t, pushes, |pushes|, Nightly, c)
  {
    assert pushes[..|pushes|] == pushes;
    var c := Run(ancestor, t, pushes).release;
    if c != t.release {
      var k := PromotedFromUpstream(ancestor, t, pushes, |pushes|, Release);
      if c != t.stable {
        var j := PromotedFromUpstream(ancestor, t, pushes, k, Stable);
        assert Tip(Before(ancestor, t, pushes, j), Nightly) == c;
      }
    }
  }
}
