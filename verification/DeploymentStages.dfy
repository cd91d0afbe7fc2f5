/** Bringing up a local offline instance stage by stage, with the completed stages kept in a file so
    that a run that stops anywhere can be resumed. Effects that may fail, and the validity of caches
    and images, are decided by an arbitrary world. */
module DeploymentStages {
  import opened Wrappers

  datatype Stage =
    | Candidate | Images | Bundle | Transfer | Import | Activate | GovernedOperation | Verify
    | Other(name: string)

  const STAGES: seq<Stage> := [Candidate, Images, Bundle, Transfer, Import, Activate, GovernedOperation, Verify]

  /** The state file of one candidate. */
  datatype StateFile = Unreadable | StateFile(schemaVersion: int, sourceRevision: string, completed: Option<seq<Stage>>)

  datatype Step =
    | Prepare | Custody | ClearCaches | Materials | Produce | WriteTrust | ClearTarget | TransferExactly
    | RunImport | RunStart | RunGovernedCall | Healthy | RightCandidate
    | Record(stage: Stage)

  datatype Selection = PortConflict | Reuse | Fresh(replace: bool)

  /** Everything a run finds: which steps succeed, and what is already there and valid. */
  datatype World = World(selection: Selection, succeeds: Step -> bool, bundleCached: bool, targetCached: bool, imageReady: bool)

  datatype Reported = Reported(stage: Stage, resumed: bool)

  datatype Outcome = Failed | Done(reused: bool, replaced: bool, report: seq<Reported>)

  // ---------- what a run does to the file

  /** The completed stages that a file holds for a candidate; anything unexpected counts as none. */
  function ReadStages(files: map<string, StateFile>, revision: string): seq<Stage> {
    if revision in files && files[revision].StateFile? && files[revision].schemaVersion == 1
       && files[revision].sourceRevision == revision && files[revision].completed.Some?
    then files[revision].completed.value
    else []
  }

  /** Stages are read exactly from a file of the right schema for that very candidate, and from nothing else. */
  lemma {:induction false} ReadExactly(files: map<string, StateFile>, revision: string, completed: seq<Stage>)
    requires completed != []
    ensures ReadStages(files, revision) == completed <==>
            revision in files && files[revision] == StateFile(1, revision, Some(completed))
  {
  }

  /** Whether the stage at this place is reported as found rather than done again. */
  predicate Resumed(w: World, before: seq<Stage>, place: nat) {
    match place
    case 0 => Candidate in before
    case 1 => w.bundleCached
    case 2 => w.bundleCached
    case 3 => w.targetCached
    case 4 => w.imageReady
    case _ => false
  }

  /** The first place of a stage in a list, or -1. */
  function IndexOf(xs: seq<Stage>, x: Stage): (k: int)
    ensures -1 <= k < |xs| && (k < 0 <==> x !in xs)
    ensures k >= 0 ==> xs[k] == x && x !in xs[..k]
  {
    if xs == [] then -1
    else
      var front, last := xs[..|xs| - 1], xs[|xs| - 1];
      assert xs == front + [last];
      var k := IndexOf(front, x);
      assert k >= 0 ==> xs[..k] == front[..k];
      assert xs[..|xs| - 1] == front;
      if k >= 0 then k else if last == x then |xs| - 1 else -1
  }

  function Add(xs: seq<Stage>, x: Stage): seq<Stage> {
    if x in xs then xs else xs + [x]
  }

  /** The list up to a stage, without it. */
  function CutAt(xs: seq<Stage>, x: Stage): seq<Stage> {
    if IndexOf(xs, x) < 0 then xs else xs[..IndexOf(xs, x)]
  }

  /** What is left of the list when the stage at this place is about to be done: rebuilding the bundle
      forgets all but the candidate, transferring or importing again forgets that stage and what follows. */
  function Forgotten(w: World, xs: seq<Stage>, place: nat): seq<Stage> {
    if place == 1 && !w.bundleCached then [Candidate]
    else if place == 3 && !w.targetCached then CutAt(xs, Transfer)
    else if place == 4 && !w.imageReady then CutAt(xs, Import)
    else xs
  }

  /** What the file lists after a run that recorded `k` stages, if it listed `before`, whatever that was. */
  function Listed(w: World, before: seq<Stage>, k: nat): seq<Stage>
    requires k <= |STAGES|
  {
    if k == 0 then before else Add(Forgotten(w, Listed(w, before, k - 1), k - 1), STAGES[k - 1])
  }

  /** The report of a run that recorded `k` stages: the first `k` in order. */
  ghost predicate ReportOf(w: World, before: seq<Stage>, report: seq<Reported>, k: nat) {
    && |report| == k <= |STAGES|
    && forall i :: 0 <= i < k ==> report[i] == Reported(STAGES[i], Resumed(w, before, i))
  }

  /** The files after a run for `revision` that recorded `k` stages. */
  ghost predicate FilesAfter(start: map<string, StateFile>, revision: string, w: World, k: nat, files: map<string, StateFile>)
    requires k <= |STAGES|
  {
    files == if k == 0 then start
             else start[revision := StateFile(1, revision, Some(Listed(w, ReadStages(start, revision), k)))]
  }

  /** The steps that a run has to take. */
  predicate Needs(w: World, step: Step) {
    match step
    case ClearCaches => !w.bundleCached
    case Materials => !w.bundleCached
    case Produce => !w.bundleCached
    case WriteTrust => !w.bundleCached
    case ClearTarget => !w.targetCached
    case TransferExactly => !w.targetCached
    case RunImport => !w.imageReady
    case Record(stage) => stage in STAGES
    case _ => true
  }

  ghost predicate AllSucceed(w: World) {
    forall step :: Needs(w, step) ==> w.succeeds(step)
  }

  lemma {:induction false} StagesDiffer(i: nat, j: nat)
    requires i < |STAGES| && j < |STAGES| && STAGES[i] == STAGES[j]
    ensures i == j
  {
  }

  lemma {:induction false} PrefixHolds(n: nat, k: nat)
    requires n <= |STAGES| && k < |STAGES|
    ensures STAGES[k] in STAGES[..n] <==> k < n
  {
    if STAGES[k] in STAGES[..n] {
      var i :| 0 <= i < n && STAGES[..n][i] == STAGES[k];
      StagesDiffer(i, k);
    }
    if k < n { assert STAGES[..n][k] == STAGES[k]; }
  }

  /** The work of the stage at this place, in order; what is valid from before is not done again. */
  function WorkOf(w: World, place: nat): seq<Step> {
    match place
    case 1 => if w.bundleCached then [Custody] else [Custody, ClearCaches, Materials]
    case 2 => if w.bundleCached then [] else [Produce, WriteTrust]
    case 3 => if w.targetCached then [] else [ClearTarget, TransferExactly]
    case 4 => if w.imageReady then [] else [RunImport]
    case 5 => [RunStart]
    case 6 => [RunGovernedCall]
    case 7 => [Healthy, RightCandidate]
    case _ => []
  }

  /** All of that work succeeds. */
  predicate WorkSucceeds(w: World, place: nat) {
    match place
    case 1 => w.succeeds(Custody) && (w.bundleCached || (w.succeeds(ClearCaches) && w.succeeds(Materials)))
    case 2 => w.bundleCached || (w.succeeds(Produce) && w.succeeds(WriteTrust))
    case 3 => w.targetCached || (w.succeeds(ClearTarget) && w.succeeds(TransferExactly))
    case 4 => w.imageReady || w.succeeds(RunImport)
    case 5 => w.succeeds(RunStart)
    case 6 => w.succeeds(RunGovernedCall)
    case 7 => w.succeeds(Healthy) && w.succeeds(RightCandidate)
    case _ => true
  }

  lemma {:induction false} WorkListed(w: World, place: nat)
    ensures WorkSucceeds(w, place) <==> forall step :: step in WorkOf(w, place) ==> w.succeeds(step)
  {
    var work := WorkOf(w, place);
    if |work| > 0 { assert work[0] in work; }
    if |work| > 1 { assert work[1] in work; }
    if |work| > 2 { assert work[2] in work; }
  }

  /** The stage's work succeeds, and so does recording it. */
  predicate StageSucceeds(w: World, place: nat)
    requires place < |STAGES|
  {
    WorkSucceeds(w, place) && w.succeeds(Record(STAGES[place]))
  }

  /** The stages from one place up to another succeed. */
  ghost predicate SucceedFrom(w: World, from: nat, to: nat) {
    to <= |STAGES| && forall place: nat :: from <= place < to ==> StageSucceeds(w, place)
  }

  lemma {:induction false} OneMoreSucceeds(w: World, from: nat, to: nat)
    requires SucceedFrom(w, from, to) && to < |STAGES| && StageSucceeds(w, to)
    ensures SucceedFrom(w, from, to + 1)
  {
  }

  lemma {:induction false} SucceedOn(w: World, from: nat, mid: nat, to: nat)
    requires SucceedFrom(w, from, mid) && SucceedFrom(w, mid, to)
    ensures SucceedFrom(w, from, to)
  {
  }

  /** The first `k` stages succeed, and the next one, if there is one, does not. */
  ghost predicate StopsAfter(w: World, k: nat) {
    && SucceedFrom(w, 0, k)
    && (k < |STAGES| ==> !StageSucceeds(w, k))
  }

  /** After the candidate, a stage is reported as found exactly if it has no work of its own left to do. */
  lemma {:induction false} ResumedMeansSkipped(w: World, before: seq<Stage>, place: nat)
    requires 1 <= place < |STAGES|
    ensures Resumed(w, before, place) <==> forall step :: step in WorkOf(w, place) ==> step == Custody
  {
    if !Resumed(w, before, place) {
      var work := WorkOf(w, place);
      assert work[|work| - 1] in work;
    }
  }

  lemma {:induction false} EveryStage(stage: Stage)
    ensures stage in STAGES <==> !stage.Other?
  {
    assert STAGES[0] == Candidate && STAGES[1] == Images && STAGES[2] == Bundle && STAGES[3] == Transfer;
    assert STAGES[4] == Import && STAGES[5] == Activate && STAGES[6] == GovernedOperation && STAGES[7] == Verify;
  }

  ghost predicate EachSucceeds(w: World) {
    SucceedFrom(w, 0, |STAGES|)
  }

  lemma {:induction false} NeededStep(w: World, step: Step)
    requires w.succeeds(Prepare) && EachSucceeds(w) && Needs(w, step)
    ensures w.succeeds(step)
  {
    if step.Record? { EveryStage(step.stage); }
    assert StageSucceeds(w, 0) && StageSucceeds(w, 1) && StageSucceeds(w, 2) && StageSucceeds(w, 3);
    assert StageSucceeds(w, 4) && StageSucceeds(w, 5) && StageSucceeds(w, 6) && StageSucceeds(w, 7);
  }

  lemma {:induction false} WorkNeeded(w: World, place: nat, step: Step)
    requires place < |STAGES| && step in WorkOf(w, place)
    ensures Needs(w, step)
  {
  }

  lemma {:induction false} StageNeeded(w: World, place: nat)
    requires AllSucceed(w) && place < |STAGES|
    ensures StageSucceeds(w, place)
  {
    forall step | step in WorkOf(w, place) ensures w.succeeds(step) {
      WorkNeeded(w, place, step);
    }
    WorkListed(w, place);
    assert Needs(w, Record(STAGES[place]));
  }

  /** The steps that a run has to take are its preparation and those of its stages. */
  lemma {:induction false} StepsNeeded(w: World)
    ensures AllSucceed(w) <==> w.succeeds(Prepare) && EachSucceeds(w)
  {
    if AllSucceed(w) {
      assert Needs(w, Prepare);
      forall place | 0 <= place < |STAGES| ensures StageSucceeds(w, place) {
        StageNeeded(w, place);
      }
    } else {
      var step :| Needs(w, step) && !w.succeeds(step);
      if w.succeeds(Prepare) && EachSucceeds(w) { NeededStep(w, step); }
    }
  }

  lemma {:induction false} ListedStep(w: World, before: seq<Stage>, j: nat)
    requires j < |STAGES|
    ensures Listed(w, before, j + 1) == Add(Forgotten(w, Listed(w, before, j), j), STAGES[j])
  {
  }

  lemma {:induction false} OneMoreRecorded(start: map<string, StateFile>, revision: string, w: World, k: nat,
                                           files: map<string, StateFile>, report: seq<Reported>)
    requires k < |STAGES| && FilesAfter(start, revision, w, k, files) && ReportOf(w, ReadStages(start, revision), report, k)
    ensures var before := ReadStages(start, revision);
            var listed := Add(Forgotten(w, Listed(w, before, k), k), STAGES[k]);
            && listed == Listed(w, before, k + 1)
            && FilesAfter(start, revision, w, k + 1, files[revision := StateFile(1, revision, Some(listed))])
            && ReportOf(w, before, report + [Reported(STAGES[k], Resumed(w, before, k))], k + 1)
  {
    ListedStep(w, ReadStages(start, revision), k);
  }

  class Deployment {
    var files: map<string, StateFile>
    var completed: seq<Stage>
    var stages: seq<Reported>

    constructor (files: map<string, StateFile>)
      ensures this.files == files && completed == [] && stages == []
    {
      this.files, completed, stages := files, [], [];
    }

    /** The run has recorded `k` stages of `revision`. */
    ghost predicate Recorded(start: map<string, StateFile>, revision: string, w: World, k: nat)
      reads this`stages, this`files
    {
      k <= |STAGES| && ReportOf(w, ReadStages(start, revision), stages, k) && FilesAfter(start, revision, w, k, files)
    }

    /** Moreover the list in memory is the one in the file. */
    ghost predicate At(start: map<string, StateFile>, revision: string, w: World, k: nat)
      reads this
    {
      Recorded(start, revision, w, k) && completed == Listed(w, ReadStages(start, revision), k)
    }

    /** Adds a stage, writes the file in one atomic step and reports the stage. */
    method CompleteStage(revision: string, stage: Stage, resumed: bool, w: World) returns (ok: bool)
      modifies this
      ensures ok <==> w.succeeds(Record(stage))
      ensures completed == if stage in old(completed) then old(completed) else old(completed) + [stage]
      ensures files == if ok then old(files)[revision := StateFile(1, revision, Some(completed))] else old(files)
      ensures stages == if ok then old(stages) + [Reported(stage, resumed)] else old(stages)
    {
      if stage !in completed { completed := completed + [stage]; }
      ok := w.succeeds(Record(stage));
      if ok {
        files := files[revision := StateFile(1, revision, Some(completed))];
        stages := stages + [Reported(stage, resumed)];
      }
    }

    /** Completes the stage at place `k`, once what has to be forgotten is. */
    method CompleteNext(ghost start: map<string, StateFile>, revision: string, w: World, k: nat, resumed: bool) returns (ok: bool)
      requires k < |STAGES| && Recorded(start, revision, w, k)
      requires completed == Forgotten(w, Listed(w, ReadStages(start, revision), k), k)
      requires resumed == Resumed(w, ReadStages(start, revision), k)
      modifies this
      ensures ok <==> w.succeeds(Record(STAGES[k]))
      ensures ok ==> At(start, revision, w, k + 1)
      ensures !ok ==> Recorded(start, revision, w, k)
    {
      OneMoreRecorded(start, revision, w, k, files, stages);
      ok := CompleteStage(revision, STAGES[k], resumed, w);
    }

    /** Drops a stage and whatever follows it from the list in memory. */
    method Forget(stage: Stage)
      modifies this`completed
      ensures completed == CutAt(old(completed), stage)
    {
      var index := IndexOf(completed, stage);
      if index >= 0 { completed := completed[..index]; }
    }

    /** The first three stages: the candidate, its images and the bundle, resumed from a valid bundle. */
    method MakeBundle(ghost start: map<string, StateFile>, revision: string, w: World) returns (ok: bool, ghost k: nat)
      requires At(start, revision, w, 0)
      modifies this
      ensures Recorded(start, revision, w, k)
      ensures ok ==> k == 3 && At(start, revision, w, 3)
      ensures !ok ==> k < 3 && !StageSucceeds(w, k)
      ensures SucceedFrom(w, 0, k)
    {
      k := 0;
      ok := CompleteNext(start, revision, w, 0, Candidate in completed);
      if !ok { return; }
      OneMoreSucceeds(w, 0, 0);
      k := 1;
      if !w.succeeds(Custody) { return false, k; }
      if !w.bundleCached {
        completed := [Candidate];
        if !w.succeeds(ClearCaches) || !w.succeeds(Materials) { return false, k; }
      }
      ok := CompleteNext(start, revision, w, 1, w.bundleCached);
      if !ok { return; }
      OneMoreSucceeds(w, 0, 1);
      k := 2;
      if !w.bundleCached && (!w.succeeds(Produce) || !w.succeeds(WriteTrust)) { return false, k; }
      ok := CompleteNext(start, revision, w, 2, w.bundleCached);
      if ok {
        OneMoreSucceeds(w, 0, 2);
        k := 3;
      }
    }

    /** The transfer and import stages, each resumed if what it makes is already there and valid. */
    method TransferAndImport(ghost start: map<string, StateFile>, revision: string, w: World) returns (ok: bool, ghost k: nat)
      requires At(start, revision, w, 3)
      modifies this
      ensures Recorded(start, revision, w, k)
      ensures ok ==> k == 5 && At(start, revision, w, 5)
      ensures !ok ==> 3 <= k < 5 && !StageSucceeds(w, k)
      ensures SucceedFrom(w, 3, k)
    {
      k := 3;
      if !w.targetCached {
        Forget(Transfer);
        if !w.succeeds(ClearTarget) || !w.succeeds(TransferExactly) { return false, k; }
      }
      ok := CompleteNext(start, revision, w, 3, w.targetCached);
      if !ok { return; }
      OneMoreSucceeds(w, 3, 3);
      k := 4;
      if !w.imageReady {
        Forget(Import);
        if !w.succeeds(RunImport) { return false, k; }
      }
      ok := CompleteNext(start, revision, w, 4, w.imageReady);
      if ok {
        OneMoreSucceeds(w, 3, 4);
        k := 5;
      }
    }

    /** The last three stages, which every run does again. */
    method ActivateAndVerify(ghost start: map<string, StateFile>, revision: string, w: World) returns (ok: bool, ghost k: nat)
      requires At(start, revision, w, 5)
      modifies this
      ensures Recorded(start, revision, w, k)
      ensures ok ==> k == 8 && At(start, revision, w, 8)
      ensures !ok ==> 5 <= k < 8 && !StageSucceeds(w, k)
      ensures SucceedFrom(w, 5, k)
    {
      k := 5;
      if !w.succeeds(RunStart) { return false, k; }
      ok := CompleteNext(start, revision, w, 5, false);
      if !ok { return; }
      OneMoreSucceeds(w, 5, 5);
      k := 6;
      if !w.succeeds(RunGovernedCall) { return false, k; }
      ok := CompleteNext(start, revision, w, 6, false);
      if !ok { return; }
      OneMoreSucceeds(w, 5, 6);
      k := 7;
      if !w.succeeds(Healthy) || !w.succeeds(RightCandidate) { return false, k; }
      ok := CompleteNext(start, revision, w, 7, false);
      if ok {
        OneMoreSucceeds(w, 5, 7);
        k := 8;
      }
    }

    /** One run for a candidate, from any state file. A run that is not reused succeeds exactly if every step
        it needs does, and then reports the eight stages in order. Once prepared it records the stages before the
        first that does not succeed, and wherever it stops the file holds what `Listed` says of those. */
    method Run(revision: string, w: World) returns (outcome: Outcome, ghost k: nat)
      modifies this
      ensures k <= |STAGES| && FilesAfter(old(files), revision, w, k, files)
      ensures w.selection.PortConflict? ==> outcome.Failed? && k == 0
      ensures w.selection.Reuse? ==> outcome == Done(true, false, [Reported(Verify, true)]) && k == 0
      ensures w.selection.Fresh? ==>
              && (if w.succeeds(Prepare) then StopsAfter(w, k) else k == 0)
              && (outcome.Done? <==> AllSucceed(w))
              && (outcome.Done? ==> && !outcome.reused && outcome.replaced == w.selection.replace && k == |STAGES|
                                    && ReportOf(w, ReadStages(old(files), revision), outcome.report, |STAGES|))
    {
      ghost var start := files;
      k := 0;
      StepsNeeded(w);
      if w.selection.PortConflict? { return Failed, k; }
      if w.selection.Reuse? { return Done(true, false, [Reported(Verify, true)]), k; }
      if !w.succeeds(Prepare) { return Failed, k; }
      completed, stages := ReadStages(files, revision), [];
      var ok;
      ok, k := MakeBundle(start, revision, w);
      if !ok { return Failed, k; }
      ok, k := TransferAndImport(start, revision, w);
      SucceedOn(w, 0, 3, k);
      if !ok { return Failed, k; }
      ok, k := ActivateAndVerify(start, revision, w);
      SucceedOn(w, 0, 5, k);
      if !ok { return Failed, k; }
      outcome := Done(false, w.selection.replace, stages);
    }
  }

  ghost predicate AmongFirst(k: nat, stage: Stage) {
    exists place: nat :: place < k <= |STAGES| && STAGES[place] == stage
  }

  lemma {:induction false} AmongMore(k: nat, stage: Stage)
    requires k < |STAGES|
    ensures AmongFirst(k, stage) || stage == STAGES[k] || stage == STAGES[0] ==> AmongFirst(k + 1, stage)
  {
  }

  lemma {:induction false} ListedMembers(w: World, before: seq<Stage>, k: nat, stage: Stage)
    requires k < |STAGES| && stage in Listed(w, before, k + 1)
    ensures stage in Listed(w, before, k) || stage == STAGES[k] || stage == STAGES[0]
  {
    ListedStep(w, before, k);
  }

  /** The list after a run holds, beyond what it held before, only stages that the run recorded. */
  lemma {:induction false} ListedBefore(w: World, before: seq<Stage>, k: nat, stage: Stage)
    requires k <= |STAGES| && stage in Listed(w, before, k)
    ensures stage in before || AmongFirst(k, stage)
  {
    if k > 0 {
      ListedMembers(w, before, k - 1, stage);
      AmongMore(k - 1, stage);
      if stage in Listed(w, before, k - 1) { ListedBefore(w, before, k - 1, stage); }
    }
  }

  /** The file newly lists a stage only if all of that stage's work succeeded in this run. */
  lemma {:induction false} NewlyListedWorked(start: map<string, StateFile>, revision: string, w: World, k: nat,
                                             next: map<string, StateFile>, stage: Stage) returns (place: nat)
    requires StopsAfter(w, k) && FilesAfter(start, revision, w, k, next)
    requires stage in ReadStages(next, revision) && stage !in ReadStages(start, revision)
    ensures place < k && STAGES[place] == stage && w.succeeds(Record(stage))
    ensures forall step :: step in WorkOf(w, place) ==> w.succeeds(step)
  {
    ListedBefore(w, ReadStages(start, revision), k, stage);
    place :| place < k && STAGES[place] == stage;
    assert StageSucceeds(w, place);
    WorkListed(w, place);
  }

  // ---------- lists that are a prefix of the stages

  ghost predicate IsPrefix(completed: seq<Stage>) {
    |completed| <= |STAGES| && completed == STAGES[..|completed|]
  }

  /** One of the first `k` stages was built again, which forgets the stages that came after it. */
  predicate Rebuilt(w: World, k: nat) {
    (k >= 2 && !w.bundleCached) || (k >= 4 && !w.targetCached) || (k >= 5 && !w.imageReady)
  }

  /** How many stages the file holds after a run that recorded `k`, if it held the first `before` of them. */
  function Kept(w: World, before: nat, k: nat): nat {
    if Rebuilt(w, k) || before < k then k else before
  }

  lemma {:induction false} AddPrefix(xs: seq<Stage>, j: nat)
    requires j < |STAGES|
    ensures IsPrefix(Add(xs, STAGES[j])) <==> IsPrefix(xs) && |xs| >= j
    ensures IsPrefix(xs) && |xs| >= j ==> Add(xs, STAGES[j]) == STAGES[..if |xs| > j then |xs| else j + 1]
  {
    if IsPrefix(xs) { PrefixHolds(|xs|, j); }
    if STAGES[j] !in xs && IsPrefix(xs + [STAGES[j]]) {
      var n := |xs| + 1;
      assert STAGES[..n][n - 1] == STAGES[j];
      StagesDiffer(n - 1, j);
      assert xs == (xs + [STAGES[j]])[..n - 1];
    }
  }

  lemma {:induction false} CutPrefix(n: nat, j: nat)
    requires n <= |STAGES| && j < |STAGES|
    ensures CutAt(STAGES[..n], STAGES[j]) == STAGES[..if j < n then j else n]
  {
    PrefixHolds(n, j);
    var k := IndexOf(STAGES[..n], STAGES[j]);
    if k >= 0 {
      StagesDiffer(k, j);
      assert STAGES[..n][..k] == STAGES[..k];
    }
  }

  lemma {:induction false} ForgottenPrefix(w: World, before: nat, j: nat)
    requires before <= |STAGES| && j < |STAGES|
    ensures j <= Kept(w, before, j) <= |STAGES|
    ensures Add(Forgotten(w, STAGES[..Kept(w, before, j)], j), STAGES[j]) == STAGES[..Kept(w, before, j + 1)]
  {
    var n := Kept(w, before, j);
    if j == 1 && !w.bundleCached { assert [Candidate] == STAGES[..1]; }
    if j == 3 || j == 4 { CutPrefix(n, j); }
    AddPrefix(Forgotten(w, STAGES[..n], j), j);
  }

  /** From a prefix, the file holds a prefix again: as long as `Kept` says. */
  lemma {:induction false} ListedPrefix(w: World, before: nat, k: nat)
    requires before <= |STAGES| && k <= |STAGES|
    ensures k <= Kept(w, before, k) <= |STAGES| && Listed(w, STAGES[..before], k) == STAGES[..Kept(w, before, k)]
  {
    if k > 0 {
      var start := STAGES[..before];
      ListedPrefix(w, before, k - 1);
      ListedStep(w, start, k - 1);
      ForgottenPrefix(w, before, k - 1);
      assert Kept(w, before, k) <= |STAGES|;
    }
  }

  /** From any list at all: the part that a run keeps has to be a prefix already. A rebuilt bundle repairs every list. */
  ghost predicate KeepsPrefix(w: World, before: seq<Stage>, k: nat)
    requires k <= |STAGES|
  {
    if k >= 5 && !w.imageReady then CutAt(Listed(w, before, 4), Import) == STAGES[..4]
    else if k >= 4 && !w.targetCached then CutAt(Listed(w, before, 3), Transfer) == STAGES[..3]
    else if k >= 2 && !w.bundleCached then true
    else IsPrefix(before)
  }

  lemma {:induction false} CutIsWhole(xs: seq<Stage>, j: nat)
    requires j < |STAGES|
    ensures IsPrefix(CutAt(xs, STAGES[j])) && |CutAt(xs, STAGES[j])| >= j <==> CutAt(xs, STAGES[j]) == STAGES[..j]
  {
    var cut := CutAt(xs, STAGES[j]);
    if IsPrefix(cut) && |cut| >= j {
      PrefixHolds(|cut|, j);
    }
  }

  /** What is left before the stage at place `j` is a prefix that reaches that far. */
  ghost predicate LeavesPrefix(w: World, xs: seq<Stage>, j: nat) {
    IsPrefix(Forgotten(w, xs, j)) && |Forgotten(w, xs, j)| >= j
  }

  lemma {:induction false} LeftExactly(w: World, before: seq<Stage>, j: nat)
    requires j < |STAGES|
    requires IsPrefix(Listed(w, before, j)) <==> KeepsPrefix(w, before, j)
    requires IsPrefix(Listed(w, before, j)) ==> |Listed(w, before, j)| >= j
    ensures LeavesPrefix(w, Listed(w, before, j), j) <==> KeepsPrefix(w, before, j + 1)
  {
    if j == 1 && !w.bundleCached {
      assert [Candidate] == STAGES[..1];
    } else if j == 3 || j == 4 {
      CutIsWhole(Listed(w, before, j), j);
    }
  }

  lemma {:induction false} PrefixStep(xs: seq<Stage>, j: nat)
    requires j < |STAGES|
    ensures IsPrefix(Add(xs, STAGES[j])) ==> |Add(xs, STAGES[j])| >= j + 1
  {
    AddPrefix(xs, j);
  }

  /** The list that a run leaves is a prefix exactly if the part that it keeps is one. */
  lemma {:induction false} PrefixExactly(w: World, before: seq<Stage>, k: nat)
    requires k <= |STAGES|
    ensures IsPrefix(Listed(w, before, k)) <==> KeepsPrefix(w, before, k)
    ensures IsPrefix(Listed(w, before, k)) ==> |Listed(w, before, k)| >= k
  {
    if k > 0 {
      var j := k - 1;
      var left := Forgotten(w, Listed(w, before, j), j);
      PrefixExactly(w, before, j);
      LeftExactly(w, before, j);
      ListedStep(w, before, j);
      AddPrefix(left, j);
      PrefixStep(left, j);
    }
  }

  // ---------- every history of runs

  ghost predicate Clean(files: map<string, StateFile>) {
    forall revision :: IsPrefix(ReadStages(files, revision))
  }

  /** Some run for some candidate, stopped anywhere, leads from one state of the files to the next. */
  ghost predicate Runs(start: map<string, StateFile>, next: map<string, StateFile>) {
    exists revision, w, k: nat :: k <= |STAGES| && FilesAfter(start, revision, w, k, next)
  }

  lemma {:induction false} RunKeepsClean(start: map<string, StateFile>, next: map<string, StateFile>)
    requires Clean(start) && Runs(start, next)
    ensures Clean(next)
  {
    var revision, w, k: nat :| k <= |STAGES| && FilesAfter(start, revision, w, k, next);
    assert IsPrefix(ReadStages(start, revision));
    ListedPrefix(w, |ReadStages(start, revision)|, k);
    forall r ensures IsPrefix(ReadStages(next, r)) {
      assert IsPrefix(ReadStages(start, r));
    }
  }

  /** After any number of runs, each for any candidate and cut off anywhere, the completed stages of every
      candidate are a prefix of the eight stages without repetition. */
  lemma {:induction false} AlwaysPrefix(history: seq<map<string, StateFile>>, i: nat, revision: string)
    requires history != [] && Clean(history[0]) && i < |history|
    requires forall j :: 0 <= j < |history| - 1 ==> Runs(history[j], history[j + 1])
    ensures Clean(history[i])
    ensures var completed := ReadStages(history[i], revision);
            completed <= STAGES && forall a, b :: 0 <= a < b < |completed| ==> completed[a] != completed[b]
  {
    AllClean(history, i);
    var completed := ReadStages(history[i], revision);
    assert IsPrefix(completed);
    forall a, b | 0 <= a < b < |completed| ensures completed[a] != completed[b] {
      assert completed[a] == STAGES[a] && completed[b] == STAGES[b];
      if STAGES[a] == STAGES[b] { StagesDiffer(a, b); }
    }
  }

  lemma {:induction false} AllClean(history: seq<map<string, StateFile>>, i: nat)
    requires history != [] && Clean(history[0]) && i < |history|
    requires forall j :: 0 <= j < |history| - 1 ==> Runs(history[j], history[j + 1])
    ensures Clean(history[i])
  {
    if i > 0 {
      AllClean(history, i - 1);
      assert Runs(history[i - 1], history[i - 1 + 1]);
      RunKeepsClean(history[i - 1], history[i]);
    }
  }

  /** What the file says of verification after a run: either this run verified, or an earlier one did
      and no stage was built again since, even if this run then failed. */
  lemma {:induction false} VerifyIsRemembered(start: map<string, StateFile>, revision: string, w: World, k: nat, next: map<string, StateFile>)
    requires IsPrefix(ReadStages(start, revision)) && k <= |STAGES| && FilesAfter(start, revision, w, k, next)
    ensures Verify in ReadStages(next, revision) <==>
            k == |STAGES| || (Verify in ReadStages(start, revision) && !Rebuilt(w, k))
  {
    var before := |ReadStages(start, revision)|;
    assert STAGES[7] == Verify;
    PrefixHolds(before, 7);
    ListedPrefix(w, before, k);
    PrefixHolds(Kept(w, before, k), 7);
  }

  /** Such a run, for any candidate: everything was done before and is still valid, and the very next step fails. */
  method VerifyOutlivesFailure(revision: string, replace: bool) returns (outcome: Outcome, listed: seq<Stage>)
    ensures outcome.Failed? && Verify in listed
  {
    var start := map[revision := StateFile(1, revision, Some(STAGES))];
    var w := World(Fresh(replace), (step: Step) => step != Custody, true, true, true);
    var deployment := new Deployment(start);
    ghost var k;
    outcome, k := deployment.Run(revision, w);
    assert Needs(w, Custody) && !w.succeeds(Custody);
    listed := ReadStages(deployment.files, revision);
    assert STAGES[..|STAGES|] == STAGES && STAGES[7] == Verify;
    VerifyIsRemembered(start, revision, w, k, deployment.files);
  }
}
