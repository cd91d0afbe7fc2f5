/** The reduction of a whole checkpoint list to one verdict, and what the verdict means. */
module CheckpointReducer {
  import opened Wrappers
  import opened Graphs
  import opened CheckpointRules
  import opened CheckpointCycles
  import opened CheckpointGraph

  datatype State = Verified | Blocked | Failed

  datatype FailureKind = NoFailure | InvalidCheckpointGraph | ExternalEvidenceLacking | LocalCheckpointIncomplete

  datatype Report = Report(
    state: State,
    ready: bool,
    blocked: bool,
    failureKind: FailureKind,
    checkpointCount: nat,
    completedCount: nat,
    requiredRoles: seq<string>,
    notes: Notes
  )

  function ItemsOf(input: Input): seq<RawCheckpoint> {
    if input.Checkpoints? then input.items else []
  }

  function Normalize(cp: RawCheckpoint, index: nat): Normalized {
    Normalized(CheckpointId(cp, index), cp.declaredId, cp.role, cp.status, UniqueStrings(DeclaredPrerequisites(cp)))
  }

  function NormalizeUpTo(items: seq<RawCheckpoint>, n: nat): (r: seq<Normalized>)
    requires n <= |items|
    ensures |r| == n && forall i :: 0 <= i < n ==> r[i] == Normalize(items[i], i)
  {
    if n == 0 then [] else NormalizeUpTo(items, n - 1) + [Normalize(items[n - 1], n - 1)]
  }

  function InputNotes(input: Input, s: Settings): Notes {
    var items := ItemsOf(input);
    (if input.NotAnArray? then Found(About(CheckpointsNotArray, "", ""))
     else NOTHING.ThenIf(input.items == [], About(CheckpointsEmpty, "", "")))
    .Then(Gather(items, |items|, CheckpointVisit(s)))
  }

  function CompletedCount(all: seq<Normalized>, s: Settings): nat {
    if all == [] then 0
    else CompletedCount(all[..|all| - 1], s) + if all[|all| - 1].status == s.completedStatus then 1 else 0
  }

  function Conclude(notes: Notes, all: seq<Normalized>, s: Settings): Report {
    var ready := notes.findings == [] && notes.open == [] && notes.blockers == [];
    var blocked := !ready && notes.findings == [] && notes.blockers != [] && notes.open != []
                   && forall o :: o in notes.open ==> o.status == BLOCKED_STATUS;
    Report(
      if ready then Verified else if blocked then Blocked else Failed,
      ready,
      blocked,
      if ready then NoFailure
      else if exists f :: f in notes.findings && CategoryOf(f.code) in {Graph, Structure} then InvalidCheckpointGraph
      else if blocked then ExternalEvidenceLacking
      else LocalCheckpointIncomplete,
      |all|,
      CompletedCount(all, s),
      UniqueStrings(s.requiredRoles),
      notes)
  }

  function Extended(reviews: Notes, findings: seq<Finding>): Notes {
    reviews.(findings := reviews.findings + findings)
  }

  /** `report` is what the reducer may answer for `input`. */
  ghost predicate ReportFor(input: Input, s: Settings, report: Report) {
    var all := NormalizeUpTo(ItemsOf(input), |ItemsOf(input)|);
    exists findings ::
      && GraphReport(all, UniqueStrings(s.requiredRoles), s.completedStatus, findings)
      && report == Conclude(Extended(InputNotes(input, s), findings), all, s)
  }

  method ReduceCapabilityCheckpoints(input: Input, s: Settings) returns (report: Report)
    ensures ReportFor(input, s, report)
    ensures report.ready <==> Ready(input, s)
    ensures report.state == Failed <==> report.notes.findings != []
  {
    var reviews, all := ReviewAll(input, s);
    var findings := CompareCheckpoints(all, UniqueStrings(s.requiredRoles), s.completedStatus);
    report := Conclude(Extended(reviews, findings), all, s);
    VerdictExactly(input, s, report);
  }

  method ReviewAll(input: Input, s: Settings) returns (notes: Notes, all: seq<Normalized>)
    ensures notes == InputNotes(input, s) && all == NormalizeUpTo(ItemsOf(input), |ItemsOf(input)|)
    ensures ConsistentIds(all)
  {
    var items := if input.Checkpoints? then input.items else [];
    var head := NOTHING;
    if input.NotAnArray? {
      head := Found(About(CheckpointsNotArray, "", ""));
    } else if |items| == 0 {
      head := head.Then(Found(About(CheckpointsEmpty, "", "")));
    }
    notes, all := NOTHING, [];
    for i := 0 to |items|
      invariant notes == Gather(items, i, CheckpointVisit(s))
      invariant all == NormalizeUpTo(items, i)
    {
      var own := ReviewCheckpoint(items[i], i, s);
      notes := notes.Then(own);
      all := all + [Normalize(items[i], i)];
    }
    notes := head.Then(notes);
  }

  // ---------- what the verdict means, said of the raw input

  ghost function NodeOf(cp: RawCheckpoint): Node {
    Node(cp.declaredId, cp.role, cp.status, VertexSet(DeclaredPrerequisites(cp)))
  }

  ghost function NodesOf(items: seq<RawCheckpoint>): (nodes: seq<Node>)
    ensures |nodes| == |items|
  {
    seq(|items|, i requires 0 <= i < |items| => NodeOf(items[i]))
  }

  /** Exactly the inputs that leave no finding. */
  ghost predicate Sound(input: Input, s: Settings) {
    && input.Checkpoints? && input.items != []
    && (forall cp :: cp in input.items ==> CompletedCheckpoint(cp, s) || BlockedCheckpoint(cp, s))
    && SoundGraph(NodesOf(input.items), UniqueStrings(s.requiredRoles))
    && CompletedInOrder(NodesOf(input.items), s.completedStatus)
  }

  /** Exactly the inputs the reducer declares ready for the release reducer. */
  ghost predicate Ready(input: Input, s: Settings) {
    && input.Checkpoints? && input.items != []
    && (forall cp :: cp in input.items ==> CompletedCheckpoint(cp, s))
    && SoundGraph(NodesOf(input.items), UniqueStrings(s.requiredRoles))
  }

  lemma {:induction false} PrerequisiteTextsNonEmpty(items: seq<Option<string>>)
    ensures "" !in PrerequisiteTexts(items)
  {
    if items != [] {
      PrerequisiteTextsNonEmpty(items[1..]);
    }
  }

  lemma {:induction false} NormalizedPrerequisites(cp: RawCheckpoint)
    ensures VertexSet(UniqueStrings(DeclaredPrerequisites(cp))) == VertexSet(DeclaredPrerequisites(cp))
  {
    if cp.prerequisites.Some? {
      PrerequisiteTextsNonEmpty(cp.prerequisites.value);
    }
  }

  lemma {:induction false} NormalizeRepresents(items: seq<RawCheckpoint>)
    requires forall cp :: cp in items ==> cp.declaredId != ""
    ensures Represents(NodesOf(items), NormalizeUpTo(items, |items|))
  {
    forall i | 0 <= i < |items|
      ensures items[i].declaredId != "" && VertexSet(Normalize(items[i], i).prerequisites) == NodeOf(items[i]).needs
    {
      assert items[i] in items;
      NormalizedPrerequisites(items[i]);
    }
  }

  /** The notes of one checkpoint are silent exactly if it is completed or properly blocked, and then say which. */
  ghost predicate Faithful(notes: Notes, cp: RawCheckpoint, s: Settings) {
    && (notes.findings == [] <==> CompletedCheckpoint(cp, s) || BlockedCheckpoint(cp, s))
    && (notes.findings == [] ==>
          && MatchOneForOne(notes.unchecked, notes.blockers)
          && (notes.blockers == [] <==> CompletedCheckpoint(cp, s))
          && (notes.open == [] <==> CompletedCheckpoint(cp, s))
          && forall o :: o in notes.open ==> o.status == BLOCKED_STATUS)
  }

  lemma {:induction false} GatherFaithful(items: seq<RawCheckpoint>, s: Settings, visit: (RawCheckpoint, nat) -> Notes)
    requires forall i :: 0 <= i < |items| ==> Faithful(visit(items[i], i), items[i], s)
    ensures var notes := Gather(items, |items|, visit);
            && (notes.findings == [] <==> forall cp :: cp in items ==> CompletedCheckpoint(cp, s) || BlockedCheckpoint(cp, s))
            && (notes.findings == [] ==>
                  && MatchOneForOne(notes.unchecked, notes.blockers)
                  && (notes.blockers == [] <==> forall cp :: cp in items ==> CompletedCheckpoint(cp, s))
                  && (notes.open == [] <==> forall cp :: cp in items ==> CompletedCheckpoint(cp, s))
                  && forall o :: o in notes.open ==> o.status == BLOCKED_STATUS)
  {
    GatherFindings(items, |items|, visit);
    GatherBlockers(items, |items|, visit);
    GatherOpen(items, |items|, visit);
    if Gather(items, |items|, visit).findings == [] {
      GatherMatches(items, |items|, visit);
    }
  }

  lemma {:induction false} InputNotesParts(input: Input, s: Settings)
    ensures var notes, reviewed := InputNotes(input, s), Gather(ItemsOf(input), |ItemsOf(input)|, CheckpointVisit(s));
            && (notes.findings == [] <==> input.Checkpoints? && input.items != [] && reviewed.findings == [])
            && notes.unchecked == reviewed.unchecked && notes.blockers == reviewed.blockers && notes.open == reviewed.open
  {
    var reviewed := Gather(ItemsOf(input), |ItemsOf(input)|, CheckpointVisit(s));
    assert [] + reviewed.unchecked == reviewed.unchecked && [] + reviewed.blockers == reviewed.blockers;
    assert [] + reviewed.open == reviewed.open && [] + reviewed.findings == reviewed.findings;
  }

  lemma {:induction false} VisitsFaithful(items: seq<RawCheckpoint>, s: Settings)
    ensures forall i :: 0 <= i < |items| ==> Faithful(CheckpointVisit(s)(items[i], i), items[i], s)
  {
    forall i | 0 <= i < |items| ensures Faithful(CheckpointVisit(s)(items[i], i), items[i], s) {
      CheckpointAccepted(items[i], i, s);
    }
  }

  /** The reviews are silent exactly when every checkpoint is completed or properly blocked. */
  lemma {:induction false} ReviewsAccepted(input: Input, s: Settings)
    ensures var notes := InputNotes(input, s);
            notes.findings == [] <==>
              && input.Checkpoints? && input.items != []
              && forall cp :: cp in input.items ==> CompletedCheckpoint(cp, s) || BlockedCheckpoint(cp, s)
    ensures InputNotes(input, s).findings == [] ==>
            var notes := InputNotes(input, s);
            && MatchOneForOne(notes.unchecked, notes.blockers)
            && (notes.blockers == [] <==> forall cp :: cp in input.items ==> CompletedCheckpoint(cp, s))
            && (notes.open == [] <==> forall cp :: cp in input.items ==> CompletedCheckpoint(cp, s))
            && forall o :: o in notes.open ==> o.status == BLOCKED_STATUS
  {
    InputNotesParts(input, s);
    VisitsFaithful(ItemsOf(input), s);
    GatherFaithful(ItemsOf(input), s, CheckpointVisit(s));
  }

  /** No finding at all, over every pass, is the declarative soundness of the input. */
  lemma {:induction false} NoFindingsExactly(input: Input, s: Settings, findings: seq<Finding>)
    requires GraphReport(NormalizeUpTo(ItemsOf(input), |ItemsOf(input)|), UniqueStrings(s.requiredRoles), s.completedStatus, findings)
    ensures InputNotes(input, s).findings + findings == [] <==> Sound(input, s)
  {
    ReviewsAccepted(input, s);
    if InputNotes(input, s).findings == [] {
      var items := input.items;
      forall cp | cp in items ensures cp.declaredId != "" {
        assert CompletedCheckpoint(cp, s) || BlockedCheckpoint(cp, s);
      }
      NormalizeRepresents(items);
      GraphAccepted(NodesOf(items), NormalizeUpTo(items, |items|), UniqueStrings(s.requiredRoles), s.completedStatus, findings);
    }
  }

  lemma {:induction false} ReadyIsSound(input: Input, s: Settings)
    ensures Ready(input, s) <==> Sound(input, s) && forall cp :: cp in ItemsOf(input) ==> CompletedCheckpoint(cp, s)
  {
    if Ready(input, s) {
      var nodes := NodesOf(input.items);
      forall n | n in nodes ensures n.status == s.completedStatus {
        var i :| 0 <= i < |nodes| && nodes[i] == n;
        assert CompletedCheckpoint(input.items[i], s);
      }
    }
  }

  /** Ready is said exactly of the inputs Ready describes, and the state is failed exactly when
      something was found. Without findings, open checkpoints and blockers come together and
      unchecked criteria match blockers one for one. */
  lemma {:induction false} VerdictExactly(input: Input, s: Settings, report: Report)
    requires ReportFor(input, s, report)
    ensures report.ready <==> Ready(input, s)
    ensures report.state == Verified <==> report.ready
    ensures report.state == Failed <==> report.notes.findings != []
    ensures report.notes.findings == [] <==> Sound(input, s)
    ensures report.notes.findings == [] ==>
            && (report.notes.open == [] <==> report.notes.blockers == [])
            && MatchOneForOne(report.notes.unchecked, report.notes.blockers)
  {
    var all := NormalizeUpTo(ItemsOf(input), |ItemsOf(input)|);
    var findings :| GraphReport(all, UniqueStrings(s.requiredRoles), s.completedStatus, findings)
                    && report == Conclude(Extended(InputNotes(input, s), findings), all, s);
    NoFindingsExactly(input, s, findings);
    ReviewsAccepted(input, s);
    ReadyIsSound(input, s);
  }

  /** Without findings, everything a completed checkpoint depends on, however indirectly, is completed. */
  lemma {:induction false} CompletedIsClosed(input: Input, s: Settings, report: Report, a: RawCheckpoint, v: string)
    requires ReportFor(input, s, report) && report.notes.findings == []
    requires a in ItemsOf(input) && a.status == s.completedStatus
    requires Reaches(DependencyGraph(NodesOf(ItemsOf(input))), {a.declaredId}, v)
    ensures exists b :: b in ItemsOf(input) && b.declaredId == v && CompletedCheckpoint(b, s)
  {
    VerdictExactly(input, s, report);
    SoundCompletionIsClosed(input, s, a, v);
  }

  lemma {:induction false} SoundCompletionIsClosed(input: Input, s: Settings, a: RawCheckpoint, v: string)
    requires Sound(input, s) && a in input.items && a.status == s.completedStatus
    requires Reaches(DependencyGraph(NodesOf(input.items)), {a.declaredId}, v)
    ensures exists b :: b in input.items && b.declaredId == v && CompletedCheckpoint(b, s)
  {
    var items, nodes := input.items, NodesOf(input.items);
    var i :| 0 <= i < |items| && items[i] == a;
    assert nodes[i] == NodeOf(a) && nodes[i] in nodes;
    CompletionIsClosed(nodes, UniqueStrings(s.requiredRoles), s.completedStatus, nodes[i], v);
    var n :| n in nodes && n.id == v && n.status == s.completedStatus;
    var j :| 0 <= j < |nodes| && nodes[j] == n;
    assert items[j] in items && !BlockedCheckpoint(items[j], s);
  }
}
