/** The checkpoint reducer's input, its findings, and the rules that look at
    one checkpoint at a time. String fields hold the trimmed text of the raw
    value, and the empty string where the raw value is absent or of another type. */
module CheckpointRules {
  import opened Wrappers

  datatype RawEvidence = RawEvidence(
    hasCommand: bool,
    commandId: string,
    report: Option<string>  // None: the entry has no report field
  )

  datatype RawBlocker = RawBlocker(
    externalKind: bool,
    code: string,
    description: string,
    verificationCommand: string,
    requiredEvidence: seq<string>
  )

  datatype RawCriterion =
    | NotAnObject
    | Criterion(text: string, checked: bool, blocker: Option<RawBlocker>, evidence: Option<seq<RawEvidence>>)

  datatype RawCheckpoint = RawCheckpoint(
    isObject: bool,
    declaredId: string,
    role: string,
    status: string,
    prerequisites: Option<seq<Option<string>>>,  // None inside: an item that is not a string
    criteria: Option<seq<RawCriterion>>
  )

  datatype Input = NotAnArray | Checkpoints(items: seq<RawCheckpoint>)

  /** The three pattern checks are left arbitrary: every result holds for any of them. */
  datatype Settings = Settings(
    requiredRoles: seq<string>,
    allowedStatuses: set<string>,
    completedStatus: string,
    authority: map<string, set<string>>,
    isReportPath: string -> bool,
    isBlockerCode: string -> bool,
    isSelfReferential: string -> bool
  )

  const BLOCKED_STATUS := "blocked"
  const IMPLEMENTATION := "implementation"
  const FINAL_VALIDATION := "final_validation"

  datatype Code =
    | CheckpointsNotArray | CheckpointsEmpty | CheckpointNotObject | IdMissing | IdDuplicate
    | RoleMissing | StatusInvalid | NotCompleted
    | PrerequisitesNotArray | PrerequisiteIdInvalid | PrerequisiteDuplicate
    | PrerequisiteMissing | PrerequisiteSelfReference | CompletedBeforePrerequisite | PrerequisiteCycle
    | CriteriaMissing | CriterionInvalid | CriterionUnchecked
    | CheckedCriterionHasBlocker | ExternalBlockerInvalid | BlockedWithoutExternalEvidence
    | CompletedWithBlockedCriterion
    | EvidenceMissing | EvidenceCommandForbidden | EvidenceCommandIdInvalid
    | EvidenceCommandIdUnknown | EvidenceReportInvalid | EvidenceReportNotOwned
    | RequiredRoleMissing | RequiredRoleDuplicate | FinalValidationUnlinked

  datatype Category = Structure | Graph | Status | Criteria | Evidence | Authority | Blocking | Role

  function CategoryOf(code: Code): Category {
    match code
    case CheckpointsNotArray | CheckpointsEmpty | CheckpointNotObject | IdMissing | IdDuplicate | RoleMissing =>
      Structure
    case StatusInvalid | NotCompleted | CompletedWithBlockedCriterion => Status
    case PrerequisitesNotArray | PrerequisiteIdInvalid | PrerequisiteDuplicate | PrerequisiteMissing
       | PrerequisiteSelfReference | CompletedBeforePrerequisite | PrerequisiteCycle | FinalValidationUnlinked =>
      Graph
    case CriteriaMissing | CriterionInvalid | CriterionUnchecked => Criteria
    case CheckedCriterionHasBlocker | ExternalBlockerInvalid | BlockedWithoutExternalEvidence => Blocking
    case EvidenceMissing | EvidenceCommandIdInvalid | EvidenceReportInvalid => Evidence
    case EvidenceCommandForbidden | EvidenceCommandIdUnknown | EvidenceReportNotOwned => Authority
    case RequiredRoleMissing | RequiredRoleDuplicate => Role
  }

  /** `criterion` is -1 where no criterion is concerned; `cycle` lists the vertices of a
      prerequisite cycle and is empty for every other code. */
  datatype Finding = Finding(
    code: Code,
    checkpointId: string,
    role: string,
    prerequisiteId: string,
    criterion: int,
    cycle: seq<string>
  )

  datatype Reason = CriteriaAbsent | Invalid | ExternalEvidenceMissing | InvalidExternalBlocker | NotChecked

  datatype Unchecked = Unchecked(checkpointId: string, role: string, criterion: int, reason: Reason)

  datatype Blocker = Blocker(code: string, checkpointId: string, role: string, criterion: int)

  datatype Binding = Binding(commandId: string, report: string, checkpointId: string, role: string, criterion: int, index: nat)

  datatype OpenCheckpoint = OpenCheckpoint(id: string, role: string, status: string)

  /** Everything a pass over the input appends to the report. */
  datatype Notes = Notes(
    findings: seq<Finding>,
    unchecked: seq<Unchecked>,
    blockers: seq<Blocker>,
    bindings: seq<Binding>,
    open: seq<OpenCheckpoint>
  ) {
    function Then(more: Notes): Notes {
      Notes(findings + more.findings, unchecked + more.unchecked, blockers + more.blockers,
            bindings + more.bindings, open + more.open)
    }

    function ThenIf(when: bool, f: Finding): Notes { if when then Then(Found(f)) else this }
  }

  const NOTHING := Notes([], [], [], [], [])

  function Found(f: Finding): Notes { NOTHING.(findings := [f]) }

  function About(code: Code, id: string, role: string): Finding {
    Finding(code, id, role, "", -1, [])
  }

  /** What visiting the first `n` items in order appends. */
  function Gather<T>(items: seq<T>, n: nat, visit: (T, nat) -> Notes): Notes
    requires n <= |items|
  {
    if n == 0 then NOTHING else Gather(items, n - 1, visit).Then(visit(items[n - 1], n - 1))
  }

  lemma {:induction false} GatherFindings<T>(items: seq<T>, n: nat, visit: (T, nat) -> Notes)
    requires n <= |items|
    ensures Gather(items, n, visit).findings == [] <==> forall i :: 0 <= i < n ==> visit(items[i], i).findings == []
  {
    if n > 0 {
      GatherFindings(items, n - 1, visit);
    }
  }

  lemma {:induction false} GatherBlockers<T>(items: seq<T>, n: nat, visit: (T, nat) -> Notes)
    requires n <= |items|
    ensures Gather(items, n, visit).blockers == [] <==> forall i :: 0 <= i < n ==> visit(items[i], i).blockers == []
  {
    if n > 0 {
      GatherBlockers(items, n - 1, visit);
    }
  }

  lemma {:induction false} GatherOpen<T>(items: seq<T>, n: nat, visit: (T, nat) -> Notes)
    requires n <= |items|
    ensures Gather(items, n, visit).open == [] <==> forall i :: 0 <= i < n ==> visit(items[i], i).open == []
    ensures forall o :: o in Gather(items, n, visit).open <==> exists i :: 0 <= i < n && o in visit(items[i], i).open
  {
    if n > 0 {
      GatherOpen(items, n - 1, visit);
    }
  }

  /** The distinct non-empty strings, each at its first place. */
  function UniqueStrings(values: seq<string>): (r: seq<string>)
    ensures forall v :: v in r <==> v in values && v != ""
    ensures forall i, j :: 0 <= i < j < |r| ==> r[i] != r[j]
  {
    if values == [] then []
    else
      var front := UniqueStrings(values[..|values| - 1]);
      var last := values[|values| - 1];
      assert values == values[..|values| - 1] + [last];
      if last == "" || last in front then front else front + [last]
  }

  /** A value and the place where it comes first. */
  predicate FirstAt(values: seq<string>, v: string, k: nat) {
    k < |values| && values[k] == v && v !in values[..k]
  }

  /** The distinct strings keep the order in which they come first. */
  lemma {:induction false} UniqueKeepsOrder(values: seq<string>, i: nat, j: nat, a: nat, b: nat)
    requires i < j < |UniqueStrings(values)|
    requires FirstAt(values, UniqueStrings(values)[i], a) && FirstAt(values, UniqueStrings(values)[j], b)
    ensures a < b
  {
    var n := |values| - 1;
    var front, r := UniqueStrings(values[..n]), UniqueStrings(values);
    assert r[i] == front[i] && r[i] in front;
    assert a < n by { assert r[i] in values[..n]; }
    assert values[..n][..a] == values[..a];
    if j < |front| {
      assert r[j] == front[j] && r[j] in front;
      assert b < n by { assert r[j] in values[..n]; }
      assert values[..n][..b] == values[..b];
      UniqueKeepsOrder(values[..n], i, j, a, b);
    } else {
      assert r[j] == values[n] && r[j] !in values[..n];
    }
  }

  // ---------- evidence of one criterion

  datatype Details = Details(checkpointId: string, role: string, criterion: nat) {
    function Note(code: Code): Finding { Finding(code, checkpointId, role, "", criterion, []) }
  }

  /** The whole of what one evidence entry owes the report. */
  predicate ValidEvidence(e: RawEvidence, s: Settings) {
    && !e.hasCommand
    && e.commandId != ""
    && e.commandId in s.authority
    && match e.report
       case None => true
       case Some(path) => s.isReportPath(path) && (path == "" || path in s.authority[e.commandId])
  }

  function EvidenceNotes(e: RawEvidence, index: nat, d: Details, s: Settings): Notes {
    var command := NOTHING.ThenIf(e.hasCommand, d.Note(EvidenceCommandForbidden));
    if e.commandId == "" then command.Then(Found(d.Note(EvidenceCommandIdInvalid)))
    else
      var known := e.commandId in s.authority;
      var report := if e.report.Some? then e.report.value else "";
      var unknown := command.ThenIf(!known, d.Note(EvidenceCommandIdUnknown));
      var judged :=
        if e.report.Some? && !s.isReportPath(report) then unknown.Then(Found(d.Note(EvidenceReportInvalid)))
        else unknown.ThenIf(report != "" && known && report !in s.authority[e.commandId],
                            d.Note(EvidenceReportNotOwned));
      judged.Then(NOTHING.(bindings := [Binding(e.commandId, report, d.checkpointId, d.role, d.criterion, index)]))
  }

  function EvidenceVisit(d: Details, s: Settings): (RawEvidence, nat) -> Notes {
    (e: RawEvidence, i: nat) => EvidenceNotes(e, i, d, s)
  }

  function AllEvidenceNotes(evidence: Option<seq<RawEvidence>>, d: Details, s: Settings): Notes {
    if evidence.None? || evidence.value == [] then Found(d.Note(EvidenceMissing))
    else Gather(evidence.value, |evidence.value|, EvidenceVisit(d, s))
  }

  method ValidateEvidenceEntries(evidence: Option<seq<RawEvidence>>, d: Details, s: Settings) returns (notes: Notes)
    ensures notes == AllEvidenceNotes(evidence, d, s)
  {
    if evidence.None? || |evidence.value| == 0 {
      return Found(d.Note(EvidenceMissing));
    }
    var items := evidence.value;
    notes := NOTHING;
    for i := 0 to |items|
      invariant notes == Gather(items, i, EvidenceVisit(d, s))
    {
      var item, own := items[i], NOTHING;
      if item.hasCommand {
        own := own.Then(Found(d.Note(EvidenceCommandForbidden)));
      }
      if item.commandId == "" {
        own := own.Then(Found(d.Note(EvidenceCommandIdInvalid)));
        notes := notes.Then(own);
        continue;
      }
      var known := item.commandId in s.authority;
      var report := if item.report.Some? then item.report.value else "";
      if !known {
        own := own.Then(Found(d.Note(EvidenceCommandIdUnknown)));
      }
      if item.report.Some? && !s.isReportPath(report) {
        own := own.Then(Found(d.Note(EvidenceReportInvalid)));
      } else if report != "" && known {
        if report !in s.authority[item.commandId] {
          own := own.Then(Found(d.Note(EvidenceReportNotOwned)));
        }
      }
      own := own.Then(NOTHING.(bindings := [Binding(item.commandId, report, d.checkpointId, d.role, d.criterion, i)]));
      notes := notes.Then(own);
    }
  }

  /** Evidence is accepted exactly when there is some and every entry is valid; it never
      touches anything but findings and bindings. */
  lemma {:induction false} EvidenceAccepted(evidence: Option<seq<RawEvidence>>, d: Details, s: Settings)
    ensures AllEvidenceNotes(evidence, d, s).findings == [] <==>
            evidence.Some? && evidence.value != [] && forall e :: e in evidence.value ==> ValidEvidence(e, s)
    ensures AllEvidenceNotes(evidence, d, s).unchecked == [] && AllEvidenceNotes(evidence, d, s).blockers == []
            && AllEvidenceNotes(evidence, d, s).open == []
  {
    if evidence.Some? && evidence.value != [] {
      var items := evidence.value;
      GatherFindings(items, |items|, EvidenceVisit(d, s));
      forall i | 0 <= i < |items| ensures EvidenceVisit(d, s)(items[i], i).findings == [] <==> ValidEvidence(items[i], s) {
        OneEvidence(items[i], i, d, s);
      }
      EvidenceOnlyBinds(items, |items|, d, s);
    }
  }

  lemma {:induction false} OneEvidence(e: RawEvidence, index: nat, d: Details, s: Settings)
    ensures EvidenceNotes(e, index, d, s).findings == [] <==> ValidEvidence(e, s)
  {
  }

  lemma {:induction false} OneOnlyBinds(e: RawEvidence, index: nat, d: Details, s: Settings)
    ensures OnlyBinds(EvidenceNotes(e, index, d, s))
  {
  }

  ghost predicate OnlyBinds(notes: Notes) {
    notes.unchecked == [] && notes.blockers == [] && notes.open == []
  }

  lemma {:induction false} GatherOnlyBinds<T>(items: seq<T>, n: nat, visit: (T, nat) -> Notes)
    requires n <= |items| && forall i :: 0 <= i < n ==> OnlyBinds(visit(items[i], i))
    ensures OnlyBinds(Gather(items, n, visit))
  {
    if n > 0 {
      GatherOnlyBinds(items, n - 1, visit);
      assert OnlyBinds(visit(items[n - 1], n - 1));
    }
  }

  lemma {:induction false} EvidenceOnlyBinds(items: seq<RawEvidence>, n: nat, d: Details, s: Settings)
    requires n <= |items|
    ensures OnlyBinds(Gather(items, n, EvidenceVisit(d, s)))
  {
    forall i | 0 <= i < n ensures OnlyBinds(EvidenceVisit(d, s)(items[i], i)) {
      OneOnlyBinds(items[i], i, d, s);
    }
    GatherOnlyBinds(items, n, EvidenceVisit(d, s));
  }

  // ---------- one criterion

  predicate ValidBlocker(b: RawBlocker, s: Settings) {
    && b.externalKind
    && s.isBlockerCode(b.code)
    && b.description != ""
    && b.verificationCommand != ""
    && !s.isSelfReferential(b.verificationCommand)
    && UniqueStrings(b.requiredEvidence) != []
  }

  function CriterionNotes(c: RawCriterion, index: nat, cp: RawCheckpoint, id: string, s: Settings): Notes {
    var d := Details(id, cp.role, index);
    if c.NotAnObject? || c.text == "" then
      NOTHING.(unchecked := [Unchecked(id, cp.role, index, Invalid)], findings := [d.Note(CriterionInvalid)])
    else if c.checked then
      var blocked := NOTHING.ThenIf(c.blocker.Some?, d.Note(CheckedCriterionHasBlocker));
      if cp.role in UniqueStrings(s.requiredRoles) then blocked.Then(AllEvidenceNotes(c.evidence, d, s)) else blocked
    else if c.blocker.Some? then
      var valid := ValidBlocker(c.blocker.value, s);
      var judged := if valid then NOTHING.(blockers := [Blocker(c.blocker.value.code, id, cp.role, index)])
                    else Found(d.Note(ExternalBlockerInvalid));
      var reason := if valid then ExternalEvidenceMissing else InvalidExternalBlocker;
      judged.Then(NOTHING.(unchecked := [Unchecked(id, cp.role, index, reason)]))
      .ThenIf(cp.status == s.completedStatus, d.Note(CompletedWithBlockedCriterion))
    else
      NOTHING.(unchecked := [Unchecked(id, cp.role, index, NotChecked)], findings := [d.Note(CriterionUnchecked)])
  }

  function CriterionVisit(cp: RawCheckpoint, id: string, s: Settings): (RawCriterion, nat) -> Notes {
    (c: RawCriterion, i: nat) => CriterionNotes(c, i, cp, id, s)
  }

  /** A criterion that is done: checked, unblocked and, for a required role, evidenced. */
  predicate SatisfiedCriterion(c: RawCriterion, role: string, s: Settings) {
    && c.Criterion? && c.text != "" && c.checked && c.blocker.None?
    && (role in UniqueStrings(s.requiredRoles) ==>
          c.evidence.Some? && c.evidence.value != [] && forall e :: e in c.evidence.value ==> ValidEvidence(e, s))
  }

  /** A criterion that waits for outside evidence and says so properly. */
  predicate BlockedCriterion(c: RawCriterion, s: Settings) {
    c.Criterion? && c.text != "" && !c.checked && c.blocker.Some? && ValidBlocker(c.blocker.value, s)
  }

  lemma {:induction false} CriterionAccepted(c: RawCriterion, index: nat, cp: RawCheckpoint, id: string, s: Settings)
    ensures var notes := CriterionNotes(c, index, cp, id, s);
            && notes.open == []
            && (notes.findings == [] <==>
                  SatisfiedCriterion(c, cp.role, s) || (BlockedCriterion(c, s) && cp.status != s.completedStatus))
            && (notes.findings == [] && SatisfiedCriterion(c, cp.role, s) ==> notes.blockers == [] && notes.unchecked == [])
            && (notes.findings == [] && BlockedCriterion(c, s) ==>
                  && notes.blockers == [Blocker(c.blocker.value.code, id, cp.role, index)]
                  && notes.unchecked == [Unchecked(id, cp.role, index, ExternalEvidenceMissing)])
  {
    if c.Criterion? {
      EvidenceAccepted(c.evidence, Details(id, cp.role, index), s);
    }
  }

  // ---------- one checkpoint

  function CheckpointId(cp: RawCheckpoint, index: nat): string {
    if cp.declaredId != "" then cp.declaredId else "checkpoint-index-" + Decimal(index)
  }

  function Decimal(n: nat): string {
    if n < 10 then ["0123456789"[n]] else Decimal(n / 10) + ["0123456789"[n % 10]]
  }

  /** The prerequisite ids that are non-empty strings, repetitions included. */
  function PrerequisiteTexts(items: seq<Option<string>>): seq<string> {
    if items == [] then []
    else (if items[0].Some? && items[0].value != "" then [items[0].value] else []) + PrerequisiteTexts(items[1..])
  }

  function DeclaredPrerequisites(cp: RawCheckpoint): seq<string> {
    if cp.prerequisites.Some? then PrerequisiteTexts(cp.prerequisites.value) else []
  }

  predicate NoRepeats(values: seq<string>) {
    forall i, j :: 0 <= i < j < |values| ==> values[i] != values[j]
  }

  function PrerequisiteVisit(cp: RawCheckpoint, id: string): (Option<string>, nat) -> Notes {
    (p: Option<string>, i: nat) =>
      NOTHING.ThenIf(p.None? || p.value == "", About(PrerequisiteIdInvalid, id, cp.role))
  }

  function PrerequisiteNotes(cp: RawCheckpoint, id: string): Notes {
    if cp.prerequisites.None? then Found(About(PrerequisitesNotArray, id, cp.role))
    else Gather(cp.prerequisites.value, |cp.prerequisites.value|, PrerequisiteVisit(cp, id))
  }

  function HeadNotes(cp: RawCheckpoint, id: string, s: Settings): Notes {
    NOTHING
      .ThenIf(!cp.isObject, About(CheckpointNotObject, id, ""))
      .ThenIf(cp.declaredId == "", About(IdMissing, id, ""))
      .ThenIf(cp.role == "", About(RoleMissing, id, ""))
      .ThenIf(cp.status !in s.allowedStatuses, About(StatusInvalid, id, cp.role))
  }

  function ShapeNotes(cp: RawCheckpoint, id: string, s: Settings): Notes {
    var head := HeadNotes(cp, id, s)
      .Then(PrerequisiteNotes(cp, id))
      .ThenIf(!NoRepeats(DeclaredPrerequisites(cp)), About(PrerequisiteDuplicate, id, cp.role));
    if CriteriaOf(cp) == [] then
      head.Then(NOTHING.(findings := [About(CriteriaMissing, id, cp.role)],
                         unchecked := [Unchecked(id, cp.role, -1, CriteriaAbsent)]))
    else head
  }

  function CriteriaOf(cp: RawCheckpoint): seq<RawCriterion> {
    if cp.criteria.Some? then cp.criteria.value else []
  }

  function CriteriaNotes(cp: RawCheckpoint, id: string, s: Settings): Notes {
    Gather(CriteriaOf(cp), |CriteriaOf(cp)|, CriterionVisit(cp, id, s))
  }

  function StatusNotes(cp: RawCheckpoint, id: string, blockerCount: nat, s: Settings): Notes {
    if cp.status == s.completedStatus then NOTHING
    else
      var open := NOTHING.(open := [OpenCheckpoint(id, cp.role, if cp.status == "" then "invalid" else cp.status)]);
      if cp.status != BLOCKED_STATUS then open.Then(Found(About(NotCompleted, id, cp.role)))
      else open.ThenIf(blockerCount == 0, About(BlockedWithoutExternalEvidence, id, cp.role))
  }

  function CheckpointNotes(cp: RawCheckpoint, index: nat, s: Settings): Notes {
    var id := CheckpointId(cp, index);
    var criteria := CriteriaNotes(cp, id, s);
    var body := ShapeNotes(cp, id, s).Then(criteria);
    if cp.status == s.completedStatus then body else body.Then(StatusNotes(cp, id, |criteria.blockers|, s))
  }

  function CheckpointVisit(s: Settings): (RawCheckpoint, nat) -> Notes {
    (cp: RawCheckpoint, i: nat) => CheckpointNotes(cp, i, s)
  }

  method ReviewHead(cp: RawCheckpoint, id: string, s: Settings) returns (notes: Notes)
    ensures notes == HeadNotes(cp, id, s)
  {
    notes := NOTHING;
    if !cp.isObject { notes := notes.Then(Found(About(CheckpointNotObject, id, ""))); }
    if cp.declaredId == "" { notes := notes.Then(Found(About(IdMissing, id, ""))); }
    if cp.role == "" { notes := notes.Then(Found(About(RoleMissing, id, ""))); }
    if cp.status !in s.allowedStatuses { notes := notes.Then(Found(About(StatusInvalid, id, cp.role))); }
  }

  method ReviewCheckpoint(cp: RawCheckpoint, index: nat, s: Settings) returns (notes: Notes)
    ensures notes == CheckpointNotes(cp, index, s)
  {
    var id := CheckpointId(cp, index);
    notes := ReviewHead(cp, id, s);
    var prerequisites := ReviewPrerequisites(cp, id);
    notes := notes.Then(prerequisites);
    if !NoRepeats(DeclaredPrerequisites(cp)) {
      notes := notes.Then(Found(About(PrerequisiteDuplicate, id, cp.role)));
    }
    if cp.criteria.None? || |cp.criteria.value| == 0 {
      notes := notes.Then(NOTHING.(findings := [About(CriteriaMissing, id, cp.role)],
                                   unchecked := [Unchecked(id, cp.role, -1, CriteriaAbsent)]));
    }
    assert notes == ShapeNotes(cp, id, s);
    var criteria := ReviewCriteria(cp, id, s);
    notes := notes.Then(criteria);
    if cp.status != s.completedStatus {
      var status := NOTHING.(open := [OpenCheckpoint(id, cp.role, if cp.status == "" then "invalid" else cp.status)]);
      if cp.status != BLOCKED_STATUS {
        status := status.Then(Found(About(NotCompleted, id, cp.role)));
      } else if |criteria.blockers| == 0 {
        status := status.Then(Found(About(BlockedWithoutExternalEvidence, id, cp.role)));
      }
      notes := notes.Then(status);
    }
  }

  method ReviewPrerequisites(cp: RawCheckpoint, id: string) returns (notes: Notes)
    ensures notes == PrerequisiteNotes(cp, id)
  {
    if cp.prerequisites.None? {
      return Found(About(PrerequisitesNotArray, id, cp.role));
    }
    var items := cp.prerequisites.value;
    notes := NOTHING;
    for i := 0 to |items|
      invariant notes == Gather(items, i, PrerequisiteVisit(cp, id))
    {
      var own := NOTHING;
      if items[i].None? || items[i].value == "" {
        own := own.Then(Found(About(PrerequisiteIdInvalid, id, cp.role)));
      }
      notes := notes.Then(own);
    }
  }

  method ReviewCriteria(cp: RawCheckpoint, id: string, s: Settings) returns (notes: Notes)
    ensures notes == CriteriaNotes(cp, id, s)
  {
    var criteria := if cp.criteria.Some? then cp.criteria.value else [];
    notes := NOTHING;
    for i := 0 to |criteria|
      invariant notes == Gather(criteria, i, CriterionVisit(cp, id, s))
    {
      var c, d, own := criteria[i], Details(id, cp.role, i), NOTHING;
      if c.NotAnObject? || c.text == "" {
        own := NOTHING.(unchecked := [Unchecked(id, cp.role, i, Invalid)], findings := [d.Note(CriterionInvalid)]);
      } else if c.checked {
        if c.blocker.Some? {
          own := own.Then(Found(d.Note(CheckedCriterionHasBlocker)));
        }
        if cp.role in UniqueStrings(s.requiredRoles) {
          var evidence := ValidateEvidenceEntries(c.evidence, d, s);
          own := own.Then(evidence);
        }
      } else if c.blocker.Some? {
        var valid := ValidBlocker(c.blocker.value, s);
        if valid {
          own := NOTHING.(blockers := [Blocker(c.blocker.value.code, id, cp.role, i)]);
        } else {
          own := Found(d.Note(ExternalBlockerInvalid));
        }
        var reason := if valid then ExternalEvidenceMissing else InvalidExternalBlocker;
        own := own.Then(NOTHING.(unchecked := [Unchecked(id, cp.role, i, reason)]));
        if cp.status == s.completedStatus {
          own := own.Then(Found(d.Note(CompletedWithBlockedCriterion)));
        }
      } else {
        own := NOTHING.(unchecked := [Unchecked(id, cp.role, i, NotChecked)], findings := [d.Note(CriterionUnchecked)]);
      }
      notes := notes.Then(own);
    }
  }

  // ---------- when a checkpoint passes

  /** The shape every checkpoint must have. */
  predicate WellFormed(cp: RawCheckpoint, s: Settings) {
    && cp.isObject && cp.declaredId != "" && cp.role != "" && cp.status in s.allowedStatuses
    && cp.prerequisites.Some?
    && (forall p :: p in cp.prerequisites.value ==> IsId(p))
    && NoRepeats(DeclaredPrerequisites(cp))
    && cp.criteria.Some? && cp.criteria.value != []
  }

  predicate CompletedCheckpoint(cp: RawCheckpoint, s: Settings) {
    && WellFormed(cp, s)
    && cp.status == s.completedStatus
    && forall c :: c in CriteriaOf(cp) ==> SatisfiedCriterion(c, cp.role, s)
  }

  /** A checkpoint that waits properly: every criterion is done or blocked, one at least blocked. */
  predicate BlockedCheckpoint(cp: RawCheckpoint, s: Settings) {
    && WellFormed(cp, s)
    && cp.status == BLOCKED_STATUS != s.completedStatus
    && (forall c :: c in CriteriaOf(cp) ==> SatisfiedCriterion(c, cp.role, s) || BlockedCriterion(c, s))
    && exists c :: c in CriteriaOf(cp) && BlockedCriterion(c, s)
  }

  predicate IsId(p: Option<string>) {
    p.Some? && p.value != ""
  }

  lemma {:induction false} PrerequisitesAccepted(cp: RawCheckpoint, id: string)
    ensures var notes := PrerequisiteNotes(cp, id);
            && (notes.findings == [] <==> cp.prerequisites.Some? && forall p :: p in cp.prerequisites.value ==> IsId(p))
            && notes.unchecked == [] && notes.blockers == [] && notes.open == []
  {
    if cp.prerequisites.Some? {
      var items := cp.prerequisites.value;
      PrerequisitesGathered(items, |items|, cp, id);
      assert items[..|items|] == items;
    }
  }

  lemma {:induction false} ShapeAccepted(cp: RawCheckpoint, id: string, s: Settings)
    ensures ShapeNotes(cp, id, s).findings == [] <==> WellFormed(cp, s)
    ensures ShapeNotes(cp, id, s).blockers == [] && ShapeNotes(cp, id, s).open == []
    ensures WellFormed(cp, s) ==> ShapeNotes(cp, id, s).unchecked == []
  {
    HeadAccepted(cp, id, s);
    PrerequisitesAccepted(cp, id);
    QuietThen(HeadNotes(cp, id, s), PrerequisiteNotes(cp, id));
  }

  lemma {:induction false} HeadAccepted(cp: RawCheckpoint, id: string, s: Settings)
    ensures HeadNotes(cp, id, s).findings == [] <==>
            cp.isObject && cp.declaredId != "" && cp.role != "" && cp.status in s.allowedStatuses
    ensures OnlyBinds(HeadNotes(cp, id, s))
  {
  }

  lemma {:induction false} QuietThen(a: Notes, b: Notes)
    requires OnlyBinds(a) && OnlyBinds(b)
    ensures OnlyBinds(a.Then(b)) && (a.Then(b).findings == [] <==> a.findings == [] && b.findings == [])
  {
  }

  lemma {:induction false} PrerequisitesGathered(items: seq<Option<string>>, n: nat, cp: RawCheckpoint, id: string)
    requires n <= |items|
    ensures var notes := Gather(items, n, PrerequisiteVisit(cp, id));
            && (notes.findings == [] <==> forall p :: p in items[..n] ==> IsId(p))
            && notes.unchecked == [] && notes.blockers == [] && notes.open == []
  {
    if n > 0 {
      PrerequisitesGathered(items, n - 1, cp, id);
      assert items[..n] == items[..n - 1] + [items[n - 1]];
      assert forall p :: p in items[..n] <==> p in items[..n - 1] || p == items[n - 1];
      var own := PrerequisiteVisit(cp, id)(items[n - 1], n - 1);
      assert own.findings == [] <==> IsId(items[n - 1]);
    } else {
      assert items[..0] == [];
    }
  }

  /** One unchecked entry per blocker, about the same criterion. */
  predicate MatchOneForOne(unchecked: seq<Unchecked>, blockers: seq<Blocker>) {
    && |unchecked| == |blockers|
    && forall i :: 0 <= i < |blockers| ==>
         && unchecked[i] == Unchecked(blockers[i].checkpointId, blockers[i].role, blockers[i].criterion, ExternalEvidenceMissing)
  }

  /** Passes that each match one for one add up to a pass that does. */
  lemma {:induction false} GatherMatches<T>(items: seq<T>, n: nat, visit: (T, nat) -> Notes)
    requires n <= |items|
    requires forall i :: 0 <= i < n ==> MatchOneForOne(visit(items[i], i).unchecked, visit(items[i], i).blockers)
    ensures MatchOneForOne(Gather(items, n, visit).unchecked, Gather(items, n, visit).blockers)
  {
    if n > 0 {
      GatherMatches(items, n - 1, visit);
    }
  }

  lemma {:induction false} CriteriaAccepted(cp: RawCheckpoint, id: string, s: Settings)
    ensures var notes := CriteriaNotes(cp, id, s);
            && notes.open == []
            && (notes.findings == [] <==>
                  forall c :: c in CriteriaOf(cp) ==>
                    SatisfiedCriterion(c, cp.role, s) || (BlockedCriterion(c, s) && cp.status != s.completedStatus))
            && (notes.findings == [] ==>
                  && MatchOneForOne(notes.unchecked, notes.blockers)
                  && (notes.blockers == [] <==> forall c :: c in CriteriaOf(cp) ==> SatisfiedCriterion(c, cp.role, s)))
  {
    var items, visit := CriteriaOf(cp), CriterionVisit(cp, id, s);
    forall i | 0 <= i < |items|
      ensures visit(items[i], i).open == []
      ensures visit(items[i], i).findings == [] <==>
              SatisfiedCriterion(items[i], cp.role, s) || (BlockedCriterion(items[i], s) && cp.status != s.completedStatus)
      ensures visit(items[i], i).findings == [] ==>
              && MatchOneForOne(visit(items[i], i).unchecked, visit(items[i], i).blockers)
              && (visit(items[i], i).blockers == [] <==> SatisfiedCriterion(items[i], cp.role, s))
    {
      CriterionAccepted(items[i], i, cp, id, s);
    }
    GatherFindings(items, |items|, visit);
    GatherBlockers(items, |items|, visit);
    GatherOpen(items, |items|, visit);
    if Gather(items, |items|, visit).findings == [] {
      GatherMatches(items, |items|, visit);
    }
  }

  /** A checkpoint leaves no finding exactly when it is completed or properly blocked. */
  lemma {:induction false} CheckpointAccepted(cp: RawCheckpoint, index: nat, s: Settings)
    ensures var notes := CheckpointNotes(cp, index, s);
            && (notes.findings == [] <==> CompletedCheckpoint(cp, s) || BlockedCheckpoint(cp, s))
            && (notes.findings == [] ==> MatchOneForOne(notes.unchecked, notes.blockers))
            && (CompletedCheckpoint(cp, s) ==> notes.blockers == [] && notes.open == [])
            && (BlockedCheckpoint(cp, s) ==>
                  && notes.blockers != []
                  && notes.open == [OpenCheckpoint(CheckpointId(cp, index), cp.role, BLOCKED_STATUS)])
  {
    var id := CheckpointId(cp, index);
    var shape, criteria := ShapeNotes(cp, id, s), CriteriaNotes(cp, id, s);
    ShapeAccepted(cp, id, s);
    CriteriaAccepted(cp, id, s);
    BlockersTell(cp, id, s);
    BodyParts(shape, criteria);
    if cp.status != s.completedStatus {
      var status := StatusNotes(cp, id, |criteria.blockers|, s);
      StatusParts(cp, id, |criteria.blockers|, s);
      WithStatus(shape.Then(criteria), status);
    }
  }

  /** No criterion is both satisfied and blocked, so without findings blockers tell which there are. */
  lemma {:induction false} BlockersTell(cp: RawCheckpoint, id: string, s: Settings)
    requires CriteriaNotes(cp, id, s).findings == []
             ==> (CriteriaNotes(cp, id, s).blockers == [] <==> forall c :: c in CriteriaOf(cp) ==> SatisfiedCriterion(c, cp.role, s))
    requires CriteriaNotes(cp, id, s).findings == [] <==>
             forall c :: c in CriteriaOf(cp) ==>
               SatisfiedCriterion(c, cp.role, s) || (BlockedCriterion(c, s) && cp.status != s.completedStatus)
    ensures WellFormed(cp, s) && cp.status == s.completedStatus ==>
            (CriteriaNotes(cp, id, s).findings == [] <==> CompletedCheckpoint(cp, s))
            && (CompletedCheckpoint(cp, s) ==> CriteriaNotes(cp, id, s).blockers == [])
    ensures WellFormed(cp, s) && cp.status == BLOCKED_STATUS != s.completedStatus ==>
            (CriteriaNotes(cp, id, s).findings == [] && CriteriaNotes(cp, id, s).blockers != [] <==> BlockedCheckpoint(cp, s))
  {
    forall c | c in CriteriaOf(cp) ensures !(SatisfiedCriterion(c, cp.role, s) && BlockedCriterion(c, s)) {
    }
  }

  lemma {:induction false} BodyParts(shape: Notes, criteria: Notes)
    requires shape.blockers == [] && shape.open == [] && criteria.open == []
    ensures var body := shape.Then(criteria);
            && (body.findings == [] <==> shape.findings == [] && criteria.findings == [])
            && body.blockers == criteria.blockers && body.open == []
            && (shape.unchecked == [] ==> body.unchecked == criteria.unchecked)
  {
  }

  lemma {:induction false} StatusParts(cp: RawCheckpoint, id: string, blockerCount: nat, s: Settings)
    requires cp.status != s.completedStatus
    ensures var notes := StatusNotes(cp, id, blockerCount, s);
            && (notes.findings == [] <==> cp.status == BLOCKED_STATUS && blockerCount > 0)
            && notes.unchecked == [] && notes.blockers == []
            && (cp.status == BLOCKED_STATUS ==> notes.open == [OpenCheckpoint(id, cp.role, BLOCKED_STATUS)])
  {
    assert BLOCKED_STATUS != "";
  }

  lemma {:induction false} WithStatus(body: Notes, status: Notes)
    requires body.open == [] && status.unchecked == [] && status.blockers == []
    ensures var notes := body.Then(status);
            && (notes.findings == [] <==> body.findings == [] && status.findings == [])
            && notes.blockers == body.blockers && notes.unchecked == body.unchecked && notes.open == status.open
  {
  }
}
