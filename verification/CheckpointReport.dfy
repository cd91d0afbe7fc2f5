/** The report of the checkpoint reducer item by item: each item is due to one place of the raw input,
    every place that owes an item has it once, and the items stand in the order of their places. */
module CheckpointReport {
  import opened Wrappers
  import opened CheckpointRules

  /** A place of the input: a checkpoint, a part of it, an entry of that part, or -1, and a check made there.
      Parts from 0 on are the criteria, whose entries are their evidence; the part after the last is the status. */
  datatype Place = Place(checkpoint: nat, part: int, entry: int, check: int)

  const FIELDS := -4
  const PREREQUISITES := -3
  const REPEATS := -2
  const CRITERIA := -1

  predicate Before(p: Place, q: Place) {
    || p.checkpoint < q.checkpoint
    || (p.checkpoint == q.checkpoint && p.part < q.part)
    || (p.checkpoint == q.checkpoint && p.part == q.part && p.entry < q.entry)
    || (p.checkpoint == q.checkpoint && p.part == q.part && p.entry == q.entry && p.check < q.check)
  }

  predicate Within(p: Place, from: Place, to: Place) {
    !Before(p, from) && Before(p, to)
  }

  function Next(p: Place): Place { p.(check := p.check + 1) }

  // ---------- what is due where, read off the raw input

  /** The evidence that a criterion has to give: it is checked, and its checkpoint's role is a required one. */
  predicate Evidenced(c: RawCriterion, role: string, s: Settings) {
    c.Criterion? && c.text != "" && c.checked && role != "" && role in s.requiredRoles
  }

  function EntriesOf(c: RawCriterion): seq<RawEvidence> {
    if c.Criterion? && c.evidence.Some? then c.evidence.value else []
  }

  function When<V>(due: bool, v: V): Option<V> { if due then Some(v) else None }

  function FieldFinding(cp: RawCheckpoint, id: string, s: Settings, p: Place): Option<Finding> {
    if p.part == FIELDS && p.entry == -1 then
      match p.check
      case 0 => When(!cp.isObject, Finding(CheckpointNotObject, id, "", "", -1, []))
      case 1 => When(cp.declaredId == "", Finding(IdMissing, id, "", "", -1, []))
      case 2 => When(cp.role == "", Finding(RoleMissing, id, "", "", -1, []))
      case 3 => When(cp.status !in s.allowedStatuses, Finding(StatusInvalid, id, cp.role, "", -1, []))
      case _ => None
    else if p.part == PREREQUISITES && p.check == 0 then
      match cp.prerequisites
      case None => When(p.entry == -1, Finding(PrerequisitesNotArray, id, cp.role, "", -1, []))
      case Some(items) =>
        When(0 <= p.entry < |items| && (items[p.entry].None? || items[p.entry].value == ""),
             Finding(PrerequisiteIdInvalid, id, cp.role, "", -1, []))
    else if p.part == REPEATS && p.entry == -1 && p.check == 0 then
      When(RepeatsPrerequisite(cp), Finding(PrerequisiteDuplicate, id, cp.role, "", -1, []))
    else if p.part == CRITERIA && p.entry == -1 && p.check == 0 then
      When(cp.criteria.None? || cp.criteria.value == [], Finding(CriteriaMissing, id, cp.role, "", -1, []))
    else None
  }

  /** Two prerequisites name the same id. */
  predicate RepeatsPrerequisite(cp: RawCheckpoint) {
    cp.prerequisites.Some? && Repeats(cp.prerequisites.value)
  }

  predicate Repeats(ps: seq<Option<string>>) {
    exists i, j :: 0 <= i < j < |ps| && NamesId(ps[i]) && ps[i] == ps[j]
  }

  predicate NamesId(p: Option<string>) { p.Some? && p.value != "" }

  /** What an external blocker must state to count as one. */
  predicate StatesBlocker(b: RawBlocker, s: Settings) {
    && b.externalKind && s.isBlockerCode(b.code) && b.description != ""
    && b.verificationCommand != "" && !s.isSelfReferential(b.verificationCommand)
    && exists e :: e in b.requiredEvidence && e != ""
  }

  function CriterionFinding(c: RawCriterion, cp: RawCheckpoint, id: string, s: Settings, p: Place): Option<Finding> {
    if c.NotAnObject? || c.text == "" then When(p.check == 0, Finding(CriterionInvalid, id, cp.role, "", p.part, []))
    else if c.checked then
      match p.check
      case 0 => When(c.blocker.Some?, Finding(CheckedCriterionHasBlocker, id, cp.role, "", p.part, []))
      case 1 => When(Evidenced(c, cp.role, s) && EntriesOf(c) == [], Finding(EvidenceMissing, id, cp.role, "", p.part, []))
      case _ => None
    else if c.blocker.Some? then
      match p.check
      case 0 => When(!StatesBlocker(c.blocker.value, s), Finding(ExternalBlockerInvalid, id, cp.role, "", p.part, []))
      case 1 => When(cp.status == s.completedStatus, Finding(CompletedWithBlockedCriterion, id, cp.role, "", p.part, []))
      case _ => None
    else When(p.check == 0, Finding(CriterionUnchecked, id, cp.role, "", p.part, []))
  }

  function EntryFinding(e: RawEvidence, cp: RawCheckpoint, id: string, s: Settings, p: Place): Option<Finding> {
    match p.check
    case 0 => When(e.hasCommand, Finding(EvidenceCommandForbidden, id, cp.role, "", p.part, []))
    case 1 =>
      if e.commandId == "" then Some(Finding(EvidenceCommandIdInvalid, id, cp.role, "", p.part, []))
      else When(e.commandId !in s.authority, Finding(EvidenceCommandIdUnknown, id, cp.role, "", p.part, []))
    case 2 =>
      if e.commandId == "" || e.report.None? then None
      else if !s.isReportPath(e.report.value) then Some(Finding(EvidenceReportInvalid, id, cp.role, "", p.part, []))
      else When(e.report.value != "" && e.commandId in s.authority && e.report.value !in s.authority[e.commandId],
                Finding(EvidenceReportNotOwned, id, cp.role, "", p.part, []))
    case _ => None
  }

  function StatusFinding(cp: RawCheckpoint, id: string, s: Settings): Option<Finding> {
    if cp.status == s.completedStatus then None
    else if cp.status != BLOCKED_STATUS then Some(Finding(NotCompleted, id, cp.role, "", -1, []))
    else When(forall c :: c in CriteriaOf(cp) ==> !Blocks(c, s), Finding(BlockedWithoutExternalEvidence, id, cp.role, "", -1, []))
  }

  /** An unchecked criterion with a proper external blocker. */
  predicate Blocks(c: RawCriterion, s: Settings) {
    c.Criterion? && c.text != "" && !c.checked && c.blocker.Some? && StatesBlocker(c.blocker.value, s)
  }

  function FindingAt(cp: RawCheckpoint, id: string, s: Settings, p: Place): Option<Finding> {
    var criteria := CriteriaOf(cp);
    if p.part < 0 then FieldFinding(cp, id, s, p)
    else if p.part < |criteria| then
      if p.entry == -1 then CriterionFinding(criteria[p.part], cp, id, s, p)
      else if Evidenced(criteria[p.part], cp.role, s) && 0 <= p.entry < |EntriesOf(criteria[p.part])| then
        EntryFinding(EntriesOf(criteria[p.part])[p.entry], cp, id, s, p)
      else None
    else if p.part == |criteria| && p.entry == -1 && p.check == 0 then StatusFinding(cp, id, s)
    else None
  }

  /** Each criterion that is not checked is listed with the reason, and so is the absence of criteria. */
  function UncheckedAt(cp: RawCheckpoint, id: string, s: Settings, p: Place): Option<Unchecked> {
    var criteria := CriteriaOf(cp);
    if p.entry != -1 || p.check != 0 then None
    else if p.part == CRITERIA then When(criteria == [], Unchecked(id, cp.role, -1, CriteriaAbsent))
    else if !(0 <= p.part < |criteria|) then None
    else
      var c := criteria[p.part];
      if c.NotAnObject? || c.text == "" then Some(Unchecked(id, cp.role, p.part, Invalid))
      else if c.checked then None
      else if c.blocker.None? then Some(Unchecked(id, cp.role, p.part, NotChecked))
      else if StatesBlocker(c.blocker.value, s) then Some(Unchecked(id, cp.role, p.part, ExternalEvidenceMissing))
      else Some(Unchecked(id, cp.role, p.part, InvalidExternalBlocker))
  }

  /** Each unchecked criterion with a proper external blocker gives that blocker. */
  function BlockerAt(cp: RawCheckpoint, id: string, s: Settings, p: Place): Option<Blocker> {
    var criteria := CriteriaOf(cp);
    if p.entry == -1 && p.check == 0 && 0 <= p.part < |criteria| && Blocks(criteria[p.part], s) then
      Some(Blocker(criteria[p.part].blocker.value.code, id, cp.role, p.part))
    else None
  }

  /** Each piece of evidence that a criterion has to give is bound to its command, if it names one. */
  function BindingAt(cp: RawCheckpoint, id: string, s: Settings, p: Place): Option<Binding> {
    var criteria := CriteriaOf(cp);
    if p.check == 3 && 0 <= p.part < |criteria| && Evidenced(criteria[p.part], cp.role, s)
       && 0 <= p.entry < |EntriesOf(criteria[p.part])| && EntriesOf(criteria[p.part])[p.entry].commandId != "" then
      var e := EntriesOf(criteria[p.part])[p.entry];
      Some(Binding(e.commandId, if e.report.Some? then e.report.value else "", id, cp.role, p.part, p.entry))
    else None
  }

  /** Each checkpoint that is not completed is open. */
  function OpenAt(cp: RawCheckpoint, id: string, s: Settings, p: Place): Option<OpenCheckpoint> {
    When(p.part == |CriteriaOf(cp)| && p.entry == -1 && p.check == 0 && cp.status != s.completedStatus,
         OpenCheckpoint(id, cp.role, if cp.status == "" then "invalid" else cp.status))
  }

  /** The five tables of what is due where. */
  datatype Dues = Dues(
    finding: Place -> Option<Finding>,
    unchecked: Place -> Option<Unchecked>,
    blocker: Place -> Option<Blocker>,
    binding: Place -> Option<Binding>,
    open: Place -> Option<OpenCheckpoint>
  )

  function DuesOf(items: seq<RawCheckpoint>, s: Settings): Dues {
    Dues(
      (p: Place) => if p.checkpoint < |items| then FindingAt(items[p.checkpoint], CheckpointId(items[p.checkpoint], p.checkpoint), s, p) else None,
      (p: Place) => if p.checkpoint < |items| then UncheckedAt(items[p.checkpoint], CheckpointId(items[p.checkpoint], p.checkpoint), s, p) else None,
      (p: Place) => if p.checkpoint < |items| then BlockerAt(items[p.checkpoint], CheckpointId(items[p.checkpoint], p.checkpoint), s, p) else None,
      (p: Place) => if p.checkpoint < |items| then BindingAt(items[p.checkpoint], CheckpointId(items[p.checkpoint], p.checkpoint), s, p) else None,
      (p: Place) => if p.checkpoint < |items| then OpenAt(items[p.checkpoint], CheckpointId(items[p.checkpoint], p.checkpoint), s, p) else None)
  }

  // ---------- lists that hold exactly what is due, in order

  ghost predicate ListsAt<V>(xs: seq<V>, places: seq<Place>, due: Place -> Option<V>, from: Place, to: Place) {
    && |places| == |xs|
    && (forall i :: 0 <= i < |xs| ==> Within(places[i], from, to) && due(places[i]) == Some(xs[i]))
    && (forall i, j :: 0 <= i < j < |places| ==> Before(places[i], places[j]))
    && forall p :: Within(p, from, to) && due(p).Some? ==> p in places
  }

  /** What is due from one place up to another, each item once and in the order of their places. */
  ghost predicate Lists<V>(xs: seq<V>, due: Place -> Option<V>, from: Place, to: Place) {
    exists places :: ListsAt(xs, places, due, from, to)
  }

  lemma {:induction false} BetweenBefore(p: Place, q: Place, from: Place, mid: Place, to: Place)
    requires Within(p, from, mid) && Within(q, mid, to)
    ensures Before(p, q) && Within(p, from, to) && Within(q, from, to)
  {
  }

  lemma {:induction false} ListsJoin<V>(xs: seq<V>, ys: seq<V>, due: Place -> Option<V>, a: Place, b: Place, c: Place)
    requires Lists(xs, due, a, b) && Lists(ys, due, b, c) && !Before(b, a) && !Before(c, b)
    ensures Lists(xs + ys, due, a, c)
  {
    var ps :| ListsAt(xs, ps, due, a, b);
    var qs :| ListsAt(ys, qs, due, b, c);
    PlacesJoin(xs, ps, ys, qs, due, a, b, c);
  }

  lemma {:induction false} InOrder(ps: seq<Place>, qs: seq<Place>, a: Place, b: Place, c: Place)
    requires forall i :: 0 <= i < |ps| ==> Within(ps[i], a, b)
    requires forall i :: 0 <= i < |qs| ==> Within(qs[i], b, c)
    requires forall i, j :: 0 <= i < j < |ps| ==> Before(ps[i], ps[j])
    requires forall i, j :: 0 <= i < j < |qs| ==> Before(qs[i], qs[j])
    ensures forall i, j :: 0 <= i < j < |ps + qs| ==> Before((ps + qs)[i], (ps + qs)[j])
  {
    forall i, j | 0 <= i < j < |ps + qs| ensures Before((ps + qs)[i], (ps + qs)[j]) {
      if i < |ps| <= j { BetweenBefore(ps[i], qs[j - |ps|], a, b, c); }
    }
  }

  lemma {:induction false} InRange(p: Place, a: Place, b: Place, c: Place)
    requires !Before(b, a) && !Before(c, b)
    ensures Within(p, a, c) <==> Within(p, a, b) || Within(p, b, c)
  {
  }

  lemma {:induction false} PlacesJoin<V>(xs: seq<V>, ps: seq<Place>, ys: seq<V>, qs: seq<Place>, due: Place -> Option<V>,
                                         a: Place, b: Place, c: Place)
    requires ListsAt(xs, ps, due, a, b) && ListsAt(ys, qs, due, b, c) && !Before(b, a) && !Before(c, b)
    ensures ListsAt(xs + ys, ps + qs, due, a, c)
  {
    InOrder(ps, qs, a, b, c);
    forall i | 0 <= i < |xs + ys| ensures Within((ps + qs)[i], a, c) && due((ps + qs)[i]) == Some((xs + ys)[i]) {
      InRange((ps + qs)[i], a, b, c);
    }
    forall p | Within(p, a, c) && due(p).Some? ensures p in ps + qs {
      InRange(p, a, b, c);
    }
  }

  function Listed<V>(o: Option<V>): seq<V> {
    if o.Some? then [o.value] else []
  }

  lemma {:induction false} ListsOne<V>(due: Place -> Option<V>, p: Place)
    ensures Lists(Listed(due(p)), due, p, Next(p))
  {
    assert forall q :: Within(q, p, Next(p)) ==> q == p;
    assert ListsAt(Listed(due(p)), if due(p).Some? then [p] else [], due, p, Next(p));
  }

  lemma {:induction false} ListsNone<V>(due: Place -> Option<V>, from: Place, to: Place)
    requires forall p :: Within(p, from, to) ==> due(p).None?
    ensures Lists([], due, from, to)
  {
    assert ListsAt([], [], due, from, to);
  }

  /** The notes hold exactly what all five tables say is due from one place up to another. */
  ghost predicate Accounts(notes: Notes, t: Dues, from: Place, to: Place) {
    && Lists(notes.findings, t.finding, from, to)
    && Lists(notes.unchecked, t.unchecked, from, to)
    && Lists(notes.blockers, t.blocker, from, to)
    && Lists(notes.bindings, t.binding, from, to)
    && Lists(notes.open, t.open, from, to)
  }

  lemma {:induction false} AccountsJoin(a: Notes, b: Notes, t: Dues, from: Place, mid: Place, to: Place)
    requires Accounts(a, t, from, mid) && Accounts(b, t, mid, to) && !Before(mid, from) && !Before(to, mid)
    ensures Accounts(a.Then(b), t, from, to)
  {
    ListsJoin(a.findings, b.findings, t.finding, from, mid, to);
    ListsJoin(a.unchecked, b.unchecked, t.unchecked, from, mid, to);
    ListsJoin(a.blockers, b.blockers, t.blocker, from, mid, to);
    ListsJoin(a.bindings, b.bindings, t.binding, from, mid, to);
    ListsJoin(a.open, b.open, t.open, from, mid, to);
  }

  /** The notes are exactly what is due at one place. */
  ghost predicate Fits(notes: Notes, t: Dues, p: Place) {
    && notes.findings == Listed(t.finding(p)) && notes.unchecked == Listed(t.unchecked(p))
    && notes.blockers == Listed(t.blocker(p)) && notes.bindings == Listed(t.binding(p)) && notes.open == Listed(t.open(p))
  }

  lemma {:induction false} FitsAccounts(notes: Notes, t: Dues, p: Place)
    requires Fits(notes, t, p)
    ensures Accounts(notes, t, p, Next(p))
  {
    ListsOne(t.finding, p);
    ListsOne(t.unchecked, p);
    ListsOne(t.blocker, p);
    ListsOne(t.binding, p);
    ListsOne(t.open, p);
  }

  /** Nothing is due from one place up to another. */
  ghost predicate Quiet(t: Dues, from: Place, to: Place) {
    forall p :: Within(p, from, to) ==>
      t.finding(p).None? && t.unchecked(p).None? && t.blocker(p).None? && t.binding(p).None? && t.open(p).None?
  }

  lemma {:induction false} QuietAccounts(t: Dues, from: Place, to: Place)
    requires Quiet(t, from, to)
    ensures Accounts(NOTHING, t, from, to)
  {
    ListsNone(t.finding, from, to);
    ListsNone(t.unchecked, from, to);
    ListsNone(t.blocker, from, to);
    ListsNone(t.binding, from, to);
    ListsNone(t.open, from, to);
  }

  /** One more check, after which nothing is due up to `to`. */
  lemma {:induction false} CheckThenQuiet(notes: Notes, more: Notes, t: Dues, from: Place, p: Place, to: Place)
    requires Accounts(notes, t, from, p) && Fits(more, t, p) && Quiet(t, Next(p), to)
    requires !Before(p, from) && Before(p, to)
    ensures Accounts(notes.Then(more), t, from, to)
  {
    FitsAccounts(more, t, p);
    AccountsJoin(notes, more, t, from, p, Next(p));
    QuietAccounts(t, Next(p), to);
    AccountsJoin(notes.Then(more), NOTHING, t, from, Next(p), to);
    ThenNothing(notes.Then(more));
  }

  lemma {:induction false} ThenNothing(notes: Notes)
    ensures notes.Then(NOTHING) == notes == NOTHING.Then(notes)
  {
    assert notes.findings + [] == notes.findings && notes.unchecked + [] == notes.unchecked && notes.blockers + [] == notes.blockers;
    assert notes.bindings + [] == notes.bindings && notes.open + [] == notes.open;
    assert [] + notes.findings == notes.findings && [] + notes.unchecked == notes.unchecked && [] + notes.blockers == notes.blockers;
    assert [] + notes.bindings == notes.bindings && [] + notes.open == notes.open;
  }

  lemma {:induction false} NothingYet(t: Dues, p: Place)
    ensures Accounts(NOTHING, t, p, p)
  {
    QuietAccounts(t, p, p);
  }

  /** What the `i`-th visit notes is what is due between two places. */
  ghost predicate VisitAccounts<T>(xs: seq<T>, i: nat, visit: (T, nat) -> Notes, t: Dues, at: nat -> Place)
    requires i < |xs|
  {
    Accounts(visit(xs[i], i), t, at(i), at(i + 1)) && !Before(at(i + 1), at(i))
  }

  lemma {:induction false} GatherAccounts<T>(xs: seq<T>, n: nat, visit: (T, nat) -> Notes, t: Dues, at: nat -> Place)
    requires n <= |xs|
    requires forall i :: 0 <= i < n ==> VisitAccounts(xs, i, visit, t, at)
    ensures Accounts(Gather(xs, n, visit), t, at(0), at(n)) && !Before(at(n), at(0))
  {
    if n == 0 {
      NothingYet(t, at(0));
    } else {
      GatherAccounts(xs, n - 1, visit, t, at);
      assert VisitAccounts(xs, n - 1, visit, t, at);
      AccountsJoin(Gather(xs, n - 1, visit), visit(xs[n - 1], n - 1), t, at(0), at(n - 1), at(n));
    }
  }

  // ---------- the reviews leave exactly what is due

  lemma {:induction false} Check(notes: Notes, when: bool, f: Finding, t: Dues, from: Place, p: Place)
    requires Accounts(notes, t, from, p) && Fits(NOTHING.ThenIf(when, f), t, p) && !Before(p, from)
    ensures Accounts(notes.ThenIf(when, f), t, from, Next(p))
  {
    ThenNothing(notes);
    ThenNothing(Found(f));
    FitsAccounts(NOTHING.ThenIf(when, f), t, p);
    AccountsJoin(notes, NOTHING.ThenIf(when, f), t, from, p, Next(p));
  }

  lemma {:induction false} Skip(notes: Notes, t: Dues, from: Place, p: Place, to: Place)
    requires Accounts(notes, t, from, p) && Quiet(t, p, to) && !Before(p, from) && !Before(to, p)
    ensures Accounts(notes, t, from, to)
  {
    QuietAccounts(t, p, to);
    AccountsJoin(notes, NOTHING, t, from, p, to);
    ThenNothing(notes);
  }

  /** Four checks made one after the other at the same place. */
  lemma {:induction false} FourChecks(t: Dues, p: Place, to: Place, a: bool, f: Finding, b: bool, g: Finding,
                                      c: bool, h: Finding, d: bool, i: Finding)
    requires Fits(NOTHING.ThenIf(a, f), t, p) && Fits(NOTHING.ThenIf(b, g), t, Next(p))
    requires Fits(NOTHING.ThenIf(c, h), t, Next(Next(p))) && Fits(NOTHING.ThenIf(d, i), t, Next(Next(Next(p))))
    requires Quiet(t, Next(Next(Next(Next(p)))), to) && Before(Next(Next(Next(Next(p)))), to)
    ensures Accounts(NOTHING.ThenIf(a, f).ThenIf(b, g).ThenIf(c, h).ThenIf(d, i), t, p, to)
  {
    NothingYet(t, p);
    var one := NOTHING.ThenIf(a, f);
    var two := one.ThenIf(b, g);
    var three := two.ThenIf(c, h);
    Check(NOTHING, a, f, t, p, p);
    Check(one, b, g, t, p, Next(p));
    Check(two, c, h, t, p, Next(Next(p)));
    Check(three, d, i, t, p, Next(Next(Next(p))));
    Skip(three.ThenIf(d, i), t, p, Next(Next(Next(Next(p)))), to);
  }

  lemma {:induction false} HeadFits(items: seq<RawCheckpoint>, s: Settings, k: nat)
    requires k < |items|
    ensures var t, cp, id := DuesOf(items, s), items[k], CheckpointId(items[k], k);
            && Fits(NOTHING.ThenIf(!cp.isObject, About(CheckpointNotObject, id, "")), t, Place(k, FIELDS, -1, 0))
            && Fits(NOTHING.ThenIf(cp.declaredId == "", About(IdMissing, id, "")), t, Place(k, FIELDS, -1, 1))
            && Fits(NOTHING.ThenIf(cp.role == "", About(RoleMissing, id, "")), t, Place(k, FIELDS, -1, 2))
            && Fits(NOTHING.ThenIf(cp.status !in s.allowedStatuses, About(StatusInvalid, id, cp.role)), t, Place(k, FIELDS, -1, 3))
            && Quiet(t, Place(k, FIELDS, -1, 4), Place(k, PREREQUISITES, -1, 0))
  {
  }

  lemma {:induction false} HeadAccounts(items: seq<RawCheckpoint>, s: Settings, k: nat)
    requires k < |items|
    ensures Accounts(HeadNotes(items[k], CheckpointId(items[k], k), s), DuesOf(items, s),
                     Place(k, FIELDS, -1, 0), Place(k, PREREQUISITES, -1, 0))
  {
    var t, cp, id, p := DuesOf(items, s), items[k], CheckpointId(items[k], k), Place(k, FIELDS, -1, 0);
    HeadFits(items, s, k);
    FourChecks(t, p, Place(k, PREREQUISITES, -1, 0),
               !cp.isObject, About(CheckpointNotObject, id, ""), cp.declaredId == "", About(IdMissing, id, ""),
               cp.role == "", About(RoleMissing, id, ""), cp.status !in s.allowedStatuses, About(StatusInvalid, id, cp.role));
  }

  function EntryPlace(k: nat, part: int): nat -> Place {
    (i: nat) => Place(k, part, i, 0)
  }

  lemma {:induction false} OnePrerequisite(items: seq<RawCheckpoint>, s: Settings, k: nat, j: nat)
    requires k < |items| && items[k].prerequisites.Some? && j < |items[k].prerequisites.value|
    ensures Accounts(PrerequisiteVisit(items[k], CheckpointId(items[k], k))(items[k].prerequisites.value[j], j), DuesOf(items, s),
                     Place(k, PREREQUISITES, j, 0), Place(k, PREREQUISITES, j + 1, 0))
  {
    var t, cp, id, p := DuesOf(items, s), items[k], CheckpointId(items[k], k), Place(k, PREREQUISITES, j, 0);
    var invalid := cp.prerequisites.value[j].None? || cp.prerequisites.value[j].value == "";
    NothingYet(t, p);
    Check(NOTHING, invalid, About(PrerequisiteIdInvalid, id, cp.role), t, p, p);
    Skip(NOTHING.ThenIf(invalid, About(PrerequisiteIdInvalid, id, cp.role)), t, p, Next(p), Place(k, PREREQUISITES, j + 1, 0));
  }

  lemma {:induction false} NoPrerequisites(items: seq<RawCheckpoint>, s: Settings, k: nat)
    requires k < |items| && items[k].prerequisites.None?
    ensures var t, from := DuesOf(items, s), Place(k, PREREQUISITES, -1, 0);
            && Fits(PrerequisiteNotes(items[k], CheckpointId(items[k], k)), t, from)
            && Quiet(t, Next(from), Place(k, REPEATS, -1, 0))
  {
  }

  lemma {:induction false} AroundPrerequisites(items: seq<RawCheckpoint>, s: Settings, k: nat)
    requires k < |items| && items[k].prerequisites.Some?
    ensures var t, n := DuesOf(items, s), |items[k].prerequisites.value|;
            && Quiet(t, Place(k, PREREQUISITES, -1, 0), Place(k, PREREQUISITES, 0, 0))
            && Quiet(t, Place(k, PREREQUISITES, n, 0), Place(k, REPEATS, -1, 0))
  {
  }

  lemma {:induction false} PrerequisitesGather(items: seq<RawCheckpoint>, s: Settings, k: nat)
    requires k < |items| && items[k].prerequisites.Some?
    ensures var n := |items[k].prerequisites.value|;
            Accounts(PrerequisiteNotes(items[k], CheckpointId(items[k], k)), DuesOf(items, s),
                     Place(k, PREREQUISITES, 0, 0), Place(k, PREREQUISITES, n, 0))
  {
    var t, cp := DuesOf(items, s), items[k];
    var ps, visit, at := cp.prerequisites.value, PrerequisiteVisit(cp, CheckpointId(cp, k)), EntryPlace(k, PREREQUISITES);
    forall j | 0 <= j < |ps| ensures VisitAccounts(ps, j, visit, t, at) {
      OnePrerequisite(items, s, k, j);
    }
    GatherAccounts(ps, |ps|, visit, t, at);
  }

  /** Nothing is due right before and right after what the notes account for. */
  lemma {:induction false} Between(notes: Notes, t: Dues, from: Place, a: Place, b: Place, to: Place)
    requires Accounts(notes, t, a, b) && Quiet(t, from, a) && Quiet(t, b, to)
    requires !Before(a, from) && !Before(b, a) && !Before(to, b)
    ensures Accounts(notes, t, from, to)
  {
    QuietAccounts(t, from, a);
    AccountsJoin(NOTHING, notes, t, from, a, b);
    ThenNothing(notes);
    Skip(notes, t, from, b, to);
  }

  lemma {:induction false} PrerequisitesAccount(items: seq<RawCheckpoint>, s: Settings, k: nat)
    requires k < |items|
    ensures Accounts(PrerequisiteNotes(items[k], CheckpointId(items[k], k)), DuesOf(items, s),
                     Place(k, PREREQUISITES, -1, 0), Place(k, REPEATS, -1, 0))
  {
    var t, cp, notes := DuesOf(items, s), items[k], PrerequisiteNotes(items[k], CheckpointId(items[k], k));
    var from, to := Place(k, PREREQUISITES, -1, 0), Place(k, REPEATS, -1, 0);
    if cp.prerequisites.None? {
      NoPrerequisites(items, s, k);
      FitsAccounts(notes, t, from);
      Skip(notes, t, from, Next(from), to);
    } else {
      PrerequisitesGather(items, s, k);
      AroundPrerequisites(items, s, k);
      Between(notes, t, from, Place(k, PREREQUISITES, 0, 0), Place(k, PREREQUISITES, |cp.prerequisites.value|, 0), to);
    }
  }

  lemma {:induction false} RepeatsFirst(p: Option<string>, rest: seq<Option<string>>)
    ensures Repeats([p] + rest) <==> Repeats(rest) || (NamesId(p) && p in rest)
  {
    var ps := [p] + rest;
    if i, j :| 0 <= i < j < |rest| && NamesId(rest[i]) && rest[i] == rest[j] {
      assert ps[i + 1] == ps[j + 1] && NamesId(ps[i + 1]);
    }
    if NamesId(p) && p in rest {
      var j :| 0 <= j < |rest| && rest[j] == p;
      assert ps[0] == ps[j + 1];
    }
    if i, j :| 0 <= i < j < |ps| && NamesId(ps[i]) && ps[i] == ps[j] {
      assert ps[j] == rest[j - 1];
      if i > 0 { assert ps[i] == rest[i - 1]; }
    }
  }

  /** The texts of a list of prerequisites are its ids, and repeat exactly if some id does. */
  lemma {:induction false} TextsRepeat(ps: seq<Option<string>>)
    ensures forall v :: v in PrerequisiteTexts(ps) <==> v != "" && Some(v) in ps
    ensures NoRepeats(PrerequisiteTexts(ps)) <==> !Repeats(ps)
  {
    if ps != [] {
      TextsRepeat(ps[1..]);
      assert ps == [ps[0]] + ps[1..];
      RepeatsFirst(ps[0], ps[1..]);
      var texts := PrerequisiteTexts(ps[1..]);
      if NamesId(ps[0]) { FirstRepeats(ps[0].value, texts); } else { assert [] + texts == texts; }
    }
  }

  lemma {:induction false} FirstRepeats(v: string, texts: seq<string>)
    ensures NoRepeats([v] + texts) <==> NoRepeats(texts) && v !in texts
  {
    var all := [v] + texts;
    if NoRepeats(all) {
      forall i, j | 0 <= i < j < |texts| ensures texts[i] != texts[j] {
        assert all[i + 1] != all[j + 1];
      }
      forall i | 0 <= i < |texts| ensures texts[i] != v {
        assert all[0] != all[i + 1];
      }
    }
  }

  lemma {:induction false} RepeatsFits(items: seq<RawCheckpoint>, s: Settings, k: nat)
    requires k < |items|
    ensures var t, cp, id := DuesOf(items, s), items[k], CheckpointId(items[k], k);
            && Fits(NOTHING.ThenIf(!NoRepeats(DeclaredPrerequisites(cp)), About(PrerequisiteDuplicate, id, cp.role)), t, Place(k, REPEATS, -1, 0))
            && Quiet(t, Place(k, REPEATS, -1, 1), Place(k, CRITERIA, -1, 0))
  {
    DeclaredRepeat(items[k]);
  }

  lemma {:induction false} DeclaredRepeat(cp: RawCheckpoint)
    ensures NoRepeats(DeclaredPrerequisites(cp)) <==> !RepeatsPrerequisite(cp)
  {
    if cp.prerequisites.Some? { TextsRepeat(cp.prerequisites.value); }
  }

  function MissingNotes(cp: RawCheckpoint, id: string): Notes {
    if CriteriaOf(cp) != [] then NOTHING
    else NOTHING.(findings := [About(CriteriaMissing, id, cp.role)], unchecked := [Unchecked(id, cp.role, -1, CriteriaAbsent)])
  }

  lemma {:induction false} MissingFits(items: seq<RawCheckpoint>, s: Settings, k: nat)
    requires k < |items|
    ensures Fits(MissingNotes(items[k], CheckpointId(items[k], k)), DuesOf(items, s), Place(k, CRITERIA, -1, 0))
    ensures Quiet(DuesOf(items, s), Place(k, CRITERIA, -1, 1), Place(k, 0, -1, 0))
  {
  }

  lemma {:induction false} FieldsAccount(items: seq<RawCheckpoint>, s: Settings, k: nat)
    requires k < |items|
    ensures var cp, id := items[k], CheckpointId(items[k], k);
            Accounts(HeadNotes(cp, id, s).Then(PrerequisiteNotes(cp, id)), DuesOf(items, s), Place(k, FIELDS, -1, 0), Place(k, REPEATS, -1, 0))
  {
    HeadAccounts(items, s, k);
    PrerequisitesAccount(items, s, k);
    AccountsJoin(HeadNotes(items[k], CheckpointId(items[k], k), s), PrerequisiteNotes(items[k], CheckpointId(items[k], k)), DuesOf(items, s),
                 Place(k, FIELDS, -1, 0), Place(k, PREREQUISITES, -1, 0), Place(k, REPEATS, -1, 0));
  }

  /** A check, after which nothing is due up to `p`, and then one more, after which nothing is due up to `to`. */
  lemma {:induction false} CheckThenMore(notes: Notes, when: bool, f: Finding, more: Notes, t: Dues, from: Place, q: Place, p: Place, to: Place)
    requires Accounts(notes, t, from, q) && Fits(NOTHING.ThenIf(when, f), t, q) && Quiet(t, Next(q), p)
    requires Fits(more, t, p) && Quiet(t, Next(p), to)
    requires !Before(q, from) && Before(q, p) && Before(p, to)
    ensures Accounts(notes.ThenIf(when, f).Then(more), t, from, to)
  {
    Check(notes, when, f, t, from, q);
    Skip(notes.ThenIf(when, f), t, from, Next(q), p);
    CheckThenQuiet(notes.ThenIf(when, f), more, t, from, p, to);
  }

  lemma {:induction false} ShapeParts(cp: RawCheckpoint, id: string, s: Settings)
    ensures ShapeNotes(cp, id, s) ==
            HeadNotes(cp, id, s).Then(PrerequisiteNotes(cp, id))
              .ThenIf(!NoRepeats(DeclaredPrerequisites(cp)), About(PrerequisiteDuplicate, id, cp.role)).Then(MissingNotes(cp, id))
  {
    ThenNothing(HeadNotes(cp, id, s).Then(PrerequisiteNotes(cp, id))
                  .ThenIf(!NoRepeats(DeclaredPrerequisites(cp)), About(PrerequisiteDuplicate, id, cp.role)));
  }

  lemma {:induction false} ShapeAccounts(items: seq<RawCheckpoint>, s: Settings, k: nat)
    requires k < |items|
    ensures Accounts(ShapeNotes(items[k], CheckpointId(items[k], k), s), DuesOf(items, s), Place(k, FIELDS, -1, 0), Place(k, 0, -1, 0))
  {
    var cp, id := items[k], CheckpointId(items[k], k);
    FieldsAccount(items, s, k);
    RepeatsFits(items, s, k);
    MissingFits(items, s, k);
    ShapeParts(cp, id, s);
    CheckThenMore(HeadNotes(cp, id, s).Then(PrerequisiteNotes(cp, id)), !NoRepeats(DeclaredPrerequisites(cp)),
                  About(PrerequisiteDuplicate, id, cp.role), MissingNotes(cp, id), DuesOf(items, s),
                  Place(k, FIELDS, -1, 0), Place(k, REPEATS, -1, 0), Place(k, CRITERIA, -1, 0), Place(k, 0, -1, 0));
  }

  // ---------- criteria and their evidence

  lemma {:induction false} ThreeChecks(t: Dues, p: Place, to: Place, a: bool, f: Finding, b: bool, g: Finding,
                                       c: bool, h: Finding, last: Notes)
    requires Fits(NOTHING.ThenIf(a, f), t, p) && Fits(NOTHING.ThenIf(b, g), t, Next(p))
    requires Fits(NOTHING.ThenIf(c, h), t, Next(Next(p))) && Fits(last, t, Next(Next(Next(p))))
    requires Quiet(t, Next(Next(Next(Next(p)))), to) && Before(Next(Next(Next(Next(p)))), to)
    ensures Accounts(NOTHING.ThenIf(a, f).ThenIf(b, g).ThenIf(c, h).Then(last), t, p, to)
  {
    NothingYet(t, p);
    var one := NOTHING.ThenIf(a, f);
    var two := one.ThenIf(b, g);
    Check(NOTHING, a, f, t, p, p);
    Check(one, b, g, t, p, Next(p));
    Check(two, c, h, t, p, Next(Next(p)));
    CheckThenQuiet(two.ThenIf(c, h), last, t, p, Next(Next(Next(p))), to);
  }

  /** The entry at this place of the input, of a criterion that has to give evidence. */
  ghost predicate EntryAt(items: seq<RawCheckpoint>, s: Settings, k: nat, c: nat, i: nat) {
    && k < |items| && c < |CriteriaOf(items[k])| && Evidenced(CriteriaOf(items[k])[c], items[k].role, s)
    && i < |EntriesOf(CriteriaOf(items[k])[c])|
  }

  function BindingNotes(e: RawEvidence, id: string, role: string, c: nat, i: nat): Notes {
    if e.commandId == "" then NOTHING
    else NOTHING.(bindings := [Binding(e.commandId, if e.report.Some? then e.report.value else "", id, role, c, i)])
  }

  predicate BadReport(e: RawEvidence, s: Settings) {
    && e.commandId != "" && e.report.Some?
    && (!s.isReportPath(e.report.value)
        || (e.report.value != "" && e.commandId in s.authority && e.report.value !in s.authority[e.commandId]))
  }

  lemma {:induction false} EntryFits(items: seq<RawCheckpoint>, s: Settings, k: nat, c: nat, i: nat)
    requires EntryAt(items, s, k, c, i)
    ensures var t, e, d := DuesOf(items, s), EntriesOf(CriteriaOf(items[k])[c])[i], Details(CheckpointId(items[k], k), items[k].role, c);
            && Fits(NOTHING.ThenIf(e.hasCommand, d.Note(EvidenceCommandForbidden)), t, Place(k, c, i, 0))
            && Fits(NOTHING.ThenIf(e.commandId == "" || e.commandId !in s.authority,
                                   d.Note(if e.commandId == "" then EvidenceCommandIdInvalid else EvidenceCommandIdUnknown)), t, Place(k, c, i, 1))
  {
  }

  lemma {:induction false} ReportFits(items: seq<RawCheckpoint>, s: Settings, k: nat, c: nat, i: nat)
    requires EntryAt(items, s, k, c, i)
    ensures var t, e, d := DuesOf(items, s), EntriesOf(CriteriaOf(items[k])[c])[i], Details(CheckpointId(items[k], k), items[k].role, c);
            Fits(NOTHING.ThenIf(BadReport(e, s),
                                d.Note(if e.report.Some? && !s.isReportPath(e.report.value) then EvidenceReportInvalid else EvidenceReportNotOwned)),
                 t, Place(k, c, i, 2))
  {
  }

  lemma {:induction false} BindingFits(items: seq<RawCheckpoint>, s: Settings, k: nat, c: nat, i: nat)
    requires EntryAt(items, s, k, c, i)
    ensures var t, e := DuesOf(items, s), EntriesOf(CriteriaOf(items[k])[c])[i];
            && Fits(BindingNotes(e, CheckpointId(items[k], k), items[k].role, c, i), t, Place(k, c, i, 3))
            && Quiet(t, Place(k, c, i, 4), Place(k, c, i + 1, 0))
  {
  }

  lemma {:induction false} EntryNotes(e: RawEvidence, i: nat, d: Details, s: Settings)
    ensures EvidenceNotes(e, i, d, s) ==
            NOTHING.ThenIf(e.hasCommand, d.Note(EvidenceCommandForbidden))
              .ThenIf(e.commandId == "" || e.commandId !in s.authority,
                      d.Note(if e.commandId == "" then EvidenceCommandIdInvalid else EvidenceCommandIdUnknown))
              .ThenIf(BadReport(e, s),
                      d.Note(if e.report.Some? && !s.isReportPath(e.report.value) then EvidenceReportInvalid else EvidenceReportNotOwned))
              .Then(BindingNotes(e, d.checkpointId, d.role, d.criterion, i))
  {
    ThenNothing(NOTHING.ThenIf(e.hasCommand, d.Note(EvidenceCommandForbidden)).Then(Found(d.Note(EvidenceCommandIdInvalid))));
  }

  lemma {:induction false} EntryAccounts(items: seq<RawCheckpoint>, s: Settings, k: nat, c: nat, i: nat)
    requires EntryAt(items, s, k, c, i)
    ensures var d := Details(CheckpointId(items[k], k), items[k].role, c);
            Accounts(EvidenceVisit(d, s)(EntriesOf(CriteriaOf(items[k])[c])[i], i), DuesOf(items, s), Place(k, c, i, 0), Place(k, c, i + 1, 0))
  {
    var t, e, d := DuesOf(items, s), EntriesOf(CriteriaOf(items[k])[c])[i], Details(CheckpointId(items[k], k), items[k].role, c);
    EntryFits(items, s, k, c, i);
    ReportFits(items, s, k, c, i);
    BindingFits(items, s, k, c, i);
    EntryNotes(e, i, d, s);
    ThreeChecks(t, Place(k, c, i, 0), Place(k, c, i + 1, 0), e.hasCommand, d.Note(EvidenceCommandForbidden),
                e.commandId == "" || e.commandId !in s.authority,
                d.Note(if e.commandId == "" then EvidenceCommandIdInvalid else EvidenceCommandIdUnknown), BadReport(e, s),
                d.Note(if e.report.Some? && !s.isReportPath(e.report.value) then EvidenceReportInvalid else EvidenceReportNotOwned),
                BindingNotes(e, d.checkpointId, d.role, c, i));
  }

  lemma {:induction false} EntryVisited(items: seq<RawCheckpoint>, s: Settings, k: nat, c: nat, i: nat)
    requires EntryAt(items, s, k, c, i)
    ensures VisitAccounts(EntriesOf(CriteriaOf(items[k])[c]), i, EvidenceVisit(Details(CheckpointId(items[k], k), items[k].role, c), s),
                          DuesOf(items, s), EntryPlace(k, c))
  {
    EntryAccounts(items, s, k, c, i);
  }

  lemma {:induction false} EvidenceAccounts(items: seq<RawCheckpoint>, s: Settings, k: nat, c: nat)
    requires EntryAt(items, s, k, c, 0)
    ensures var d := Details(CheckpointId(items[k], k), items[k].role, c);
            Accounts(AllEvidenceNotes(CriteriaOf(items[k])[c].evidence, d, s), DuesOf(items, s), Place(k, c, 0, 0), Place(k, c + 1, -1, 0))
  {
    var t, d, es := DuesOf(items, s), Details(CheckpointId(items[k], k), items[k].role, c), EntriesOf(CriteriaOf(items[k])[c]);
    forall i | 0 <= i < |es| ensures VisitAccounts(es, i, EvidenceVisit(d, s), t, EntryPlace(k, c)) {
      EntryVisited(items, s, k, c, i);
    }
    GatherAccounts(es, |es|, EvidenceVisit(d, s), t, EntryPlace(k, c));
    AfterEntries(items, s, k, c);
    Skip(Gather(es, |es|, EvidenceVisit(d, s)), t, Place(k, c, 0, 0), Place(k, c, |es|, 0), Place(k, c + 1, -1, 0));
  }

  lemma {:induction false} AfterEntries(items: seq<RawCheckpoint>, s: Settings, k: nat, c: nat)
    requires k < |items| && c < |CriteriaOf(items[k])|
    ensures Quiet(DuesOf(items, s), Place(k, c, |EntriesOf(CriteriaOf(items[k])[c])|, 0), Place(k, c + 1, -1, 0))
  {
  }

  /** The criterion at this place of the input. */
  ghost predicate CriterionAt(items: seq<RawCheckpoint>, k: nat, c: nat) {
    k < |items| && c < |CriteriaOf(items[k])|
  }

  /** The criterion at this place is unchecked and names a blocker. */
  ghost predicate WaitsAt(items: seq<RawCheckpoint>, k: nat, c: nat) {
    && CriterionAt(items, k, c) && CriteriaOf(items[k])[c].Criterion? && CriteriaOf(items[k])[c].text != ""
    && !CriteriaOf(items[k])[c].checked && CriteriaOf(items[k])[c].blocker.Some?
  }

  function BlockedNotes(b: RawBlocker, id: string, role: string, c: nat, s: Settings): Notes {
    var valid := ValidBlocker(b, s);
    (if valid then NOTHING.(blockers := [Blocker(b.code, id, role, c)]) else Found(Finding(ExternalBlockerInvalid, id, role, "", c, [])))
    .Then(NOTHING.(unchecked := [Unchecked(id, role, c, if valid then ExternalEvidenceMissing else InvalidExternalBlocker)]))
  }

  lemma {:induction false} WaitsFits(items: seq<RawCheckpoint>, s: Settings, k: nat, c: nat)
    requires WaitsAt(items, k, c)
    ensures Fits(BlockedNotes(CriteriaOf(items[k])[c].blocker.value, CheckpointId(items[k], k), items[k].role, c, s), DuesOf(items, s), Place(k, c, -1, 0))
  {
    BlockerMeaning(CriteriaOf(items[k])[c].blocker.value, s);
  }

  lemma {:induction false} AfterWaiting(items: seq<RawCheckpoint>, s: Settings, k: nat, c: nat)
    requires WaitsAt(items, k, c)
    ensures var t, cp, d := DuesOf(items, s), items[k], Details(CheckpointId(items[k], k), items[k].role, c);
            && Fits(NOTHING.ThenIf(cp.status == s.completedStatus, d.Note(CompletedWithBlockedCriterion)), t, Place(k, c, -1, 1))
            && Quiet(t, Place(k, c, -1, 2), Place(k, c + 1, -1, 0))
  {
  }

  lemma {:induction false} BlockerMeaning(b: RawBlocker, s: Settings)
    ensures ValidBlocker(b, s) <==> StatesBlocker(b, s)
  {
    var unique := UniqueStrings(b.requiredEvidence);
    if unique != [] { assert unique[0] in unique; }
  }

  lemma {:induction false} WaitingAccounts(items: seq<RawCheckpoint>, s: Settings, k: nat, c: nat)
    requires WaitsAt(items, k, c)
    ensures Accounts(CriterionNotes(CriteriaOf(items[k])[c], c, items[k], CheckpointId(items[k], k), s), DuesOf(items, s),
                     Place(k, c, -1, 0), Place(k, c + 1, -1, 0))
  {
    var t, cp, id, b := DuesOf(items, s), items[k], CheckpointId(items[k], k), CriteriaOf(items[k])[c].blocker.value;
    var d, p, first := Details(id, cp.role, c), Place(k, c, -1, 0), BlockedNotes(b, id, cp.role, c, s);
    WaitsFits(items, s, k, c);
    AfterWaiting(items, s, k, c);
    FitsAccounts(first, t, p);
    Check(first, cp.status == s.completedStatus, d.Note(CompletedWithBlockedCriterion), t, p, Next(p));
    Skip(first.ThenIf(cp.status == s.completedStatus, d.Note(CompletedWithBlockedCriterion)), t, p, Next(Next(p)), Place(k, c + 1, -1, 0));
  }

  lemma {:induction false} PlainFits(items: seq<RawCheckpoint>, s: Settings, k: nat, c: nat)
    requires CriterionAt(items, k, c)
    requires var v := CriteriaOf(items[k])[c]; v.NotAnObject? || v.text == "" || (!v.checked && v.blocker.None?)
    ensures Fits(CriterionNotes(CriteriaOf(items[k])[c], c, items[k], CheckpointId(items[k], k), s), DuesOf(items, s), Place(k, c, -1, 0))
    ensures Quiet(DuesOf(items, s), Place(k, c, -1, 1), Place(k, c + 1, -1, 0))
  {
  }

  ghost predicate CheckedAt(items: seq<RawCheckpoint>, k: nat, c: nat) {
    && CriterionAt(items, k, c) && CriteriaOf(items[k])[c].Criterion?
    && CriteriaOf(items[k])[c].text != "" && CriteriaOf(items[k])[c].checked
  }

  lemma {:induction false} CheckedFits(items: seq<RawCheckpoint>, s: Settings, k: nat, c: nat)
    requires CheckedAt(items, k, c)
    ensures var t, v, d := DuesOf(items, s), CriteriaOf(items[k])[c], Details(CheckpointId(items[k], k), items[k].role, c);
            && Fits(NOTHING.ThenIf(v.blocker.Some?, d.Note(CheckedCriterionHasBlocker)), t, Place(k, c, -1, 0))
            && Fits(NOTHING.ThenIf(Evidenced(v, d.role, s) && EntriesOf(v) == [], d.Note(EvidenceMissing)), t, Place(k, c, -1, 1))
  {
  }

  lemma {:induction false} AroundEntries(items: seq<RawCheckpoint>, s: Settings, k: nat, c: nat)
    requires CheckedAt(items, k, c)
    ensures var t, v := DuesOf(items, s), CriteriaOf(items[k])[c];
            && Quiet(t, Place(k, c, -1, 2), Place(k, c, 0, 0))
            && (!Evidenced(v, items[k].role, s) || EntriesOf(v) == [] ==> Quiet(t, Place(k, c, 0, 0), Place(k, c + 1, -1, 0)))
  {
  }

  lemma {:induction false} TwoChecksThen(t: Dues, p: Place, mid: Place, to: Place, a: bool, f: Finding, b: bool, g: Finding, more: Notes)
    requires Fits(NOTHING.ThenIf(a, f), t, p) && Fits(NOTHING.ThenIf(b, g), t, Next(p)) && Quiet(t, Next(Next(p)), mid)
    requires Accounts(more, t, mid, to) && Before(Next(Next(p)), mid) && !Before(to, mid)
    ensures Accounts(NOTHING.ThenIf(a, f).ThenIf(b, g).Then(more), t, p, to)
  {
    NothingYet(t, p);
    var one := NOTHING.ThenIf(a, f);
    Check(NOTHING, a, f, t, p, p);
    Check(one, b, g, t, p, Next(p));
    Skip(one.ThenIf(b, g), t, p, Next(Next(p)), mid);
    AccountsJoin(one.ThenIf(b, g), more, t, p, mid, to);
  }

  /** What a checked criterion's evidence notes, if it has to give any and does. */
  function GivenNotes(c: RawCriterion, d: Details, s: Settings): Notes
    requires c.Criterion?
  {
    if Evidenced(c, d.role, s) && EntriesOf(c) != [] then AllEvidenceNotes(c.evidence, d, s) else NOTHING
  }

  lemma {:induction false} CheckedNotes(c: RawCriterion, index: nat, cp: RawCheckpoint, id: string, s: Settings)
    requires c.Criterion? && c.text != "" && c.checked
    ensures var d := Details(id, cp.role, index);
            CriterionNotes(c, index, cp, id, s) ==
            NOTHING.ThenIf(c.blocker.Some?, d.Note(CheckedCriterionHasBlocker))
              .ThenIf(Evidenced(c, cp.role, s) && EntriesOf(c) == [], d.Note(EvidenceMissing)).Then(GivenNotes(c, d, s))
  {
    var d := Details(id, cp.role, index);
    var blocked := NOTHING.ThenIf(c.blocker.Some?, d.Note(CheckedCriterionHasBlocker));
    ThenNothing(blocked);
    ThenNothing(blocked.Then(Found(d.Note(EvidenceMissing))));
  }

  lemma {:induction false} GivenAccounts(items: seq<RawCheckpoint>, s: Settings, k: nat, c: nat)
    requires CheckedAt(items, k, c)
    ensures Accounts(GivenNotes(CriteriaOf(items[k])[c], Details(CheckpointId(items[k], k), items[k].role, c), s), DuesOf(items, s),
                     Place(k, c, 0, 0), Place(k, c + 1, -1, 0))
  {
    var v := CriteriaOf(items[k])[c];
    if Evidenced(v, items[k].role, s) && EntriesOf(v) != [] {
      EvidenceAccounts(items, s, k, c);
    } else {
      AroundEntries(items, s, k, c);
      QuietAccounts(DuesOf(items, s), Place(k, c, 0, 0), Place(k, c + 1, -1, 0));
    }
  }

  lemma {:induction false} CheckedAccounts(items: seq<RawCheckpoint>, s: Settings, k: nat, c: nat)
    requires CheckedAt(items, k, c)
    ensures Accounts(CriterionNotes(CriteriaOf(items[k])[c], c, items[k], CheckpointId(items[k], k), s), DuesOf(items, s),
                     Place(k, c, -1, 0), Place(k, c + 1, -1, 0))
  {
    var v, d := CriteriaOf(items[k])[c], Details(CheckpointId(items[k], k), items[k].role, c);
    CheckedFits(items, s, k, c);
    AroundEntries(items, s, k, c);
    GivenAccounts(items, s, k, c);
    CheckedNotes(v, c, items[k], d.checkpointId, s);
    TwoChecksThen(DuesOf(items, s), Place(k, c, -1, 0), Place(k, c, 0, 0), Place(k, c + 1, -1, 0),
                  v.blocker.Some?, d.Note(CheckedCriterionHasBlocker),
                  Evidenced(v, d.role, s) && EntriesOf(v) == [], d.Note(EvidenceMissing), GivenNotes(v, d, s));
  }

  function CriterionPlace(k: nat): nat -> Place {
    (c: nat) => Place(k, c, -1, 0)
  }

  lemma {:induction false} CriterionAccounts(items: seq<RawCheckpoint>, s: Settings, k: nat, c: nat)
    requires CriterionAt(items, k, c)
    ensures Accounts(CriterionNotes(CriteriaOf(items[k])[c], c, items[k], CheckpointId(items[k], k), s), DuesOf(items, s),
                     Place(k, c, -1, 0), Place(k, c + 1, -1, 0))
  {
    var v, p := CriteriaOf(items[k])[c], Place(k, c, -1, 0);
    if v.NotAnObject? || v.text == "" || (!v.checked && v.blocker.None?) {
      var notes := CriterionNotes(v, c, items[k], CheckpointId(items[k], k), s);
      PlainFits(items, s, k, c);
      FitsAccounts(notes, DuesOf(items, s), p);
      Skip(notes, DuesOf(items, s), p, Next(p), Place(k, c + 1, -1, 0));
    } else if v.checked {
      CheckedAccounts(items, s, k, c);
    } else {
      WaitingAccounts(items, s, k, c);
    }
  }

  lemma {:induction false} CriterionVisited(items: seq<RawCheckpoint>, s: Settings, k: nat, c: nat)
    requires CriterionAt(items, k, c)
    ensures VisitAccounts(CriteriaOf(items[k]), c, CriterionVisit(items[k], CheckpointId(items[k], k), s), DuesOf(items, s), CriterionPlace(k))
  {
    CriterionAccounts(items, s, k, c);
  }

  lemma {:induction false} CriteriaAccount(items: seq<RawCheckpoint>, s: Settings, k: nat)
    requires k < |items|
    ensures Accounts(CriteriaNotes(items[k], CheckpointId(items[k], k), s), DuesOf(items, s),
                     Place(k, 0, -1, 0), Place(k, |CriteriaOf(items[k])|, -1, 0))
  {
    var cs, visit := CriteriaOf(items[k]), CriterionVisit(items[k], CheckpointId(items[k], k), s);
    forall c | 0 <= c < |cs| ensures VisitAccounts(cs, c, visit, DuesOf(items, s), CriterionPlace(k)) {
      CriterionVisited(items, s, k, c);
    }
    GatherAccounts(cs, |cs|, visit, DuesOf(items, s), CriterionPlace(k));
  }

  // ---------- whole checkpoints

  /** The blockers of a checkpoint are absent exactly if no criterion has one. */
  lemma {:induction false} NoBlockers(cp: RawCheckpoint, id: string, s: Settings)
    ensures CriteriaNotes(cp, id, s).blockers == [] <==> forall c :: c in CriteriaOf(cp) ==> !Blocks(c, s)
  {
    var cs, visit := CriteriaOf(cp), CriterionVisit(cp, id, s);
    GatherBlockers(cs, |cs|, visit);
    forall i | 0 <= i < |cs| ensures visit(cs[i], i).blockers == [] <==> !Blocks(cs[i], s) {
      OneBlocks(cs[i], i, cp, id, s);
    }
  }

  lemma {:induction false} OneBlocks(c: RawCriterion, i: nat, cp: RawCheckpoint, id: string, s: Settings)
    ensures CriterionNotes(c, i, cp, id, s).blockers == [] <==> !Blocks(c, s)
  {
    if c.Criterion? {
      EvidenceAccepted(c.evidence, Details(id, cp.role, i), s);
      if c.blocker.Some? { BlockerMeaning(c.blocker.value, s); }
    }
  }

  function StatusNotesOf(cp: RawCheckpoint, id: string, s: Settings): Notes {
    if cp.status == s.completedStatus then NOTHING else StatusNotes(cp, id, |CriteriaNotes(cp, id, s).blockers|, s)
  }

  lemma {:induction false} StatusFits(items: seq<RawCheckpoint>, s: Settings, k: nat)
    requires k < |items|
    ensures Fits(StatusNotesOf(items[k], CheckpointId(items[k], k), s), DuesOf(items, s), Place(k, |CriteriaOf(items[k])|, -1, 0))
  {
    NoBlockers(items[k], CheckpointId(items[k], k), s);
  }

  lemma {:induction false} AfterStatus(items: seq<RawCheckpoint>, s: Settings, k: nat)
    requires k < |items|
    ensures Quiet(DuesOf(items, s), Place(k, |CriteriaOf(items[k])|, -1, 1), Place(k + 1, FIELDS, -1, 0))
  {
  }

  lemma {:induction false} CheckpointAccounts(items: seq<RawCheckpoint>, s: Settings, k: nat)
    requires k < |items|
    ensures Accounts(CheckpointNotes(items[k], k, s), DuesOf(items, s), Place(k, FIELDS, -1, 0), Place(k + 1, FIELDS, -1, 0))
  {
    var t, cp, id := DuesOf(items, s), items[k], CheckpointId(items[k], k);
    var from, after, to := Place(k, FIELDS, -1, 0), Place(k, |CriteriaOf(cp)|, -1, 0), Place(k + 1, FIELDS, -1, 0);
    var body := ShapeNotes(cp, id, s).Then(CriteriaNotes(cp, id, s));
    ShapeAccounts(items, s, k);
    CriteriaAccount(items, s, k);
    AccountsJoin(ShapeNotes(cp, id, s), CriteriaNotes(cp, id, s), t, from, Place(k, 0, -1, 0), after);
    StatusFits(items, s, k);
    AfterStatus(items, s, k);
    CheckThenQuiet(body, StatusNotesOf(cp, id, s), t, from, after, to);
    ThenNothing(body);
  }

  function StartOf(): nat -> Place {
    (k: nat) => Place(k, FIELDS, -1, 0)
  }

  lemma {:induction false} VisitAccountsAt(items: seq<RawCheckpoint>, s: Settings, k: nat)
    requires k < |items|
    ensures VisitAccounts(items, k, CheckpointVisit(s), DuesOf(items, s), StartOf())
  {
    CheckpointAccounts(items, s, k);
  }

  lemma {:induction false} VisitsAccount(items: seq<RawCheckpoint>, s: Settings)
    ensures forall k :: 0 <= k < |items| ==> VisitAccounts(items, k, CheckpointVisit(s), DuesOf(items, s), StartOf())
  {
    forall k | 0 <= k < |items| ensures VisitAccounts(items, k, CheckpointVisit(s), DuesOf(items, s), StartOf()) {
      VisitAccountsAt(items, s, k);
    }
  }

  /** Reviewing all checkpoints notes exactly what is due. */
  lemma {:induction false} ReviewsAccount(items: seq<RawCheckpoint>, s: Settings)
    ensures Accounts(Gather(items, |items|, CheckpointVisit(s)), DuesOf(items, s), Place(0, FIELDS, -1, 0), Place(|items|, FIELDS, -1, 0))
  {
    VisitsAccount(items, s);
    GatherAccounts(items, |items|, CheckpointVisit(s), DuesOf(items, s), StartOf());
  }
}
