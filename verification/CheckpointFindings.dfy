/** The reducer's whole report, for every input, said of the raw checkpoints: what each list of the report holds
    in which order, which findings the comparison of checkpoints adds, and what the conclusion is. */
module CheckpointFindings {
  import opened Wrappers
  import opened Graphs
  import opened CheckpointRules
  import opened CheckpointCycles
  import opened CheckpointGraph
  import opened CheckpointReducer
  import opened CheckpointReport

  // ---------- raw checkpoints compared with one another

  /** The `j`-th checkpoint declares the id. */
  predicate Declares(items: seq<RawCheckpoint>, id: string, j: nat) {
    j < |items| && id != "" && items[j].declaredId == id
  }

  /** It is the first that does. */
  predicate DeclaresFirst(items: seq<RawCheckpoint>, id: string, j: nat) {
    Declares(items, id, j) && forall i :: 0 <= i < j ==> items[i].declaredId != id
  }

  ghost predicate Declared(items: seq<RawCheckpoint>, id: string) {
    exists j: nat :: Declares(items, id, j)
  }

  /** The ids that a checkpoint names as prerequisites. */
  function Needs(cp: RawCheckpoint): set<string> {
    if cp.prerequisites.None? then {}
    else set p | p in cp.prerequisites.value && p.Some? && p.value != "" :: p.value
  }

  /** Each declared id depends on what the first checkpoint that declares it names. */
  ghost function DeclaredGraph(items: seq<RawCheckpoint>): Graph {
    map id | id in DeclaredSet(items) :: NeedsOf(items, id)
  }

  ghost function DeclaredSet(items: seq<RawCheckpoint>): set<string> {
    set cp | cp in items && cp.declaredId != "" :: cp.declaredId
  }

  ghost function NeedsOf(items: seq<RawCheckpoint>, id: string): set<string> {
    set j: nat, p | j < |items| && DeclaresFirst(items, id, j) && p in Needs(items[j]) :: p
  }

  /** Only the `j`-th checkpoint has the role. */
  predicate OnlyHolder(items: seq<RawCheckpoint>, role: string, j: nat) {
    j < |items| && forall i :: 0 <= i < |items| ==> (items[i].role == role <==> i == j)
  }

  /** A finding about one prerequisite of the `k`-th checkpoint. */
  function LinkTo(code: Code, items: seq<RawCheckpoint>, k: nat, p: string): Finding
    requires k < |items|
  {
    Finding(code, CheckpointId(items[k], k), items[k].role, p, -1, [])
  }

  ghost predicate DeclaredTwice(items: seq<RawCheckpoint>, id: string) {
    exists i: nat, j: nat :: i < j && Declares(items, id, i) && Declares(items, id, j)
  }

  ghost predicate DueRepeat(items: seq<RawCheckpoint>, f: Finding) {
    && f == Finding(IdDuplicate, f.checkpointId, "", "", -1, [])
    && DeclaredTwice(items, f.checkpointId)
  }

  ghost predicate DueLink(items: seq<RawCheckpoint>, s: Settings, f: Finding) {
    exists k: nat, p :: k < |items| && p in Needs(items[k]) && DueLinkAt(items, s, k, p, f)
  }

  ghost predicate DueLinkAt(items: seq<RawCheckpoint>, s: Settings, k: nat, p: string, f: Finding)
    requires k < |items|
  {
    || (f == LinkTo(PrerequisiteMissing, items, k, p) && !Declared(items, p))
    || (f == LinkTo(PrerequisiteSelfReference, items, k, p) && Declared(items, p) && p == CheckpointId(items[k], k))
    || (f == LinkTo(CompletedBeforePrerequisite, items, k, p) && items[k].status == s.completedStatus
        && exists j: nat :: DeclaresFirst(items, p, j) && items[j].status != s.completedStatus)
  }

  ghost predicate DueRole(items: seq<RawCheckpoint>, s: Settings, f: Finding) {
    && f.role in s.requiredRoles && f.role != ""
    && if f.code == RequiredRoleMissing then
         f == Finding(RequiredRoleMissing, "", f.role, "", -1, []) && forall cp :: cp in items ==> cp.role != f.role
       else
         && f == Finding(RequiredRoleDuplicate, "", f.role, "", -1, [])
         && exists i, j :: 0 <= i < j < |items| && items[i].role == f.role == items[j].role
  }

  ghost predicate DueFinalOf(items: seq<RawCheckpoint>, i: nat, j: nat, f: Finding)
    requires i < |items| && j < |items|
  {
    && !Reaches(DeclaredGraph(items), Needs(items[j]), CheckpointId(items[i], i))
    && f == Finding(FinalValidationUnlinked, CheckpointId(items[j], j), FINAL_VALIDATION, CheckpointId(items[i], i), -1, [])
  }

  ghost predicate DueFinal(items: seq<RawCheckpoint>, f: Finding) {
    exists i: nat, j: nat ::
      OnlyHolder(items, IMPLEMENTATION, i) && OnlyHolder(items, FINAL_VALIDATION, j) && DueFinalOf(items, i, j, f)
  }

  // ---------- the passes report exactly that

  lemma {:induction false} CollectMembers<T>(items: seq<T>, n: nat, visit: T -> seq<Finding>, f: Finding)
    requires n <= |items|
    ensures f in Collect(items, n, visit) <==> exists i :: 0 <= i < n && f in visit(items[i])
  {
    if n > 0 {
      CollectMembers(items, n - 1, visit, f);
    }
  }

  function All(items: seq<RawCheckpoint>): seq<Normalized> {
    NormalizeUpTo(items, |items|)
  }

  lemma {:induction false} NormalizedAt(items: seq<RawCheckpoint>, k: nat)
    requires k < |items|
    ensures |All(items)| == |items|
    ensures var c := All(items)[k];
            && c.id == CheckpointId(items[k], k) && c.declaredId == items[k].declaredId
            && c.role == items[k].role && c.status == items[k].status
            && VertexSet(c.prerequisites) == Needs(items[k])
  {
    var cp := items[k];
    NormalizedPrerequisites(cp);
    if cp.prerequisites.Some? { TextsRepeat(cp.prerequisites.value); }
    assert VertexSet(DeclaredPrerequisites(cp)) == Needs(cp);
  }

  lemma {:induction false} NormalizedIds(items: seq<RawCheckpoint>)
    ensures ConsistentIds(All(items))
  {
    forall k | 0 <= k < |items| ensures All(items)[k].declaredId != "" ==> All(items)[k].id == All(items)[k].declaredId {
      NormalizedAt(items, k);
    }
  }

  /** One of the first `n` checkpoints declares the id. */
  ghost predicate DeclaredWithin(items: seq<RawCheckpoint>, n: nat, id: string) {
    exists j: nat :: j < n && Declares(items, id, j)
  }

  lemma {:induction false} DeclaredNext(items: seq<RawCheckpoint>, n: nat, id: string)
    ensures DeclaredWithin(items, n + 1, id) <==> DeclaredWithin(items, n, id) || Declares(items, id, n)
    ensures DeclaresFirst(items, id, n) <==> Declares(items, id, n) && !DeclaredWithin(items, n, id)
  {
    if DeclaredWithin(items, n, id) {
      var j: nat :| j < n && Declares(items, id, j);
    } else if Declares(items, id, n) {
      forall i | 0 <= i < n ensures items[i].declaredId != id {
        assert !Declares(items, id, i);
      }
    }
  }

  /** The normalized list declares the ids of the raw one. */
  ghost predicate SameDeclared(items: seq<RawCheckpoint>, all: seq<Normalized>) {
    && |all| == |items|
    && forall k :: 0 <= k < |items| ==>
         all[k].declaredId == items[k].declaredId && (all[k].declaredId != "" ==> all[k].id == all[k].declaredId)
  }

  lemma {:induction false} IndexKeys(items: seq<RawCheckpoint>, all: seq<Normalized>, n: nat, id: string)
    requires n <= |items| && SameDeclared(items, all)
    ensures id in FirstDeclared(all, n) <==> DeclaredWithin(items, n, id)
  {
    if n > 0 {
      IndexKeys(items, all, n - 1, id);
      DeclaredNext(items, n - 1, id);
      assert Declares(items, id, n - 1) <==> all[n - 1].declaredId != "" && all[n - 1].id == id;
    }
  }

  lemma {:induction false} IndexValue(items: seq<RawCheckpoint>, all: seq<Normalized>, n: nat, id: string, j: nat)
    requires j < n <= |items| && SameDeclared(items, all) && DeclaresFirst(items, id, j)
    ensures id in FirstDeclared(all, n) && FirstDeclared(all, n)[id] == all[j]
  {
    if j < n - 1 {
      IndexValue(items, all, n - 1, id, j);
    } else {
      IndexKeys(items, all, j, id);
      DeclaredNext(items, j, id);
    }
  }

  lemma {:induction false} AllDeclared(items: seq<RawCheckpoint>)
    ensures SameDeclared(items, All(items))
  {
    forall k | 0 <= k < |items|
      ensures var c := All(items)[k]; c.declaredId == items[k].declaredId && (c.declaredId != "" ==> c.id == c.declaredId)
    {
      NormalizedAt(items, k);
    }
  }

  function IndexOfAll(items: seq<RawCheckpoint>): Index {
    FirstDeclared(All(items), |items|)
  }

  lemma {:induction false} Indexed(items: seq<RawCheckpoint>, id: string)
    ensures id in IndexOfAll(items) <==> Declared(items, id)
    ensures forall j: nat :: DeclaresFirst(items, id, j) ==> id in IndexOfAll(items) && IndexOfAll(items)[id] == All(items)[j]
    ensures Declared(items, id) ==> exists j: nat :: DeclaresFirst(items, id, j)
  {
    AllDeclared(items);
    IndexKeys(items, All(items), |items|, id);
    forall j: nat | DeclaresFirst(items, id, j) ensures id in IndexOfAll(items) && IndexOfAll(items)[id] == All(items)[j] {
      IndexValue(items, All(items), |items|, id, j);
    }
    if Declared(items, id) {
      var j: nat :| Declares(items, id, j);
      assert DeclaredWithin(items, |items|, id);
      var k := FirstPlace(items, id, j);
    }
  }

  lemma {:induction false} FirstPlace(items: seq<RawCheckpoint>, id: string, j: nat) returns (k: nat)
    requires Declares(items, id, j)
    ensures DeclaresFirst(items, id, k)
  {
    if i: nat :| i < j && Declares(items, id, i) {
      k := FirstPlace(items, id, i);
    } else {
      k := j;
      forall i | 0 <= i < j ensures items[i].declaredId != id {
        assert !Declares(items, id, i);
      }
    }
  }

  lemma {:induction false} SameGraph(items: seq<RawCheckpoint>)
    ensures AsGraph(PrerequisitesOf(IndexOfAll(items))) == DeclaredGraph(items)
  {
    var g, h := AsGraph(PrerequisitesOf(IndexOfAll(items))), DeclaredGraph(items);
    forall id ensures (id in g <==> id in h) && (id in g ==> g[id] == h[id]) {
      Indexed(items, id);
      if k: nat :| DeclaresFirst(items, id, k) {
        NormalizedAt(items, k);
        assert items[k] in items;
        forall j: nat | DeclaresFirst(items, id, j) ensures j == k {
        }
        assert NeedsOf(items, id) == Needs(items[k]);
      } else if id in h {
        var cp :| cp in items && cp.declaredId == id != "";
        var j :| 0 <= j < |items| && items[j] == cp;
        assert Declares(items, id, j);
      }
    }
  }

  // ---------- pass by pass

  lemma {:induction false} RepeatsReported(declared: seq<string>, ids: seq<string>, f: Finding)
    ensures f in Collect(ids, |ids|, DuplicateVisit(declared)) <==>
            f == Finding(IdDuplicate, f.checkpointId, "", "", -1, []) && f.checkpointId in ids && multiset(declared)[f.checkpointId] > 1
  {
    CollectMembers(ids, |ids|, DuplicateVisit(declared), f);
    if f.checkpointId in ids {
      var k :| 0 <= k < |ids| && ids[k] == f.checkpointId;
      assert f in DuplicateVisit(declared)(ids[k]) <==>
        f == Finding(IdDuplicate, f.checkpointId, "", "", -1, []) && multiset(declared)[f.checkpointId] > 1;
    }
  }

  lemma {:induction false} DeclaredAt(items: seq<RawCheckpoint>)
    ensures |Ids(All(items))| == |items| && forall k :: 0 <= k < |items| ==> Ids(All(items))[k] == items[k].declaredId
  {
    forall k | 0 <= k < |items| ensures Ids(All(items))[k] == items[k].declaredId {
      NormalizedAt(items, k);
    }
  }

  lemma {:induction false} DeclaredListed(items: seq<RawCheckpoint>, id: string)
    ensures id in DeclaredIds(All(items), |items|) <==> Declared(items, id)
  {
    NormalizedIds(items);
    IndexCovers(All(items));
    Indexed(items, id);
    assert id in DeclaredIds(All(items), |items|) <==> id in VertexSet(DeclaredIds(All(items), |items|));
  }

  lemma {:induction false} Twice(items: seq<RawCheckpoint>, declared: seq<string>, id: string)
    requires |declared| == |items| && forall k :: 0 <= k < |items| ==> declared[k] == items[k].declaredId
    ensures DeclaredTwice(items, id) <==> id != "" && multiset(declared)[id] > 1
  {
    AtMostOnce(declared, id);
    if i: nat, j: nat :| i < j && Declares(items, id, i) && Declares(items, id, j) {
      assert declared[i] == declared[j] == id;
    }
    if id != "" && multiset(declared)[id] > 1 {
      var i, j :| 0 <= i < j < |declared| && declared[i] == id && declared[j] == id;
      assert Declares(items, id, i) && Declares(items, id, j);
    }
  }

  lemma {:induction false} RepeatPass(items: seq<RawCheckpoint>, f: Finding)
    ensures var ids := DeclaredIds(All(items), |items|);
            f in Collect(ids, |ids|, DuplicateVisit(Ids(All(items)))) <==> DueRepeat(items, f)
  {
    RepeatsReported(Ids(All(items)), DeclaredIds(All(items), |items|), f);
    DeclaredAt(items);
    Twice(items, Ids(All(items)), f.checkpointId);
    DeclaredListed(items, f.checkpointId);
  }

  lemma {:induction false} LinkReported(items: seq<RawCheckpoint>, s: Settings, k: nat, p: string, f: Finding)
    requires k < |items|
    ensures f in LinkFindings(All(items)[k], p, IndexOfAll(items), s.completedStatus) <==> DueLinkAt(items, s, k, p, f)
  {
    NormalizedAt(items, k);
    Indexed(items, p);
    if j: nat :| DeclaresFirst(items, p, j) {
      NormalizedAt(items, j);
      assert forall i: nat :: DeclaresFirst(items, p, i) ==> i == j;
      assert Declares(items, p, j);
    }
  }

  lemma {:induction false} LinksReported(items: seq<RawCheckpoint>, s: Settings, k: nat, f: Finding)
    requires k < |items|
    ensures f in LinksVisit(IndexOfAll(items), s.completedStatus)(All(items)[k]) <==>
            exists p :: p in Needs(items[k]) && DueLinkAt(items, s, k, p, f)
  {
    var c := All(items)[k];
    NormalizedAt(items, k);
    CollectMembers(c.prerequisites, |c.prerequisites|, LinkVisit(c, IndexOfAll(items), s.completedStatus), f);
    forall p ensures f in LinkFindings(c, p, IndexOfAll(items), s.completedStatus) <==> DueLinkAt(items, s, k, p, f) {
      LinkReported(items, s, k, p, f);
    }
    if p :| p in Needs(items[k]) && DueLinkAt(items, s, k, p, f) {
      assert p in VertexSet(c.prerequisites);
      var i :| 0 <= i < |c.prerequisites| && c.prerequisites[i] == p;
      assert f in LinkVisit(c, IndexOfAll(items), s.completedStatus)(c.prerequisites[i]);
    }
    if i :| 0 <= i < |c.prerequisites| && f in LinkVisit(c, IndexOfAll(items), s.completedStatus)(c.prerequisites[i]) {
      assert c.prerequisites[i] in VertexSet(c.prerequisites);
    }
  }

  lemma {:induction false} LinkPass(items: seq<RawCheckpoint>, s: Settings, f: Finding)
    ensures f in Collect(All(items), |items|, LinksVisit(IndexOfAll(items), s.completedStatus)) <==> DueLink(items, s, f)
  {
    CollectMembers(All(items), |items|, LinksVisit(IndexOfAll(items), s.completedStatus), f);
    forall k | 0 <= k < |items|
      ensures f in LinksVisit(IndexOfAll(items), s.completedStatus)(All(items)[k]) <==>
              exists p :: p in Needs(items[k]) && DueLinkAt(items, s, k, p, f)
    {
      LinksReported(items, s, k, f);
    }
  }

  lemma {:induction false} HeldAt(items: seq<RawCheckpoint>)
    ensures |Roles(All(items))| == |items| && forall k :: 0 <= k < |items| ==> Roles(All(items))[k] == items[k].role
  {
    forall k | 0 <= k < |items| ensures Roles(All(items))[k] == items[k].role {
      NormalizedAt(items, k);
    }
  }

  /** How often a role is held. */
  lemma {:induction false} HeldTimes(items: seq<RawCheckpoint>, held: seq<string>, role: string)
    requires |held| == |items| && forall k :: 0 <= k < |items| ==> held[k] == items[k].role
    ensures multiset(held)[role] == 0 <==> forall cp :: cp in items ==> cp.role != role
    ensures multiset(held)[role] > 1 <==> exists i, j :: 0 <= i < j < |items| && items[i].role == role == items[j].role
  {
    AtMostOnce(held, role);
    if multiset(held)[role] > 0 {
      var k :| 0 <= k < |held| && held[k] == role;
      assert items[k] in items;
    }
    if cp :| cp in items && cp.role == role {
      var k :| 0 <= k < |items| && items[k] == cp;
      assert held[k] == role;
    }
    if multiset(held)[role] > 1 {
      var i, j :| 0 <= i < j < |held| && held[i] == role && held[j] == role;
      assert items[i].role == role == items[j].role;
    }
  }

  lemma {:induction false} RolesReported(held: seq<string>, roles: seq<string>, f: Finding)
    ensures f in Collect(roles, |roles|, RoleVisit(held)) <==>
            f.role in roles &&
            if multiset(held)[f.role] == 0 then f == Finding(RequiredRoleMissing, "", f.role, "", -1, [])
            else multiset(held)[f.role] > 1 && f == Finding(RequiredRoleDuplicate, "", f.role, "", -1, [])
  {
    CollectMembers(roles, |roles|, RoleVisit(held), f);
    if f.role in roles {
      var k :| 0 <= k < |roles| && roles[k] == f.role;
      assert f in RoleVisit(held)(roles[k]) <==>
        if multiset(held)[f.role] == 0 then f == Finding(RequiredRoleMissing, "", f.role, "", -1, [])
        else multiset(held)[f.role] > 1 && f == Finding(RequiredRoleDuplicate, "", f.role, "", -1, []);
    }
  }

  lemma {:induction false} RolePass(items: seq<RawCheckpoint>, s: Settings, f: Finding)
    ensures var roles := UniqueStrings(s.requiredRoles);
            f in Collect(roles, |roles|, RoleVisit(Roles(All(items)))) <==> DueRole(items, s, f)
  {
    RolesReported(Roles(All(items)), UniqueStrings(s.requiredRoles), f);
    HeldAt(items);
    HeldTimes(items, Roles(All(items)), f.role);
  }

  /** The checkpoints that hold a role, if there is just one. */
  lemma {:induction false} OneHolder(items: seq<RawCheckpoint>, all: seq<Normalized>, role: string)
    requires |all| == |items| && forall k :: 0 <= k < |items| ==> all[k].role == items[k].role
    ensures |WithRole(all, role)| == 1 ==> exists j: nat :: OnlyHolder(items, role, j)
    ensures forall j: nat :: OnlyHolder(items, role, j) ==> WithRole(all, role) == [all[j]]
  {
    var held, with := Roles(all), WithRole(all, role);
    WithRoleMembers(all, role);
    AtMostOnce(held, role);
    if |with| == 1 {
      var k :| 0 <= k < |held| && held[k] == role;
      forall i | 0 <= i < |items| ensures items[i].role == role <==> i == k {
        assert held[i] == items[i].role;
      }
      assert OnlyHolder(items, role, k);
    }
    forall j: nat | OnlyHolder(items, role, j) ensures with == [all[j]] {
      assert all[j] in with && held[j] == role;
      assert |with| == 1 && with[0] in with;
      var i :| 0 <= i < |all| && all[i] == with[0];
      assert items[i].role == role;
    }
  }

  lemma {:induction false} HolderOfAll(items: seq<RawCheckpoint>, role: string)
    ensures |WithRole(All(items), role)| == 1 ==> exists j: nat :: OnlyHolder(items, role, j)
    ensures forall j: nat :: OnlyHolder(items, role, j) ==> WithRole(All(items), role) == [All(items)[j]]
  {
    forall k | 0 <= k < |items| ensures All(items)[k].role == items[k].role {
      NormalizedAt(items, k);
    }
    OneHolder(items, All(items), role);
  }

  lemma {:induction false} FinalReported(all: seq<Normalized>, byId: Index, i: Normalized, j: Normalized, f: Finding)
    requires WithRole(all, IMPLEMENTATION) == [i] && WithRole(all, FINAL_VALIDATION) == [j]
    ensures f in FinalFindings(all, byId) <==>
            && !Reaches(AsGraph(PrerequisitesOf(byId)), VertexSet(j.prerequisites), i.id)
            && f == Finding(FinalValidationUnlinked, j.id, FINAL_VALIDATION, i.id, -1, [])
  {
  }

  lemma {:induction false} TheHolder(items: seq<RawCheckpoint>, role: string, j: nat)
    requires OnlyHolder(items, role, j)
    ensures WithRole(All(items), role) == [All(items)[j]]
  {
    HolderOfAll(items, role);
  }

  lemma {:induction false} FinalOfHolders(items: seq<RawCheckpoint>, i: nat, j: nat, f: Finding)
    requires OnlyHolder(items, IMPLEMENTATION, i) && OnlyHolder(items, FINAL_VALIDATION, j)
    ensures f in FinalFindings(All(items), IndexOfAll(items)) <==> DueFinalOf(items, i, j, f)
  {
    TheHolder(items, IMPLEMENTATION, i);
    TheHolder(items, FINAL_VALIDATION, j);
    SameGraph(items);
    NormalizedAt(items, i);
    NormalizedAt(items, j);
    FinalReported(All(items), IndexOfAll(items), All(items)[i], All(items)[j], f);
  }

  lemma {:induction false} FinalPass(items: seq<RawCheckpoint>, f: Finding)
    ensures f in FinalFindings(All(items), IndexOfAll(items)) <==> DueFinal(items, f)
  {
    if i: nat, j: nat :| OnlyHolder(items, IMPLEMENTATION, i) && OnlyHolder(items, FINAL_VALIDATION, j) {
      FinalOfHolders(items, i, j, f);
      forall k: nat, l: nat | OnlyHolder(items, IMPLEMENTATION, k) && OnlyHolder(items, FINAL_VALIDATION, l) ensures k == i && l == j {
      }
    } else {
      HolderOfAll(items, IMPLEMENTATION);
      HolderOfAll(items, FINAL_VALIDATION);
    }
  }

  // ---------- the whole report

  /** The finding is about a prerequisite cycle: one walks around it, and it names each of its ids once. */
  ghost predicate TrueCycle(items: seq<RawCheckpoint>, f: Finding) {
    && ClosedWalk(DeclaredGraph(items), f.cycle) && NoRepeats(f.cycle[1..])
    && f == Finding(PrerequisiteCycle, f.cycle[0], "", "", -1, f.cycle)
  }

  /** The findings that comparing the checkpoints adds. */
  ghost predicate GraphFindings(items: seq<RawCheckpoint>, s: Settings, findings: seq<Finding>) {
    && (forall f :: f in findings && f.code != PrerequisiteCycle ==>
          DueRepeat(items, f) || DueLink(items, s, f) || DueRole(items, s, f) || DueFinal(items, f))
    && (forall f :: DueRepeat(items, f) || DueLink(items, s, f) || DueRole(items, s, f) || DueFinal(items, f) ==> f in findings)
    && (forall f :: f in findings && f.code == PrerequisiteCycle ==> TrueCycle(items, f))
    && ((forall f :: f in findings ==> f.code != PrerequisiteCycle) <==> Acyclic(DeclaredGraph(items)))
  }

  lemma {:induction false} PassMembers(all: seq<Normalized>, byId: Index, ids: seq<string>, cycles: seq<Finding>,
                                       roles: seq<string>, completedStatus: string, f: Finding)
    ensures f in PassFindings(all, byId, ids, cycles, roles, completedStatus) <==>
            || f in Collect(ids, |ids|, DuplicateVisit(Ids(all))) || f in Collect(all, |all|, LinksVisit(byId, completedStatus))
            || f in cycles || f in Collect(roles, |roles|, RoleVisit(Roles(all))) || f in FinalFindings(all, byId)
  {
  }

  lemma {:induction false} RotatedRepeats(cycle: seq<string>)
    requires |cycle| >= 2 && cycle[0] == cycle[|cycle| - 1] && NoRepeats(cycle[..|cycle| - 1])
    ensures NoRepeats(cycle[1..])
  {
    var front, back := cycle[..|cycle| - 1], cycle[1..];
    forall i, j | 0 <= i < j < |back| ensures back[i] != back[j] {
      assert back[i] == front[i + 1];
      if j < |back| - 1 { assert back[j] == front[j + 1]; } else { assert back[j] == front[0]; }
    }
  }

  lemma {:induction false} CyclePass(items: seq<RawCheckpoint>, cycles: seq<Finding>)
    requires CycleReport(PrerequisitesOf(IndexOfAll(items)), cycles)
    ensures forall f :: f in cycles ==> TrueCycle(items, f)
    ensures cycles == [] <==> Acyclic(DeclaredGraph(items))
  {
    SameGraph(items);
    forall f | f in cycles ensures TrueCycle(items, f) {
      RotatedRepeats(f.cycle);
    }
  }

  lemma {:induction false} GraphFindingsExactly(items: seq<RawCheckpoint>, s: Settings, findings: seq<Finding>)
    requires GraphReport(All(items), UniqueStrings(s.requiredRoles), s.completedStatus, findings)
    ensures GraphFindings(items, s, findings)
  {
    var all, ids, roles := All(items), DeclaredIds(All(items), |items|), UniqueStrings(s.requiredRoles);
    assert |all| == |items|;
    var cycles :| CycleReport(PrerequisitesOf(IndexOfAll(items)), cycles)
                  && findings == PassFindings(all, IndexOfAll(items), ids, cycles, roles, s.completedStatus);
    CyclePass(items, cycles);
    forall f ensures f in findings <==>
      f in cycles || DueRepeat(items, f) || DueLink(items, s, f) || DueRole(items, s, f) || DueFinal(items, f)
    {
      PassMembers(all, IndexOfAll(items), ids, cycles, roles, s.completedStatus, f);
      RepeatPass(items, f);
      LinkPass(items, s, f);
      RolePass(items, s, f);
      FinalPass(items, f);
    }
    CyclesApart(items, s, findings, cycles);
  }

  lemma {:induction false} CyclesApart(items: seq<RawCheckpoint>, s: Settings, findings: seq<Finding>, cycles: seq<Finding>)
    requires forall f :: f in findings <==>
      f in cycles || DueRepeat(items, f) || DueLink(items, s, f) || DueRole(items, s, f) || DueFinal(items, f)
    requires forall f :: f in cycles ==> TrueCycle(items, f)
    requires cycles == [] <==> Acyclic(DeclaredGraph(items))
    ensures GraphFindings(items, s, findings)
  {
    if cycles != [] { assert cycles[0] in cycles && cycles[0] in findings; }
  }

  // ---------- the five lists of the report

  ghost predicate ListsEverywhere<V>(xs: seq<V>, places: seq<Place>, due: Place -> Option<V>) {
    && |places| == |xs|
    && (forall i :: 0 <= i < |xs| ==> due(places[i]) == Some(xs[i]))
    && (forall i, j :: 0 <= i < j < |places| ==> Before(places[i], places[j]))
    && forall p :: due(p).Some? ==> p in places
  }

  /** The list of what is due over the whole input, each item once and in the order of their places. */
  ghost predicate ListsAll<V>(xs: seq<V>, due: Place -> Option<V>) {
    exists places :: ListsEverywhere(xs, places, due)
  }

  lemma {:induction false} Everywhere<V>(xs: seq<V>, due: Place -> Option<V>, from: Place, to: Place)
    requires Lists(xs, due, from, to) && forall p :: due(p).Some? ==> Within(p, from, to)
    ensures ListsAll(xs, due)
  {
    var places :| ListsAt(xs, places, due, from, to);
    assert ListsEverywhere(xs, places, due);
  }

  lemma {:induction false} DueWithin(items: seq<RawCheckpoint>, s: Settings, p: Place)
    ensures var t := DuesOf(items, s);
            t.finding(p).Some? || t.unchecked(p).Some? || t.blocker(p).Some? || t.binding(p).Some? || t.open(p).Some? ==>
              Within(p, Place(0, FIELDS, -1, 0), Place(|items|, FIELDS, -1, 0))
  {
  }

  /** The notes hold exactly what is due over the whole input. */
  ghost predicate NotesExactly(notes: Notes, t: Dues) {
    && ListsAll(notes.findings, t.finding)
    && ListsAll(notes.unchecked, t.unchecked)
    && ListsAll(notes.blockers, t.blocker)
    && ListsAll(notes.bindings, t.binding)
    && ListsAll(notes.open, t.open)
  }

  lemma {:induction false} ReviewsExactly(items: seq<RawCheckpoint>, s: Settings)
    ensures NotesExactly(Gather(items, |items|, CheckpointVisit(s)), DuesOf(items, s))
  {
    var notes, t, from, to := Gather(items, |items|, CheckpointVisit(s)), DuesOf(items, s), Place(0, FIELDS, -1, 0), Place(|items|, FIELDS, -1, 0);
    ReviewsAccount(items, s);
    forall p
      ensures t.finding(p).Some? || t.unchecked(p).Some? || t.blocker(p).Some? || t.binding(p).Some? || t.open(p).Some? ==> Within(p, from, to)
    {
      DueWithin(items, s, p);
    }
    Everywhere(notes.findings, t.finding, from, to);
    Everywhere(notes.unchecked, t.unchecked, from, to);
    Everywhere(notes.blockers, t.blocker, from, to);
    Everywhere(notes.bindings, t.binding, from, to);
    Everywhere(notes.open, t.open, from, to);
  }

  /** What is found about the input as a whole. */
  function InputFindings(input: Input): seq<Finding> {
    match input
    case NotAnArray => [Finding(CheckpointsNotArray, "", "", "", -1, [])]
    case Checkpoints(items) => if items == [] then [Finding(CheckpointsEmpty, "", "", "", -1, [])] else []
  }

  lemma {:induction false} InputNotesExactly(input: Input, s: Settings)
    ensures var notes, own := InputNotes(input, s), Gather(ItemsOf(input), |ItemsOf(input)|, CheckpointVisit(s));
            && notes.findings == InputFindings(input) + own.findings && notes.unchecked == own.unchecked
            && notes.blockers == own.blockers && notes.bindings == own.bindings && notes.open == own.open
  {
    var own := Gather(ItemsOf(input), |ItemsOf(input)|, CheckpointVisit(s));
    ThenNothing(own);
  }

  /** The whole report for any input: the unchecked criteria, blockers, evidence bindings and open checkpoints are
      exactly those that are due, in order; and so are the findings about single checkpoints, which stand after what
      is found about the input as a whole and before what comparing the checkpoints adds. */
  lemma {:induction false} ReportExactly(input: Input, s: Settings, report: Report) returns (own: Notes, compared: seq<Finding>)
    requires ReportFor(input, s, report)
    ensures NotesExactly(own, DuesOf(ItemsOf(input), s)) && GraphFindings(ItemsOf(input), s, compared)
    ensures report.notes == own.(findings := InputFindings(input) + own.findings + compared)
  {
    var items := ItemsOf(input);
    compared :| GraphReport(All(items), UniqueStrings(s.requiredRoles), s.completedStatus, compared)
                && report == Conclude(Extended(InputNotes(input, s), compared), All(items), s);
    own := Gather(items, |items|, CheckpointVisit(s));
    ReviewsExactly(items, s);
    GraphFindingsExactly(items, s, compared);
    InputNotesExactly(input, s);
  }

  /** The evidence bindings of a report are exactly those due: one for each entry with a command id of each checked
      criterion of a required role, in order of checkpoint, criterion and entry. */
  lemma {:induction false} BindingsExactly(input: Input, s: Settings, report: Report)
    requires ReportFor(input, s, report)
    ensures ListsAll(report.notes.bindings, DuesOf(ItemsOf(input), s).binding)
  {
    var own, compared := ReportExactly(input, s, report);
  }

  // ---------- the conclusion

  /** Findings that make the failure one of the checkpoint graph. */
  predicate IsStructural(code: Code) {
    || code.CheckpointsNotArray? || code.CheckpointsEmpty? || code.CheckpointNotObject? || code.IdMissing? || code.IdDuplicate?
    || code.RoleMissing? || code.PrerequisitesNotArray? || code.PrerequisiteIdInvalid? || code.PrerequisiteDuplicate?
    || code.PrerequisiteMissing? || code.PrerequisiteSelfReference? || code.CompletedBeforePrerequisite?
    || code.PrerequisiteCycle? || code.FinalValidationUnlinked?
  }

  ghost predicate SomeStructural(findings: seq<Finding>) {
    exists f :: f in findings && IsStructural(f.code)
  }

  function CompletedPlaces(items: seq<RawCheckpoint>, n: nat, completedStatus: string): set<nat>
    requires n <= |items|
  {
    set k: nat | k < n && items[k].status == completedStatus
  }

  lemma {:induction false} CompletedCounted(all: seq<Normalized>, places: set<nat>, s: Settings)
    requires forall k: nat :: k in places <==> k < |all| && all[k].status == s.completedStatus
    ensures CompletedCount(all, s) == |places|
    decreases |all|
  {
    if all == [] {
      assert places == {};
    } else {
      var last := |all| - 1;
      CompletedCounted(all[..last], places - {last}, s);
      if all[last].status == s.completedStatus { assert places == places - {last} + {last}; }
    }
  }

  lemma {:induction false} Counts(items: seq<RawCheckpoint>, s: Settings)
    ensures |All(items)| == |items|
    ensures CompletedCount(All(items), s) == |CompletedPlaces(items, |items|, s.completedStatus)|
  {
    var places := CompletedPlaces(items, |items|, s.completedStatus);
    forall k: nat ensures k in places <==> k < |All(items)| && All(items)[k].status == s.completedStatus {
      if k < |items| { NormalizedAt(items, k); }
    }
    CompletedCounted(All(items), places, s);
  }

  lemma {:induction false} Structural(findings: seq<Finding>)
    ensures SomeStructural(findings) <==> exists f :: f in findings && CategoryOf(f.code) in {Graph, Structure}
  {
    forall f | f in findings ensures CategoryOf(f.code) in {Graph, Structure} <==> IsStructural(f.code) {
    }
  }

  /** Exactly the inputs that leave no finding but wait for outside evidence. */
  ghost predicate Waiting(input: Input, s: Settings) {
    Sound(input, s) && !Ready(input, s)
  }

  lemma {:induction false} Concluded(input: Input, s: Settings, report: Report)
    requires ReportFor(input, s, report)
    ensures report == Conclude(report.notes, All(ItemsOf(input)), s)
  {
  }

  lemma {:induction false} KindExactly(notes: Notes, all: seq<Normalized>, s: Settings)
    ensures var report := Conclude(notes, all, s);
            report.failureKind ==
            if report.ready then NoFailure else if SomeStructural(notes.findings) then InvalidCheckpointGraph
            else if report.blocked then ExternalEvidenceLacking else LocalCheckpointIncomplete
  {
    Structural(notes.findings);
  }

  lemma {:induction false} BlockedExactly(notes: Notes, all: seq<Normalized>, s: Settings)
    requires notes.findings == [] ==> (notes.open == [] <==> notes.blockers == [])
    requires notes.findings == [] ==> forall o :: o in notes.open ==> o.status == BLOCKED_STATUS
    ensures var report := Conclude(notes, all, s);
            && (report.blocked <==> report.state == Blocked) && (report.state == Verified <==> report.ready)
            && (report.blocked <==> !report.ready && notes.findings == [])
  {
  }

  /** The state and the kind of failure of any report. */
  lemma {:induction false} ConclusionExactly(input: Input, s: Settings, report: Report)
    requires ReportFor(input, s, report)
    ensures report.state == if Ready(input, s) then Verified else if Sound(input, s) then Blocked else Failed
    ensures report.ready == Ready(input, s) && report.blocked == Waiting(input, s)
    ensures report.failureKind ==
            if Ready(input, s) then NoFailure
            else if Sound(input, s) then ExternalEvidenceLacking
            else if SomeStructural(report.notes.findings) then InvalidCheckpointGraph
            else LocalCheckpointIncomplete
  {
    var all := All(ItemsOf(input));
    VerdictExactly(input, s, report);
    if report.notes.findings == [] { OpenAreBlocked(input, s, report); }
    Concluded(input, s, report);
    BlockedExactly(report.notes, all, s);
    KindExactly(report.notes, all, s);
  }

  /** What any report counts. */
  lemma {:induction false} CountsExactly(input: Input, s: Settings, report: Report)
    requires ReportFor(input, s, report)
    ensures report.checkpointCount == |ItemsOf(input)|
    ensures report.completedCount == |CompletedPlaces(ItemsOf(input), |ItemsOf(input)|, s.completedStatus)|
    ensures report.requiredRoles == UniqueStrings(s.requiredRoles)
  {
    Counts(ItemsOf(input), s);
  }

  lemma {:induction false} OpenAreBlocked(input: Input, s: Settings, report: Report)
    requires ReportFor(input, s, report) && report.notes.findings == []
    ensures forall o :: o in report.notes.open ==> o.status == BLOCKED_STATUS
  {
    ReviewsAccepted(input, s);
  }

  // ---------- ids of checkpoints that declare none

  function Digit(c: char): nat { if '0' <= c <= '9' then c as int - '0' as int else 0 }

  function Reading(text: string): nat {
    if text == "" then 0 else Reading(text[..|text| - 1]) * 10 + Digit(text[|text| - 1])
  }

  /** A number's decimal digits read back as the number. */
  lemma {:induction false} DecimalReads(n: nat)
    ensures Reading(Decimal(n)) == n
  {
    var text := Decimal(n);
    if n < 10 {
      assert text[..|text| - 1] == "";
    } else {
      DecimalReads(n / 10);
      assert text[..|text| - 1] == Decimal(n / 10);
    }
    DigitAt(n % 10);
  }

  lemma {:induction false} DigitAt(d: nat)
    requires d < 10
    ensures Digit("0123456789"[d]) == d
  {
  }

  /** Checkpoints that declare no id get different ones. */
  lemma {:induction false} GeneratedIdsApart(a: RawCheckpoint, i: nat, b: RawCheckpoint, j: nat)
    requires a.declaredId == "" == b.declaredId && i != j
    ensures CheckpointId(a, i) != CheckpointId(b, j)
  {
    DecimalReads(i);
    DecimalReads(j);
    var front := "checkpoint-index-";
    assert (front + Decimal(i))[|front|..] == Decimal(i) && (front + Decimal(j))[|front|..] == Decimal(j);
  }
}
