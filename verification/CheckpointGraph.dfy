/** The passes of the checkpoint reducer that compare checkpoints with one another,
    and the declarative condition under which they report nothing. */
module CheckpointGraph {
  import opened Graphs
  import opened Sorting
  import opened CheckpointRules
  import opened CheckpointCycles

  datatype Normalized = Normalized(id: string, declaredId: string, role: string, status: string, prerequisites: seq<string>)

  type Index = map<string, Normalized>

  /** A declared id is the id. */
  ghost predicate ConsistentIds(all: seq<Normalized>) {
    forall i :: 0 <= i < |all| && all[i].declaredId != "" ==> all[i].id == all[i].declaredId
  }

  /** For every declared id, the first checkpoint that declares it. */
  function FirstDeclared(all: seq<Normalized>, n: nat): (m: Index)
    requires n <= |all|
  {
    if n == 0 then map[]
    else
      var m, c := FirstDeclared(all, n - 1), all[n - 1];
      if c.declaredId != "" && c.id !in m then m[c.id := c] else m
  }

  /** The declared ids in order of first declaration. */
  function DeclaredIds(all: seq<Normalized>, n: nat): seq<string>
    requires n <= |all|
  {
    if n == 0 then []
    else
      var ids, c := DeclaredIds(all, n - 1), all[n - 1];
      if c.declaredId != "" && c.id !in FirstDeclared(all, n - 1) then ids + [c.id] else ids
  }

  function PrerequisitesOf(byId: Index): Prerequisites {
    map id | id in byId :: byId[id].prerequisites
  }

  function Roles(all: seq<Normalized>): seq<string> {
    seq(|all|, i requires 0 <= i < |all| => all[i].role)
  }

  /** The declared ids, one for each checkpoint; the empty string where none is declared. */
  function Ids(all: seq<Normalized>): seq<string> {
    seq(|all|, i requires 0 <= i < |all| => all[i].declaredId)
  }

  function WithRole(all: seq<Normalized>, role: string): seq<Normalized> {
    if all == [] then []
    else WithRole(all[..|all| - 1], role) + if all[|all| - 1].role == role then [all[|all| - 1]] else []
  }

  // ---------- findings of each pass

  /** What visiting the first `n` items in order appends. */
  function Collect<T>(items: seq<T>, n: nat, visit: T -> seq<Finding>): seq<Finding>
    requires n <= |items|
  {
    if n == 0 then [] else Collect(items, n - 1, visit) + visit(items[n - 1])
  }

  lemma {:induction false} CollectEmpty<T>(items: seq<T>, n: nat, visit: T -> seq<Finding>)
    requires n <= |items|
    ensures Collect(items, n, visit) == [] <==> forall i :: 0 <= i < n ==> visit(items[i]) == []
  {
    if n > 0 {
      CollectEmpty(items, n - 1, visit);
    }
  }

  function DuplicateVisit(declared: seq<string>): string -> seq<Finding> {
    (id: string) => if multiset(declared)[id] > 1 then [About(IdDuplicate, id, "")] else []
  }

  function Link(code: Code, c: Normalized, prerequisiteId: string): Finding {
    Finding(code, c.id, c.role, prerequisiteId, -1, [])
  }

  function LinkFindings(c: Normalized, p: string, byId: Index, completedStatus: string): seq<Finding> {
    if p !in byId then [Link(PrerequisiteMissing, c, p)]
    else
      (if p == c.id then [Link(PrerequisiteSelfReference, c, p)] else [])
      + (if c.status == completedStatus && byId[p].status != completedStatus
         then [Link(CompletedBeforePrerequisite, c, p)] else [])
  }

  function LinkVisit(c: Normalized, byId: Index, completedStatus: string): string -> seq<Finding> {
    (p: string) => LinkFindings(c, p, byId, completedStatus)
  }

  function LinksVisit(byId: Index, completedStatus: string): Normalized -> seq<Finding> {
    (c: Normalized) => Collect(c.prerequisites, |c.prerequisites|, LinkVisit(c, byId, completedStatus))
  }

  function RoleVisit(held: seq<string>): string -> seq<Finding> {
    (role: string) =>
      var count := multiset(held)[role];
      if count == 0 then [About(RequiredRoleMissing, "", role)]
      else if count != 1 then [About(RequiredRoleDuplicate, "", role)]
      else []
  }

  ghost function FinalFindings(all: seq<Normalized>, byId: Index): seq<Finding> {
    var implementation, final := WithRole(all, IMPLEMENTATION), WithRole(all, FINAL_VALIDATION);
    if |implementation| == 1 && |final| == 1
       && !Reaches(AsGraph(PrerequisitesOf(byId)), VertexSet(final[0].prerequisites), implementation[0].id)
    then [Finding(FinalValidationUnlinked, final[0].id, FINAL_VALIDATION, implementation[0].id, -1, [])]
    else []
  }

  /** The findings of every pass, appended in order. */
  ghost function PassFindings(all: seq<Normalized>, byId: Index, ids: seq<string>, cycles: seq<Finding>,
                              roles: seq<string>, completedStatus: string): seq<Finding> {
    Collect(ids, |ids|, DuplicateVisit(Ids(all)))
    + Collect(all, |all|, LinksVisit(byId, completedStatus))
    + cycles
    + Collect(roles, |roles|, RoleVisit(Roles(all)))
    + FinalFindings(all, byId)
  }

  /** `findings` is what comparing the checkpoints may report. */
  ghost predicate GraphReport(all: seq<Normalized>, roles: seq<string>, completedStatus: string, findings: seq<Finding>) {
    var byId, ids := FirstDeclared(all, |all|), DeclaredIds(all, |all|);
    exists cycles ::
      && CycleReport(PrerequisitesOf(byId), cycles)
      && findings == PassFindings(all, byId, ids, cycles, roles, completedStatus)
  }

  // ---------- the passes

  method CompareCheckpoints(all: seq<Normalized>, roles: seq<string>, completedStatus: string) returns (findings: seq<Finding>)
    requires ConsistentIds(all) && "" !in roles
    ensures GraphReport(all, roles, completedStatus, findings)
  {
    var duplicates := CheckDuplicates(all);
    var byId, ids := IndexById(all);
    var links := CheckLinks(all, byId, completedStatus);
    IndexCovers(all);
    var search := new CycleSearch(PrerequisitesOf(byId));
    search.Run(ids);
    var roleFindings := CheckRoles(all, roles);
    var final := CheckFinalValidation(all, byId);
    findings := duplicates + links + search.findings + roleFindings + final;
    assert findings == PassFindings(all, byId, ids, search.findings, roles, completedStatus);
  }

  method IndexById(all: seq<Normalized>) returns (byId: Index, ids: seq<string>)
    ensures byId == FirstDeclared(all, |all|) && ids == DeclaredIds(all, |all|)
  {
    byId, ids := map[], [];
    for i := 0 to |all|
      invariant byId == FirstDeclared(all, i) && ids == DeclaredIds(all, i)
    {
      if all[i].declaredId != "" && all[i].id !in byId {
        byId := byId[all[i].id := all[i]];
        ids := ids + [all[i].id];
      }
    }
  }

  /** How often a value occurs in the first places of a list, kept up to date in a map. */
  ghost predicate Counts(counts: map<string, nat>, xs: seq<string>) {
    && "" !in counts
    && forall x :: x != "" ==> multiset(xs)[x] == if x in counts then counts[x] else 0
  }

  method CountOne(counts: map<string, nat>, ghost xs: seq<string>, x: string) returns (r: map<string, nat>)
    requires Counts(counts, xs)
    ensures Counts(r, xs + [x])
    ensures r.Keys == counts.Keys + if x != "" then {x} else {}
  {
    r := if x == "" then counts else counts[x := (if x in counts then counts[x] else 0) + 1];
  }

  method CheckDuplicates(all: seq<Normalized>) returns (findings: seq<Finding>)
    requires ConsistentIds(all)
    ensures findings == Collect(DeclaredIds(all, |all|), |DeclaredIds(all, |all|)|, DuplicateVisit(Ids(all)))
  {
    var counts, ids := CountIds(all);
    IndexCovers(all);
    findings := ReportRepeated(ids, counts, Ids(all));
  }

  lemma {:induction false} NextDeclared(all: seq<Normalized>, i: nat)
    requires ConsistentIds(all) && i < |all|
    ensures var id := all[i].declaredId;
            && FirstDeclared(all, i + 1).Keys == FirstDeclared(all, i).Keys + (if id != "" then {id} else {})
            && DeclaredIds(all, i + 1) == DeclaredIds(all, i) + (if id != "" && id !in FirstDeclared(all, i) then [id] else [])
            && Ids(all)[i] == id
  {
  }

  /** The ids met in the first `i` places, in order, with how often each was met. */
  ghost predicate Counted(all: seq<Normalized>, i: nat, counts: map<string, nat>, ids: seq<string>)
    requires i <= |all|
  {
    && ids == DeclaredIds(all, i) && counts.Keys == FirstDeclared(all, i).Keys
    && Counts(counts, Ids(all)[..i])
  }

  method CountNext(all: seq<Normalized>, i: nat, before: map<string, nat>, listed: seq<string>)
    returns (counts: map<string, nat>, ids: seq<string>)
    requires ConsistentIds(all) && i < |all| && Counted(all, i, before, listed)
    ensures Counted(all, i + 1, counts, ids)
  {
    NextDeclared(all, i);
    assert Ids(all)[..i + 1] == Ids(all)[..i] + [Ids(all)[i]];
    var id := all[i].declaredId;
    ids := if id != "" && id !in before then listed + [id] else listed;
    counts := CountOne(before, Ids(all)[..i], id);
  }

  method CountIds(all: seq<Normalized>) returns (counts: map<string, nat>, ids: seq<string>)
    requires ConsistentIds(all)
    ensures ids == DeclaredIds(all, |all|) && counts.Keys == FirstDeclared(all, |all|).Keys
    ensures Counts(counts, Ids(all))
  {
    counts, ids := map[], [];
    for i := 0 to |all|
      invariant Counted(all, i, counts, ids)
    {
      counts, ids := CountNext(all, i, counts, ids);
    }
    assert Ids(all)[..|all|] == Ids(all);
  }

  method ReportRepeated(ids: seq<string>, counts: map<string, nat>, ghost declared: seq<string>) returns (findings: seq<Finding>)
    requires Counts(counts, declared) && VertexSet(ids) == counts.Keys
    ensures findings == Collect(ids, |ids|, DuplicateVisit(declared))
  {
    findings := [];
    for i := 0 to |ids|
      invariant findings == Collect(ids, i, DuplicateVisit(declared))
    {
      assert ids[i] in VertexSet(ids);
      if counts[ids[i]] > 1 { findings := findings + [About(IdDuplicate, ids[i], "")]; }
    }
  }

  method CheckLinks(all: seq<Normalized>, byId: Index, completedStatus: string) returns (findings: seq<Finding>)
    ensures findings == Collect(all, |all|, LinksVisit(byId, completedStatus))
  {
    findings := [];
    for i := 0 to |all|
      invariant findings == Collect(all, i, LinksVisit(byId, completedStatus))
    {
      var c, own := all[i], [];
      for j := 0 to |c.prerequisites|
        invariant own == Collect(c.prerequisites, j, LinkVisit(c, byId, completedStatus))
      {
        var p, link := c.prerequisites[j], [];
        if p !in byId {
          own := own + [Link(PrerequisiteMissing, c, p)];
          continue;
        }
        if p == c.id { link := link + [Link(PrerequisiteSelfReference, c, p)]; }
        if c.status == completedStatus && byId[p].status != completedStatus {
          link := link + [Link(CompletedBeforePrerequisite, c, p)];
        }
        own := own + link;
      }
      findings := findings + own;
    }
  }

  method CheckRoles(all: seq<Normalized>, roles: seq<string>) returns (findings: seq<Finding>)
    requires "" !in roles
    ensures findings == Collect(roles, |roles|, RoleVisit(Roles(all)))
  {
    var counts: map<string, nat> := map[];
    for i := 0 to |all|
      invariant Counts(counts, Roles(all)[..i])
    {
      assert Roles(all)[..i + 1] == Roles(all)[..i] + [Roles(all)[i]];
      counts := CountOne(counts, Roles(all)[..i], all[i].role);
    }
    assert Roles(all)[..|all|] == Roles(all);
    findings := ReportRoles(roles, counts, Roles(all));
  }

  method ReportRoles(roles: seq<string>, counts: map<string, nat>, ghost held: seq<string>) returns (findings: seq<Finding>)
    requires Counts(counts, held) && "" !in roles
    ensures findings == Collect(roles, |roles|, RoleVisit(held))
  {
    findings := [];
    for i := 0 to |roles|
      invariant findings == Collect(roles, i, RoleVisit(held))
    {
      assert roles[i] in roles;
      var count := if roles[i] in counts then counts[roles[i]] else 0;
      if count == 0 {
        findings := findings + [About(RequiredRoleMissing, "", roles[i])];
      } else if count != 1 {
        findings := findings + [About(RequiredRoleDuplicate, "", roles[i])];
      }
    }
  }

  method CheckFinalValidation(all: seq<Normalized>, byId: Index) returns (findings: seq<Finding>)
    ensures findings == FinalFindings(all, byId)
  {
    findings := [];
    var implementation, final := WithRole(all, IMPLEMENTATION), WithRole(all, FINAL_VALIDATION);
    if |implementation| == 1 && |final| == 1 {
      var linked := DependsOn(PrerequisitesOf(byId), final[0].prerequisites, implementation[0].id);
      if !linked {
        findings := [Finding(FinalValidationUnlinked, final[0].id, FINAL_VALIDATION, implementation[0].id, -1, [])];
      }
    }
  }

  // ---------- the declarative condition

  /** What the comparison of checkpoints depends on: `needs` are the prerequisite ids. */
  datatype Node = Node(id: string, role: string, status: string, needs: set<string>)

  ghost predicate DistinctIds(nodes: seq<Node>) {
    forall i, j :: 0 <= i < j < |nodes| ==> nodes[i].id != nodes[j].id
  }

  ghost predicate Resolves(nodes: seq<Node>, id: string) {
    exists i :: 0 <= i < |nodes| && nodes[i].id == id
  }

  /** Each id depends on what the nodes with that id need. */
  ghost function DependencyGraph(nodes: seq<Node>): Graph {
    var ids := set n | n in nodes :: n.id;
    map id | id in ids :: set n, p | n in nodes && n.id == id && p in n.needs :: p
  }

  ghost function NodeRoles(nodes: seq<Node>): seq<string> {
    seq(|nodes|, i requires 0 <= i < |nodes| => nodes[i].role)
  }

  /** Exactly one checkpoint holds the role. */
  ghost predicate HeldOnce(nodes: seq<Node>, role: string) {
    multiset(NodeRoles(nodes))[role] == 1
  }

  ghost predicate EachHeldOnce(nodes: seq<Node>, roles: seq<string>) {
    forall role :: role in roles ==> HeldOnce(nodes, role)
  }

  /** If there is exactly one implementation and one final validation, then the second depends
      on the first through some chain of prerequisites. */
  ghost predicate FinalDependsOnImplementation(nodes: seq<Node>) {
    HeldOnce(nodes, IMPLEMENTATION) && HeldOnce(nodes, FINAL_VALIDATION) ==>
      forall f, m :: f in nodes && f.role == FINAL_VALIDATION && m in nodes && m.role == IMPLEMENTATION ==>
        Reaches(DependencyGraph(nodes), f.needs, m.id)
  }

  ghost predicate AllResolve(nodes: seq<Node>) {
    forall n, p :: n in nodes && p in n.needs ==> Resolves(nodes, p)
  }

  ghost predicate NoLoops(nodes: seq<Node>) {
    forall n :: n in nodes ==> n.id !in n.needs
  }

  ghost predicate SoundGraph(nodes: seq<Node>, roles: seq<string>) {
    && DistinctIds(nodes)
    && AllResolve(nodes)
    && Acyclic(DependencyGraph(nodes))
    && EachHeldOnce(nodes, roles)
    && FinalDependsOnImplementation(nodes)
  }

  /** No checkpoint is completed before one of its prerequisites. */
  ghost predicate CompletedInOrder(nodes: seq<Node>, completedStatus: string) {
    forall a, b :: a in nodes && b in nodes && a.status == completedStatus && b.id in a.needs ==> b.status == completedStatus
  }

  // ---------- the passes meet the condition

  /** The normalized list says the same as the nodes, all of which have an id. */
  ghost predicate Represents(nodes: seq<Node>, all: seq<Normalized>) {
    && |all| == |nodes|
    && forall i :: 0 <= i < |nodes| ==>
         && nodes[i].id != ""
         && all[i].id == all[i].declaredId == nodes[i].id && all[i].role == nodes[i].role && all[i].status == nodes[i].status
         && VertexSet(all[i].prerequisites) == nodes[i].needs
  }

  /** The index holds each declared id with a checkpoint that declares it. */
  ghost predicate Indexes(all: seq<Normalized>, byId: Index) {
    && (forall id :: id in byId ==> id != "" && exists i :: 0 <= i < |all| && all[i] == byId[id] && all[i].declaredId == id)
    && forall i :: 0 <= i < |all| && all[i].declaredId != "" ==> all[i].declaredId in byId
  }

  lemma {:induction false} IndexOneMore(front: seq<Normalized>, byId: Index, c: Normalized)
    requires Indexes(front, byId) && (c.declaredId != "" ==> c.id == c.declaredId)
    ensures Indexes(front + [c], if c.declaredId != "" && c.id !in byId then byId[c.id := c] else byId)
  {
    var grown := if c.declaredId != "" && c.id !in byId then byId[c.id := c] else byId;
    forall id | id in grown ensures exists i :: 0 <= i < |front + [c]| && (front + [c])[i] == grown[id] && (front + [c])[i].declaredId == id {
      if id in byId {
        var i :| 0 <= i < |front| && front[i] == byId[id] && front[i].declaredId == id;
        assert (front + [c])[i] == grown[id];
      } else {
        assert (front + [c])[|front|] == grown[id];
      }
    }
  }

  lemma {:induction false} IndexUpTo(all: seq<Normalized>, n: nat)
    requires ConsistentIds(all) && n <= |all|
    ensures Indexes(all[..n], FirstDeclared(all, n))
    ensures VertexSet(DeclaredIds(all, n)) == FirstDeclared(all, n).Keys
  {
    if n > 0 {
      IndexUpTo(all, n - 1);
      var m, c := FirstDeclared(all, n - 1), all[n - 1];
      assert all[..n] == all[..n - 1] + [c];
      IndexOneMore(all[..n - 1], m, c);
      assert VertexSet(DeclaredIds(all, n - 1) + [c.id]) == VertexSet(DeclaredIds(all, n - 1)) + {c.id};
    }
  }

  lemma {:induction false} IndexCovers(all: seq<Normalized>)
    requires ConsistentIds(all)
    ensures Indexes(all, FirstDeclared(all, |all|))
    ensures VertexSet(DeclaredIds(all, |all|)) == FirstDeclared(all, |all|).Keys
  {
    IndexUpTo(all, |all|);
    assert all[..|all|] == all;
  }

  lemma {:induction false} AtMostOnce(xs: seq<string>, x: string)
    ensures multiset(xs)[x] <= 1 <==> forall i, j :: 0 <= i < j < |xs| && xs[i] == x ==> xs[j] != x
  {
    if i, j :| 0 <= i < j < |xs| && xs[i] == x && xs[j] == x {
      TwoOccurrences(xs, i, j);
    } else if i :| 0 <= i < |xs| && xs[i] == x {
      OneOccurrence(xs, i);
    } else {
      assert x !in multiset(xs);
    }
  }

  lemma {:induction false} DuplicatesAccepted(declared: seq<string>, ids: seq<string>)
    requires forall i :: 0 <= i < |declared| ==> declared[i] in ids
    ensures Collect(ids, |ids|, DuplicateVisit(declared)) == [] <==> NoRepeats(declared)
  {
    var visit := DuplicateVisit(declared);
    CollectEmpty(ids, |ids|, visit);
    forall k | 0 <= k < |ids| ensures visit(ids[k]) == [] <==> multiset(declared)[ids[k]] <= 1 {
    }
    if i, j :| 0 <= i < j < |declared| && declared[i] == declared[j] {
      assert declared[i] in ids;
      var k :| 0 <= k < |ids| && ids[k] == declared[i];
      TwoOccurrences(declared, i, j);
      assert visit(ids[k]) != [];
    } else {
      forall k | 0 <= k < |ids| ensures visit(ids[k]) == [] {
        AtMostOnce(declared, ids[k]);
      }
    }
  }

  lemma {:induction false} SameRoles(nodes: seq<Node>, all: seq<Normalized>)
    requires Represents(nodes, all)
    ensures Roles(all) == NodeRoles(nodes)
  {
  }

  lemma {:induction false} SameIds(nodes: seq<Node>, all: seq<Normalized>)
    requires Represents(nodes, all)
    ensures NoRepeats(Ids(all)) <==> DistinctIds(nodes)
    ensures forall i :: 0 <= i < |all| ==> Ids(all)[i] == all[i].declaredId
  {
    assert forall i :: 0 <= i < |nodes| ==> Ids(all)[i] == nodes[i].id;
  }

  lemma {:induction false} RolesAccepted(nodes: seq<Node>, all: seq<Normalized>, roles: seq<string>)
    requires Represents(nodes, all)
    ensures Collect(roles, |roles|, RoleVisit(Roles(all))) == [] <==> EachHeldOnce(nodes, roles)
  {
    SameRoles(nodes, all);
    CollectEmpty(roles, |roles|, RoleVisit(Roles(all)));
    assert forall i :: 0 <= i < |roles| ==> (RoleVisit(Roles(all))(roles[i]) == [] <==> HeldOnce(nodes, roles[i]));
  }

  lemma {:induction false} WithRoleMembers(all: seq<Normalized>, role: string)
    ensures |WithRole(all, role)| == multiset(Roles(all))[role]
    ensures forall c :: c in WithRole(all, role) <==> c in all && c.role == role
  {
    if all != [] {
      var front, last := all[..|all| - 1], all[|all| - 1];
      WithRoleMembers(front, role);
      assert all == front + [last];
      assert Roles(all) == Roles(front) + [last.role];
    }
  }

  lemma {:induction false} NodeInIndex(nodes: seq<Node>, all: seq<Normalized>, byId: Index, k: nat)
    requires Represents(nodes, all) && Indexes(all, byId) && DistinctIds(nodes) && k < |nodes|
    ensures nodes[k].id in byId && byId[nodes[k].id] == all[k]
  {
    var id := nodes[k].id;
    assert all[k].declaredId in byId;
    var i :| 0 <= i < |all| && all[i] == byId[id] && all[i].declaredId == id;
    assert nodes[i].id == nodes[k].id;
  }

  lemma {:induction false} IndexedIffResolves(nodes: seq<Node>, all: seq<Normalized>, byId: Index, p: string)
    requires Represents(nodes, all) && Indexes(all, byId)
    ensures p in byId <==> Resolves(nodes, p)
  {
    if p in byId {
      var i :| 0 <= i < |all| && all[i] == byId[p] && all[i].declaredId == p;
      assert nodes[i].id == p;
    }
    if Resolves(nodes, p) {
      var k :| 0 <= k < |nodes| && nodes[k].id == p;
      assert all[k].declaredId in byId;
    }
  }

  /** With distinct ids, the edges leaving an id are the needs of its one node. */
  lemma {:induction false} DependencyEdges(nodes: seq<Node>, k: nat)
    requires DistinctIds(nodes) && k < |nodes|
    ensures nodes[k].id in DependencyGraph(nodes) && DependencyGraph(nodes)[nodes[k].id] == nodes[k].needs
  {
    assert nodes[k] in nodes;
    forall n | n in nodes && n.id == nodes[k].id ensures n == nodes[k] {
      var i :| 0 <= i < |nodes| && nodes[i] == n;
    }
  }

  /** With distinct ids the first-declaration index is the dependency graph. */
  lemma {:induction false} IndexIsDependencyGraph(nodes: seq<Node>, all: seq<Normalized>, byId: Index)
    requires Represents(nodes, all) && Indexes(all, byId) && DistinctIds(nodes)
    ensures AsGraph(PrerequisitesOf(byId)) == DependencyGraph(nodes)
  {
    var g, h := AsGraph(PrerequisitesOf(byId)), DependencyGraph(nodes);
    forall id ensures (id in g <==> id in h) && (id in g ==> g[id] == h[id]) {
      IndexedIffResolves(nodes, all, byId, id);
      if k :| 0 <= k < |nodes| && nodes[k].id == id {
        NodeInIndex(nodes, all, byId, k);
        DependencyEdges(nodes, k);
        assert g[id] == VertexSet(all[k].prerequisites);
      } else {
        assert forall n :: n in nodes ==> n.id != id;
      }
    }
  }

  lemma {:induction false} FinalAccepted(nodes: seq<Node>, all: seq<Normalized>, byId: Index)
    requires Represents(nodes, all) && Indexes(all, byId) && DistinctIds(nodes)
    ensures FinalFindings(all, byId) == [] <==> FinalDependsOnImplementation(nodes)
  {
    SameRoles(nodes, all);
    WithRoleMembers(all, IMPLEMENTATION);
    WithRoleMembers(all, FINAL_VALIDATION);
    if HeldOnce(nodes, IMPLEMENTATION) && HeldOnce(nodes, FINAL_VALIDATION) {
      IndexIsDependencyGraph(nodes, all, byId);
      var i := HolderOf(nodes, all, IMPLEMENTATION);
      var j := HolderOf(nodes, all, FINAL_VALIDATION);
    }
  }

  /** The one node with a role held once, and its normalized form. */
  lemma {:induction false} HolderOf(nodes: seq<Node>, all: seq<Normalized>, role: string) returns (i: nat)
    requires Represents(nodes, all) && HeldOnce(nodes, role)
    ensures |WithRole(all, role)| == 1
    ensures i < |nodes| && WithRole(all, role)[0] == all[i] && nodes[i] in nodes && nodes[i].role == role
    ensures forall n :: n in nodes && n.role == role ==> n == nodes[i]
  {
    SameRoles(nodes, all);
    WithRoleMembers(all, role);
    var held := WithRole(all, role);
    assert held[0] in held;
    i :| 0 <= i < |all| && all[i] == held[0];
    forall n | n in nodes && n.role == role ensures n == nodes[i] {
      var j :| 0 <= j < |nodes| && nodes[j] == n;
      assert all[j] in held;
    }
  }

  /** One link is silent exactly when the id resolves, is not the checkpoint's own, and
      completion respects the order. */
  ghost predicate LinkAllowed(nodes: seq<Node>, n: Node, p: string, completedStatus: string) {
    && Resolves(nodes, p) && p != n.id
    && (n.status == completedStatus ==> forall b :: b in nodes && b.id == p ==> b.status == completedStatus)
  }

  lemma {:induction false} LinkAccepted(nodes: seq<Node>, all: seq<Normalized>, byId: Index, completedStatus: string, i: nat, p: string)
    requires Represents(nodes, all) && Indexes(all, byId) && DistinctIds(nodes) && i < |nodes|
    ensures LinkFindings(all[i], p, byId, completedStatus) == [] <==> LinkAllowed(nodes, nodes[i], p, completedStatus)
  {
    IndexedIffResolves(nodes, all, byId, p);
    if k :| 0 <= k < |nodes| && nodes[k].id == p {
      NodeInIndex(nodes, all, byId, k);
      assert nodes[k] in nodes;
      forall b | b in nodes && b.id == p ensures b == nodes[k] {
        var j :| 0 <= j < |nodes| && nodes[j] == b;
      }
    }
  }

  lemma {:induction false} LinkPassAccepted(c: Normalized, byId: Index, completedStatus: string)
    ensures LinksVisit(byId, completedStatus)(c) == [] <==>
            forall p :: p in VertexSet(c.prerequisites) ==> LinkFindings(c, p, byId, completedStatus) == []
  {
    CollectEmpty(c.prerequisites, |c.prerequisites|, LinkVisit(c, byId, completedStatus));
    assert forall i :: 0 <= i < |c.prerequisites| ==>
      LinkVisit(c, byId, completedStatus)(c.prerequisites[i]) == LinkFindings(c, c.prerequisites[i], byId, completedStatus);
  }

  lemma {:induction false} LinksAccepted(nodes: seq<Node>, all: seq<Normalized>, byId: Index, completedStatus: string)
    requires Represents(nodes, all) && Indexes(all, byId) && DistinctIds(nodes)
    ensures Collect(all, |all|, LinksVisit(byId, completedStatus)) == [] <==>
            AllResolve(nodes) && NoLoops(nodes) && CompletedInOrder(nodes, completedStatus)
  {
    var visit := LinksVisit(byId, completedStatus);
    CollectEmpty(all, |all|, visit);
    forall i | 0 <= i < |nodes|
      ensures visit(all[i]) == [] <==> forall p :: p in nodes[i].needs ==> LinkAllowed(nodes, nodes[i], p, completedStatus)
    {
      LinkPassAccepted(all[i], byId, completedStatus);
      forall p ensures LinkFindings(all[i], p, byId, completedStatus) == [] <==> LinkAllowed(nodes, nodes[i], p, completedStatus) {
        LinkAccepted(nodes, all, byId, completedStatus, i, p);
      }
    }
    LinksForAll(nodes, completedStatus);
  }

  lemma {:induction false} LinksForAll(nodes: seq<Node>, completedStatus: string)
    ensures (forall i, p :: 0 <= i < |nodes| && p in nodes[i].needs ==> LinkAllowed(nodes, nodes[i], p, completedStatus)) <==>
            AllResolve(nodes) && NoLoops(nodes) && CompletedInOrder(nodes, completedStatus)
  {
    assert forall i :: 0 <= i < |nodes| ==> nodes[i] in nodes;
    if forall i, p :: 0 <= i < |nodes| && p in nodes[i].needs ==> LinkAllowed(nodes, nodes[i], p, completedStatus) {
      forall n, p | n in nodes && p in n.needs ensures LinkAllowed(nodes, n, p, completedStatus) {
        var i :| 0 <= i < |nodes| && nodes[i] == n;
      }
    }
  }

  /** An acyclic graph has no self-prerequisite. */
  lemma {:induction false} AcyclicHasNoLoop(nodes: seq<Node>, n: Node)
    requires DistinctIds(nodes) && n in nodes && n.id in n.needs
    ensures !Acyclic(DependencyGraph(nodes))
  {
    var k :| 0 <= k < |nodes| && nodes[k] == n;
    DependencyEdges(nodes, k);
    assert ClosedWalk(DependencyGraph(nodes), [n.id, n.id]);
  }

  lemma {:induction false} PassesAccepted(nodes: seq<Node>, all: seq<Normalized>, byId: Index, ids: seq<string>,
                                          cycles: seq<Finding>, roles: seq<string>, completedStatus: string)
    requires Represents(nodes, all) && Indexes(all, byId) && VertexSet(ids) == byId.Keys
    requires CycleReport(PrerequisitesOf(byId), cycles)
    ensures PassFindings(all, byId, ids, cycles, roles, completedStatus) == [] <==>
            SoundGraph(nodes, roles) && CompletedInOrder(nodes, completedStatus)
  {
    SameIds(nodes, all);
    forall i | 0 <= i < |Ids(all)| ensures Ids(all)[i] in ids {
      assert all[i].declaredId in VertexSet(ids);
    }
    DuplicatesAccepted(Ids(all), ids);
    RolesAccepted(nodes, all, roles);
    if DistinctIds(nodes) {
      FinalAccepted(nodes, all, byId);
      LinksAccepted(nodes, all, byId, completedStatus);
      CyclesAccepted(nodes, all, byId, cycles);
    }
  }

  lemma {:induction false} CyclesAccepted(nodes: seq<Node>, all: seq<Normalized>, byId: Index, cycles: seq<Finding>)
    requires Represents(nodes, all) && Indexes(all, byId) && DistinctIds(nodes)
    requires CycleReport(PrerequisitesOf(byId), cycles)
    ensures cycles == [] <==> Acyclic(DependencyGraph(nodes))
    ensures cycles == [] ==> NoLoops(nodes)
  {
    IndexIsDependencyGraph(nodes, all, byId);
    forall n | n in nodes && n.id in n.needs ensures !Acyclic(DependencyGraph(nodes)) {
      AcyclicHasNoLoop(nodes, n);
    }
  }

  /** Comparing the checkpoints reports nothing exactly on a sound graph in which completion
      respects the order. */
  lemma {:induction false} GraphAccepted(nodes: seq<Node>, all: seq<Normalized>, roles: seq<string>, completedStatus: string, findings: seq<Finding>)
    requires Represents(nodes, all) && GraphReport(all, roles, completedStatus, findings)
    ensures findings == [] <==> SoundGraph(nodes, roles) && CompletedInOrder(nodes, completedStatus)
  {
    var byId, ids := FirstDeclared(all, |all|), DeclaredIds(all, |all|);
    var cycles :| CycleReport(PrerequisitesOf(byId), cycles)
                  && findings == PassFindings(all, byId, ids, cycles, roles, completedStatus);
    IndexCovers(all);
    PassesAccepted(nodes, all, byId, ids, cycles, roles, completedStatus);
  }

  /** In a sound graph with ordered completion, completion is closed under reachability. */
  lemma {:induction false} CompletionIsClosed(nodes: seq<Node>, roles: seq<string>, completedStatus: string, a: Node, v: string)
    requires SoundGraph(nodes, roles) && CompletedInOrder(nodes, completedStatus)
    requires a in nodes && a.status == completedStatus && Reaches(DependencyGraph(nodes), {a.id}, v)
    ensures exists b :: b in nodes && b.id == v && b.status == completedStatus
  {
    var done := set b | b in nodes && b.status == completedStatus :: b.id;
    var g := DependencyGraph(nodes);
    forall u, w | u in done && Edge(g, u, w) ensures w in done {
      var b :| b in nodes && b.status == completedStatus && b.id == u;
      var k :| 0 <= k < |nodes| && nodes[k] == b;
      DependencyEdges(nodes, k);
      assert Resolves(nodes, w);
      var j :| 0 <= j < |nodes| && nodes[j].id == w;
      assert nodes[j] in nodes;
    }
    ReachedIsInside(g, done, {a.id}, v);
  }
}
