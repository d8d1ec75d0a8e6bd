/** The three Delete handlers, removal by removal, against their plans. */
module CascadeHandlers {
  import opened Common
  import opened Collections
  import opened Cascade

  /** What goes wrong during one request: the cursors stop early, and the removal numbered
      `call` fails after sparing some of the documents it should have removed. */
  datatype Outage = Outage(projectsRead: nat, inventoriesRead: nat, call: nat, spared: set<Id>)

  /** The values of an `$in` query. */
  function SetOf(ids: seq<Id>): set<Id> {
    set id | id in ids
  }

  class Database {
    var tables: Store

    constructor ()
      ensures tables == map[]
    {
      tables := map[];
    }

    /** `RemoveAll`, or `RemoveId`, as the `call`-th removal of the request. */
    method Remove(r: Removal, call: nat, outage: Outage, ghost before: Store, ghost plan: seq<Removal>) returns (ok: bool)
      requires call < |plan| && plan[call] == r && tables == Completed(before, plan, call)
      modifies this
      ensures ok <==> call != outage.call
      ensures tables == if ok then Completed(before, plan, call + 1) else Stopped(before, plan, outage.call, outage.spared)
    {
      ok := call != outage.call;
      tables := tables[r.table := Where(In(tables, r.table), Survives(r, if ok then {} else outage.spared))];
    }

    /** The loop that collects the ids of an owner's documents; the cursor delivers at most
        `limit` of them. */
    method Scan(t: Table, owner: Id, limit: nat) returns (ids: seq<Id>, complete: bool)
      ensures var all := OwnedDocs(tables, t, owner);
              && complete == (limit >= |all|)
              && (complete ==> SetOf(ids) == IdsOf(all))
              && SetOf(ids) == IdsOf(all[..if limit < |all| then limit else |all|])
    {
      var all := OwnedDocs(tables, t, owner);
      var n := if limit < |all| then limit else |all|;
      ids := [];
      var i := 0;
      while i < n
        invariant 0 <= i <= n && ids == Map(all[..i], DocId())
      {
        MapLast(all, i, DocId());
        ids := ids + [all[i].id];
        i := i + 1;
      }
      complete := limit >= |all|;
      assert forall k :: 0 <= k < n ==> ids[k] == all[..n][k].id;
      assert forall d :: d in all[..n] ==> exists k :: 0 <= k < n && all[..n][k] == d;
      assert all[..|all|] == all;
    }

    method DeleteOrganization(org: Id, outage: Outage) returns (ok: bool)
      modifies this
      ensures outage.projectsRead < |OwnedDocs(old(tables), Projects, org)| ==> !ok && tables == old(tables)
      ensures outage.projectsRead >= |OwnedDocs(old(tables), Projects, org)| ==>
                && tables == Stopped(old(tables), PlanFor(old(tables), org, outage.inventoriesRead), outage.call, outage.spared)
                && ok == (outage.call >= 11)
    {
      var projectIDs, complete := Scan(Projects, org, outage.projectsRead);
      if !complete {
        return false;
      }
      var invIDs, _ := Scan(Inventories, org, outage.inventoriesRead);
      var projects, inventories := SetOf(projectIDs), SetOf(invIDs);
      assert projects == ProjectsOf(tables, org);
      assert inventories == SeenOf(tables, org, outage.inventoriesRead);
      ghost var before := tables;
      ok := RemoveProjects(org, projects, inventories, outage);
      if !ok { return; }
      ok := RemoveInventories(org, projects, inventories, outage, before);
    }

    /** The first half: what the projects own, and the projects. */
    method RemoveProjects(org: Id, projects: set<Id>, ghost inventories: set<Id>, outage: Outage) returns (ok: bool)
      modifies this
      ensures ok == (outage.call >= 5)
      ensures var plan := OrganizationPlan(org, projects, inventories);
              tables == if ok then Completed(old(tables), plan, 5) else Stopped(old(tables), plan, outage.call, outage.spared)
    {
      ghost var before, plan := tables, OrganizationPlan(org, projects, inventories);
      assert Completed(before, plan, 0) == before;
      hide Completed;
      ok := Remove(OwnedBy(Jobs, projects), 0, outage, before, plan);
      if !ok { return; }
      ok := Remove(OwnedBy(JobTemplates, projects), 1, outage, before, plan);
      if !ok { return; }
      ok := Remove(OwnedBy(TerraformJobs, projects), 2, outage, before, plan);
      if !ok { return; }
      ok := Remove(OwnedBy(TerraformTemplates, projects), 3, outage, before, plan);
      if !ok { return; }
      ok := Remove(OwnedBy(Projects, {org}), 4, outage, before, plan);
    }

    /** The second half: what the inventories own, the inventories, and the rest. */
    method RemoveInventories(org: Id, ghost projects: set<Id>, inventories: set<Id>, outage: Outage, ghost before: Store)
      returns (ok: bool)
      requires tables == Completed(before, OrganizationPlan(org, projects, inventories), 5) && outage.call >= 5
      modifies this
      ensures ok == (outage.call >= 11)
      ensures tables == Stopped(before, OrganizationPlan(org, projects, inventories), outage.call, outage.spared)
    {
      hide Completed;
      ghost var plan := OrganizationPlan(org, projects, inventories);
      ok := Remove(OwnedBy(Hosts, inventories), 5, outage, before, plan);
      if !ok { return; }
      ok := Remove(OwnedBy(Groups, inventories), 6, outage, before, plan);
      if !ok { return; }
      ok := Remove(OwnedBy(Inventories, {org}), 7, outage, before, plan);
      if !ok { return; }
      ok := Remove(OwnedBy(Teams, {org}), 8, outage, before, plan);
      if !ok { return; }
      ok := Remove(OwnedBy(Credentials, {org}), 9, outage, before, plan);
      if !ok { return; }
      ok := Remove(One(Organizations, org), 10, outage, before, plan);
    }

    method DeleteProject(project: Id, outage: Outage) returns (ok: bool)
      modifies this
      ensures tables == Stopped(old(tables), ProjectPlan(project), outage.call, outage.spared) && ok == (outage.call >= 3)
    {
      ghost var before, plan := tables, ProjectPlan(project);
      ok := Remove(OwnedBy(Jobs, {project}), 0, outage, before, plan);
      if !ok { return; }
      ok := Remove(OwnedBy(JobTemplates, {project}), 1, outage, before, plan);
      if !ok { return; }
      ok := Remove(One(Projects, project), 2, outage, before, plan);
    }

    method DeleteInventory(inventory: Id, outage: Outage) returns (ok: bool)
      modifies this
      ensures tables == Stopped(old(tables), InventoryPlan(inventory), outage.call, outage.spared) && ok == (outage.call >= 3)
    {
      ghost var before, plan := tables, InventoryPlan(inventory);
      ok := Remove(OwnedBy(Hosts, {inventory}), 0, outage, before, plan);
      if !ok { return; }
      ok := Remove(OwnedBy(Groups, {inventory}), 1, outage, before, plan);
      if !ok { return; }
      ok := Remove(One(Inventories, inventory), 2, outage, before, plan);
    }
  }
}
