/** Deleting an organization, a project or an inventory: a list of removals, one collection
    after the other, any of which may fail half way and stop the handler. */
module Cascade {
  import opened Common
  import opened Collections

  datatype Table =
    | Organizations | Projects | Inventories | Teams | Credentials
    | Jobs | JobTemplates | TerraformJobs | TerraformTemplates | Hosts | Groups

  /** A document with the reference that names its owner, `organization_id`, `project_id` or
      `inventory_id`, depending on the collection, and for jobs and job templates the
      `inventory_id` of the inventory they use. */
  datatype Doc = Doc(id: Id, owner: Option<Id>, inventory: Option<Id>)

  /** The two references of a document. */
  datatype Ref = Owner | Uses

  type Store = map<Table, seq<Doc>>

  /** The documents of a collection; a collection nobody wrote to is empty. */
  function In(s: Store, t: Table): seq<Doc> {
    if t in s then s[t] else []
  }

  /** Where the owners of a collection's documents live. */
  function OwnerTable(t: Table): Option<Table> {
    match t
    case Organizations => None
    case Projects | Inventories | Teams | Credentials => Some(Organizations)
    case Jobs | JobTemplates | TerraformJobs | TerraformTemplates => Some(Projects)
    case Hosts | Groups => Some(Inventories)
  }

  /** Where the documents live that a reference names. */
  function Target(t: Table, ref: Ref): Option<Table> {
    match ref
    case Owner => OwnerTable(t)
    case Uses => if t == Jobs || t == JobTemplates then Some(Inventories) else None
  }

  function Named(d: Doc, ref: Ref): Option<Id> {
    match ref
    case Owner => d.owner
    case Uses => d.inventory
  }

  ghost predicate Alive(s: Store, t: Table, id: Id) {
    exists o :: o in In(s, t) && o.id == id
  }

  /** Document `d` of collection `t` refers to document `id` of collection `u`. */
  predicate Refers(t: Table, d: Doc, ref: Ref, u: Table, id: Id) {
    Target(t, ref) == Some(u) && Named(d, ref) == Some(id)
  }

  /** Every reference, of the kinds asked for, names a document that exists. */
  ghost predicate Safe(s: Store, refs: set<Ref>) {
    forall t, d, ref, u, id :: ref in refs && d in In(s, t) && Refers(t, d, ref, u, id) ==> Alive(s, u, id)
  }

  ghost predicate Keyed(s: Store) {
    forall t :: DistinctBy(In(s, t), DocId())
  }

  function DocId(): Doc -> Id { (d: Doc) => d.id }

  // ---- Removals ----

  /** `RemoveAll` on an owner field, or `RemoveId`. */
  datatype Removal = OwnedBy(table: Table, owners: set<Id>) | One(table: Table, id: Id)

  predicate Hits(r: Removal, d: Doc) {
    match r
    case OwnedBy(_, owners) => d.owner.Some? && d.owner.value in owners
    case One(_, id) => d.id == id
  }

  function Survives(r: Removal, spared: set<Id>): Doc -> bool { (d: Doc) => !Hits(r, d) || d.id in spared }

  /** The store after a removal that left the documents in `spared` alone: none of them when
      it completed, any of them when it failed. */
  function Remove(s: Store, r: Removal, spared: set<Id>): Store {
    s[r.table := Where(In(s, r.table), Survives(r, spared))]
  }

  /** The first `n` removals of a plan, all completed. */
  function Completed(s: Store, plan: seq<Removal>, n: nat): Store
    requires n <= |plan|
  {
    if n == 0 then s else Remove(Completed(s, plan, n - 1), plan[n - 1], {})
  }

  /** The store in which a handler stops: after `n` completed removals and a part of the next. */
  function Stopped(s: Store, plan: seq<Removal>, n: nat, spared: set<Id>): Store {
    if n >= |plan| then Completed(s, plan, |plan|) else Remove(Completed(s, plan, n), plan[n], spared)
  }

  /** Every state a handler passes through or stops in keeps every reference alive. */
  ghost predicate AlwaysSafe(s: Store, refs: set<Ref>, plan: seq<Removal>) {
    forall n: nat, spared: set<Id> :: Safe(Stopped(s, plan, n, spared), refs)
  }

  /** Whether one of the first `n` removals takes document `d` of collection `t`. */
  ghost predicate Taken(plan: seq<Removal>, n: nat, t: Table, d: Doc) {
    exists j :: 0 <= j < n && j < |plan| && plan[j].table == t && Hits(plan[j], d)
  }

  /** Whatever refers to a removed document is removed before it. */
  ghost predicate ReferrersFirst(s: Store, refs: set<Ref>, plan: seq<Removal>) {
    forall k, o, t, d, ref ::
      0 <= k < |plan| && o in In(s, plan[k].table) && Hits(plan[k], o)
      && ref in refs && d in In(s, t) && Refers(t, d, ref, plan[k].table, o.id)
      ==> Taken(plan, k, t, d)
  }

  lemma TakenNext(plan: seq<Removal>, n: nat, t: Table, d: Doc)
    requires n < |plan|
    ensures Taken(plan, n + 1, t, d) <==> Taken(plan, n, t, d) || (plan[n].table == t && Hits(plan[n], d))
  {
    if Taken(plan, n + 1, t, d) {
      var j :| 0 <= j < n + 1 && j < |plan| && plan[j].table == t && Hits(plan[j], d);
      assert j == n || j < n;
    }
  }

  lemma {:induction false} InCompleted(s: Store, plan: seq<Removal>, n: nat, t: Table, d: Doc)
    requires n <= |plan|
    ensures d in In(Completed(s, plan, n), t) <==> d in In(s, t) && !Taken(plan, n, t, d)
  {
    if n > 0 {
      InCompleted(s, plan, n - 1, t, d);
      TakenNext(plan, n - 1, t, d);
    }
  }

  /** What is left in a collection when the handler stops. */
  lemma InStopped(s: Store, plan: seq<Removal>, n: nat, spared: set<Id>, t: Table, d: Doc)
    requires n < |plan|
    ensures d in In(Stopped(s, plan, n, spared), t)
            <==> d in In(s, t) && !Taken(plan, n, t, d)
                 && (plan[n].table == t && Hits(plan[n], d) ==> d.id in spared)
  {
    InCompleted(s, plan, n, t, d);
  }

  lemma TargetNotTaken(s: Store, refs: set<Ref>, plan: seq<Removal>, n: nat, t: Table, d: Doc, ref: Ref, u: Table, o: Doc)
    requires ReferrersFirst(s, refs, plan) && n < |plan| && ref in refs
    requires d in In(s, t) && o in In(s, u) && Refers(t, d, ref, u, o.id)
    ensures Taken(plan, n, u, o) ==> Taken(plan, n, t, d)
  {
    if Taken(plan, n, u, o) {
      var j :| 0 <= j < n && j < |plan| && plan[j].table == u && Hits(plan[j], o);
      assert Taken(plan, j, t, d);
    }
  }

  lemma KeepsTarget(s: Store, refs: set<Ref>, plan: seq<Removal>, n: nat, spared: set<Id>, t: Table, d: Doc, ref: Ref, u: Table, id: Id)
    requires Safe(s, refs) && ReferrersFirst(s, refs, plan) && n < |plan| && ref in refs
    requires d in In(Stopped(s, plan, n, spared), t) && Refers(t, d, ref, u, id)
    ensures Alive(Stopped(s, plan, n, spared), u, id)
  {
    InStopped(s, plan, n, spared, t, d);
    assert Alive(s, u, id);
    var o :| o in In(s, u) && o.id == id;
    TargetNotTaken(s, refs, plan, n, t, d, ref, u, o);
    assert plan[n].table == u && Hits(plan[n], o) ==> Taken(plan, n, t, d);
    InStopped(s, plan, n, spared, u, o);
  }

  /** The order of a plan is safe in every state exactly when it removes what refers to a
      document before the document. */
  lemma SafeIffReferrersFirst(s: Store, refs: set<Ref>, plan: seq<Removal>)
    requires Safe(s, refs) && Keyed(s) && plan != []
    ensures AlwaysSafe(s, refs, plan) <==> ReferrersFirst(s, refs, plan)
  {
    if ReferrersFirst(s, refs, plan) {
      forall n: nat, spared: set<Id>
        ensures Safe(Stopped(s, plan, n, spared), refs)
      {
        var n', spared' := if n < |plan| then n else |plan| - 1, if n < |plan| then spared else {};
        forall t, d, ref, u, id | ref in refs && d in In(Stopped(s, plan, n', spared'), t) && Refers(t, d, ref, u, id)
          ensures Alive(Stopped(s, plan, n', spared'), u, id)
        {
          KeepsTarget(s, refs, plan, n', spared', t, d, ref, u, id);
        }
      }
    }
    if AlwaysSafe(s, refs, plan) {
      forall k, o, t, d, ref |
        0 <= k < |plan| && o in In(s, plan[k].table) && Hits(plan[k], o)
        && ref in refs && d in In(s, t) && Refers(t, d, ref, plan[k].table, o.id)
        ensures Taken(plan, k, t, d)
      {
        MustGoFirst(s, refs, plan, k, o, t, d, ref);
      }
    }
  }

  lemma MustGoFirst(s: Store, refs: set<Ref>, plan: seq<Removal>, k: nat, o: Doc, t: Table, d: Doc, ref: Ref)
    requires Keyed(s) && AlwaysSafe(s, refs, plan)
    requires k < |plan| && o in In(s, plan[k].table) && Hits(plan[k], o)
    requires ref in refs && d in In(s, t) && Refers(t, d, ref, plan[k].table, o.id)
    ensures Taken(plan, k, t, d)
  {
    if !Taken(plan, k, t, d) {
      var u := plan[k].table;
      var after := Stopped(s, plan, k, {});
      InStopped(s, plan, k, {}, t, d);
      assert Safe(after, refs) && Alive(after, u, o.id);
      var other :| other in In(after, u) && other.id == o.id;
      InStopped(s, plan, k, {}, u, other);
      SameKey(In(s, u), DocId(), other, o);
    }
  }

  // ---- The three handlers' plans ----

  function IdsOf(docs: seq<Doc>): (r: set<Id>)
    ensures forall id :: id in r <==> exists d :: d in docs && d.id == id
  {
    set d | d in docs :: d.id
  }

  function OfOwner(owner: Id): Doc -> bool { (d: Doc) => d.owner == Some(owner) }

  /** `OrganizationController.Delete`, given the projects and inventories its scans found. */
  function OrganizationPlan(org: Id, projects: set<Id>, inventories: set<Id>): seq<Removal> {
    [OwnedBy(Jobs, projects), OwnedBy(JobTemplates, projects),
     OwnedBy(TerraformJobs, projects), OwnedBy(TerraformTemplates, projects),
     OwnedBy(Projects, {org}),
     OwnedBy(Hosts, inventories), OwnedBy(Groups, inventories),
     OwnedBy(Inventories, {org}), OwnedBy(Teams, {org}), OwnedBy(Credentials, {org}),
     One(Organizations, org)]
  }

  function ProjectPlan(project: Id): seq<Removal> {
    [OwnedBy(Jobs, {project}), OwnedBy(JobTemplates, {project}), One(Projects, project)]
  }

  function InventoryPlan(inventory: Id): seq<Removal> {
    [OwnedBy(Hosts, {inventory}), OwnedBy(Groups, {inventory}), One(Inventories, inventory)]
  }

  function OwnedDocs(s: Store, t: Table, owner: Id): seq<Doc> {
    Where(In(s, t), OfOwner(owner))
  }

  /** The projects of an organization. */
  function ProjectsOf(s: Store, org: Id): set<Id> {
    IdsOf(OwnedDocs(s, Projects, org))
  }

  /** The inventories of an organization that a scan which stopped after `seen` documents
      has found. */
  function SeenOf(s: Store, org: Id, seen: nat): set<Id> {
    var all := OwnedDocs(s, Inventories, org);
    IdsOf(all[..if seen < |all| then seen else |all|])
  }

  /** The plan as the handler builds it: a full scan of the projects, since a failure there
      is reported, and the first `seen` inventories, since a failure there goes unnoticed. */
  function PlanFor(s: Store, org: Id, seen: nat): seq<Removal> {
    OrganizationPlan(org, ProjectsOf(s, org), SeenOf(s, org, seen))
  }

  /** The inventories the scan missed hold no host and no group. */
  ghost predicate MissedAreEmpty(s: Store, org: Id, seen: nat) {
    forall i :: seen <= i < |OwnedDocs(s, Inventories, org)| ==>
      forall t, d :: (t == Hosts || t == Groups) && d in In(s, t) ==> d.owner != Some(OwnedDocs(s, Inventories, org)[i].id)
  }

  /** Jobs and job templates that use an inventory of the organization are its own. */
  ghost predicate UsedAtHome(s: Store, org: Id) {
    forall t, d, i :: (t == Jobs || t == JobTemplates) && d in In(s, t) && i in OwnedDocs(s, Inventories, org)
                      && d.inventory == Some(i.id)
      ==> d.owner.Some? && d.owner.value in ProjectsOf(s, org)
  }

  /** The condition of the organization's cascade, for each kind of reference. */
  ghost predicate Tidy(s: Store, refs: set<Ref>, org: Id, seen: nat) {
    (Owner in refs ==> MissedAreEmpty(s, org, seen)) && (Uses in refs ==> UsedAtHome(s, org))
  }

  /** The removal of the organization's plan that concerns a collection. */
  function RuleFor(t: Table, org: Id, projects: set<Id>, inventories: set<Id>): Removal {
    match t
    case Jobs | JobTemplates | TerraformJobs | TerraformTemplates => OwnedBy(t, projects)
    case Hosts | Groups => OwnedBy(t, inventories)
    case Projects | Inventories | Teams | Credentials => OwnedBy(t, {org})
    case Organizations => One(t, org)
  }

  /** And its place in it. */
  function Place(t: Table): (k: nat)
    ensures k < 11
  {
    match t
    case Jobs => 0 case JobTemplates => 1 case TerraformJobs => 2 case TerraformTemplates => 3 case Projects => 4
    case Hosts => 5 case Groups => 6 case Inventories => 7 case Teams => 8 case Credentials => 9
    case Organizations => 10
  }

  lemma PlanShape(org: Id, projects: set<Id>, inventories: set<Id>, k: nat)
    requires k < 11
    ensures var plan := OrganizationPlan(org, projects, inventories);
            Place(plan[k].table) == k && plan[k] == RuleFor(plan[k].table, org, projects, inventories)
  {
  }

  lemma PlanTakes(org: Id, projects: set<Id>, inventories: set<Id>, k: nat, t: Table, d: Doc)
    ensures Taken(OrganizationPlan(org, projects, inventories), k, t, d)
            <==> Place(t) < k && Hits(RuleFor(t, org, projects, inventories), d)
  {
    var plan := OrganizationPlan(org, projects, inventories);
    assert plan[Place(t)] == RuleFor(t, org, projects, inventories);
    if Taken(plan, k, t, d) {
      var j :| 0 <= j < k && j < |plan| && plan[j].table == t && Hits(plan[j], d);
      PlanShape(org, projects, inventories, j);
    }
  }

  lemma SeenInventories(s: Store, org: Id, seen: nat, i: nat)
    requires Keyed(s) && i < |OwnedDocs(s, Inventories, org)|
    ensures OwnedDocs(s, Inventories, org)[i].id in SeenOf(s, org, seen) <==> i < seen
  {
    var all := OwnedDocs(s, Inventories, org);
    var part := all[..if seen < |all| then seen else |all|];
    WhereDistinct(In(s, Inventories), OfOwner(org), DocId());
    if i < seen {
      assert part[i] == all[i];
    }
    if all[i].id in IdsOf(part) {
      var d :| d in part && d.id == all[i].id;
      var k :| 0 <= k < |part| && part[k] == d;
      SameIndex(all, DocId(), k, i);
    }
  }

  /** The organization's cascade keeps owner references alive in every state it can stop in
      exactly when the inventories its unchecked scan missed are empty; a complete scan
      misses none. It keeps inventory references alive exactly when no project of another
      organization uses one of its inventories. */
  lemma OrganizationCascade(s: Store, refs: set<Ref>, org: Id, seen: nat)
    requires Safe(s, refs) && Keyed(s)
    ensures AlwaysSafe(s, refs, PlanFor(s, org, seen)) <==> Tidy(s, refs, org, seen)
  {
    hide AlwaysSafe, Safe, PlanFor, Tidy, Taken, Hits;
    var plan := PlanFor(s, org, seen);
    PlanLength(s, org, seen);
    SafeIffReferrersFirst(s, refs, plan);
    if Tidy(s, refs, org, seen) {
      forall k, o, t, d, ref |
        0 <= k < |plan| && o in In(s, plan[k].table) && Hits(plan[k], o)
        && ref in refs && d in In(s, t) && Refers(t, d, ref, plan[k].table, o.id)
        ensures Taken(plan, k, t, d)
      {
        ReferrerGoesFirst(s, refs, org, seen, k, o, t, d, ref);
      }
    }
    if ReferrersFirst(s, refs, plan) {
      MustBeTidy(s, refs, org, seen);
    }
  }

  lemma PlanLength(s: Store, org: Id, seen: nat)
    ensures |PlanFor(s, org, seen)| == 11
  {
  }

  lemma MustBeTidy(s: Store, refs: set<Ref>, org: Id, seen: nat)
    requires Keyed(s) && ReferrersFirst(s, refs, PlanFor(s, org, seen))
    ensures Tidy(s, refs, org, seen)
  {
    hide PlanFor, ReferrersFirst, Keyed;
    if Owner in refs {
      forall i, t, d | seen <= i < |OwnedDocs(s, Inventories, org)| && (t == Hosts || t == Groups) && d in In(s, t)
        ensures d.owner != Some(OwnedDocs(s, Inventories, org)[i].id)
      {
        MissedOwnsNothing(s, refs, org, seen, i, t, d);
      }
    }
    if Uses in refs {
      forall t, d, i | (t == Jobs || t == JobTemplates) && d in In(s, t) && i in OwnedDocs(s, Inventories, org)
                       && d.inventory == Some(i.id)
        ensures d.owner.Some? && d.owner.value in ProjectsOf(s, org)
      {
        UserIsOwn(s, refs, org, seen, i, t, d);
      }
    }
  }

  lemma ReferrerGoesFirst(s: Store, refs: set<Ref>, org: Id, seen: nat, k: nat, o: Doc, t: Table, d: Doc, ref: Ref)
    requires Keyed(s) && Tidy(s, refs, org, seen) && ref in refs
    requires k < 11 && o in In(s, PlanFor(s, org, seen)[k].table) && Hits(PlanFor(s, org, seen)[k], o)
    requires d in In(s, t) && Refers(t, d, ref, PlanFor(s, org, seen)[k].table, o.id)
    ensures Taken(PlanFor(s, org, seen), k, t, d)
  {
    hide Tidy, Refers, RuleFor, Hits, Place, Taken;
    PlanShape(org, ProjectsOf(s, org), SeenOf(s, org, seen), k);
    PlanTakes(org, ProjectsOf(s, org), SeenOf(s, org, seen), k, t, d);
    ReferrerHit(s, refs, org, seen, PlanFor(s, org, seen)[k].table, o, t, d, ref);
  }

  lemma ReferrerHit(s: Store, refs: set<Ref>, org: Id, seen: nat, u: Table, o: Doc, t: Table, d: Doc, ref: Ref)
    requires Keyed(s) && Tidy(s, refs, org, seen) && ref in refs
    requires o in In(s, u) && Hits(RuleFor(u, org, ProjectsOf(s, org), SeenOf(s, org, seen)), o)
    requires d in In(s, t) && Refers(t, d, ref, u, o.id)
    ensures Place(t) < Place(u) && Hits(RuleFor(t, org, ProjectsOf(s, org), SeenOf(s, org, seen)), d)
  {
    if ref == Owner {
      OwnerFound(s, org, seen, o, t, d);
    } else {
      assert o in OwnedDocs(s, Inventories, org);
    }
  }

  /** What an owner that the plan removes owns is hit by the plan as well. */
  lemma OwnerFound(s: Store, org: Id, seen: nat, o: Doc, t: Table, d: Doc)
    requires Keyed(s) && MissedAreEmpty(s, org, seen) && OwnerTable(t).Some?
    requires o in In(s, OwnerTable(t).value) && d in In(s, t) && d.owner == Some(o.id)
    requires Hits(RuleFor(OwnerTable(t).value, org, ProjectsOf(s, org), SeenOf(s, org, seen)), o)
    ensures Place(t) < Place(OwnerTable(t).value) && Hits(RuleFor(t, org, ProjectsOf(s, org), SeenOf(s, org, seen)), d)
  {
    var u := OwnerTable(t).value;
    if u == Projects {
      assert o in OwnedDocs(s, Projects, org);
    } else if u == Inventories {
      var all := OwnedDocs(s, Inventories, org);
      assert o in all;
      var i :| 0 <= i < |all| && all[i] == o;
      SeenInventories(s, org, seen, i);
    }
  }

  /** Every inventory of the organization is removed eighth, seen or not. */
  lemma BeforeInventories(s: Store, refs: set<Ref>, org: Id, seen: nat, o: Doc, t: Table, d: Doc, ref: Ref)
    requires ReferrersFirst(s, refs, PlanFor(s, org, seen)) && ref in refs
    requires o in OwnedDocs(s, Inventories, org) && d in In(s, t) && Refers(t, d, ref, Inventories, o.id)
    ensures Place(t) < 7 && Hits(RuleFor(t, org, ProjectsOf(s, org), SeenOf(s, org, seen)), d)
  {
    var plan := PlanFor(s, org, seen);
    assert plan[7] == OwnedBy(Inventories, {org}) && Hits(plan[7], o);
    assert Taken(plan, 7, t, d);
    PlanTakes(org, ProjectsOf(s, org), SeenOf(s, org, seen), 7, t, d);
  }

  lemma MissedOwnsNothing(s: Store, refs: set<Ref>, org: Id, seen: nat, i: nat, t: Table, d: Doc)
    requires Keyed(s) && ReferrersFirst(s, refs, PlanFor(s, org, seen)) && Owner in refs
    requires seen <= i < |OwnedDocs(s, Inventories, org)| && (t == Hosts || t == Groups) && d in In(s, t)
    ensures d.owner != Some(OwnedDocs(s, Inventories, org)[i].id)
  {
    var o := OwnedDocs(s, Inventories, org)[i];
    SeenInventories(s, org, seen, i);
    if d.owner == Some(o.id) {
      BeforeInventories(s, refs, org, seen, o, t, d, Owner);
    }
  }

  lemma UserIsOwn(s: Store, refs: set<Ref>, org: Id, seen: nat, i: Doc, t: Table, d: Doc)
    requires ReferrersFirst(s, refs, PlanFor(s, org, seen)) && Uses in refs
    requires (t == Jobs || t == JobTemplates) && d in In(s, t) && i in OwnedDocs(s, Inventories, org)
    requires d.inventory == Some(i.id)
    ensures d.owner.Some? && d.owner.value in ProjectsOf(s, org)
  {
    BeforeInventories(s, refs, org, seen, i, t, d, Uses);
  }

  /** What belongs to an organization: itself, what names it, and what its projects and
      inventories own. */
  ghost predicate Belongs(s: Store, org: Id, t: Table, d: Doc) {
    match t
    case Organizations => d.id == org
    case Projects | Inventories | Teams | Credentials => d.owner == Some(org)
    case Jobs | JobTemplates | TerraformJobs | TerraformTemplates =>
      exists p :: p in OwnedDocs(s, Projects, org) && d.owner == Some(p.id)
    case Hosts | Groups =>
      exists i :: i in OwnedDocs(s, Inventories, org) && d.owner == Some(i.id)
  }

  /** A completed cascade with a complete scan removes exactly what belongs to the
      organization, from every collection. */
  lemma CompletedCascade(s: Store, org: Id, seen: nat, t: Table, d: Doc)
    requires seen >= |OwnedDocs(s, Inventories, org)|
    ensures d in In(Completed(s, PlanFor(s, org, seen), 11), t) <==> d in In(s, t) && !Belongs(s, org, t, d)
  {
    InCompleted(s, PlanFor(s, org, seen), 11, t, d);
    PlanTakes(org, ProjectsOf(s, org), SeenOf(s, org, seen), 11, t, d);
    var all := OwnedDocs(s, Inventories, org);
    assert all[..|all|] == all;
  }

  /** Also when the cascade runs to its end: it answers success and leaves a reference to a
      document that is gone exactly under the same condition. */
  lemma CascadeEndsSafe(s: Store, refs: set<Ref>, org: Id, seen: nat)
    requires Safe(s, refs) && Keyed(s)
    ensures Safe(Completed(s, PlanFor(s, org, seen), 11), refs) <==> Tidy(s, refs, org, seen)
  {
    hide Safe, Completed, PlanFor, Keyed;
    if Tidy(s, refs, org, seen) {
      OrganizationCascade(s, refs, org, seen);
      TidyEndsSafe(s, refs, org, seen);
    } else if Owner in refs && !MissedAreEmpty(s, org, seen) {
      var i, t, d :| seen <= i < |OwnedDocs(s, Inventories, org)| && (t == Hosts || t == Groups) && d in In(s, t)
                     && d.owner == Some(OwnedDocs(s, Inventories, org)[i].id);
      MissedLeavesOrphan(s, refs, org, seen, i, t, d);
    } else {
      var t, d, i :| (t == Jobs || t == JobTemplates) && d in In(s, t) && i in OwnedDocs(s, Inventories, org)
                     && d.inventory == Some(i.id) && !(d.owner.Some? && d.owner.value in ProjectsOf(s, org));
      ForeignUseLeavesOrphan(s, refs, org, seen, i, t, d);
    }
  }

  lemma TidyEndsSafe(s: Store, refs: set<Ref>, org: Id, seen: nat)
    requires AlwaysSafe(s, refs, PlanFor(s, org, seen))
    ensures Safe(Completed(s, PlanFor(s, org, seen), 11), refs)
  {
    assert Safe(Stopped(s, PlanFor(s, org, seen), 11, {}), refs);
  }

  lemma ForeignUseLeavesOrphan(s: Store, refs: set<Ref>, org: Id, seen: nat, i: Doc, t: Table, d: Doc)
    requires Keyed(s) && Uses in refs
    requires (t == Jobs || t == JobTemplates) && d in In(s, t) && i in OwnedDocs(s, Inventories, org)
    requires d.inventory == Some(i.id) && !(d.owner.Some? && d.owner.value in ProjectsOf(s, org))
    ensures !Safe(Completed(s, PlanFor(s, org, seen), 11), refs)
  {
    PlanTakes(org, ProjectsOf(s, org), SeenOf(s, org, seen), 11, t, d);
    LeftWithoutInventory(s, refs, org, seen, i, t, d, Uses);
  }

  lemma MissedLeavesOrphan(s: Store, refs: set<Ref>, org: Id, seen: nat, i: nat, t: Table, d: Doc)
    requires Keyed(s) && Owner in refs
    requires seen <= i < |OwnedDocs(s, Inventories, org)| && (t == Hosts || t == Groups) && d in In(s, t)
    requires d.owner == Some(OwnedDocs(s, Inventories, org)[i].id)
    ensures !Safe(Completed(s, PlanFor(s, org, seen), 11), refs)
  {
    SeenInventories(s, org, seen, i);
    PlanTakes(org, ProjectsOf(s, org), SeenOf(s, org, seen), 11, t, d);
    LeftWithoutInventory(s, refs, org, seen, OwnedDocs(s, Inventories, org)[i], t, d, Owner);
  }

  /** The completed cascade has removed every inventory of the organization. */
  lemma LeftWithoutInventory(s: Store, refs: set<Ref>, org: Id, seen: nat, inventory: Doc, t: Table, d: Doc, ref: Ref)
    requires Keyed(s) && ref in refs && inventory in OwnedDocs(s, Inventories, org)
    requires d in In(s, t) && Refers(t, d, ref, Inventories, inventory.id)
    requires !Taken(PlanFor(s, org, seen), 11, t, d)
    ensures !Safe(Completed(s, PlanFor(s, org, seen), 11), refs)
  {
    hide Completed, Taken;
    var plan := PlanFor(s, org, seen);
    var after := Completed(s, plan, 11);
    InCompleted(s, plan, 11, t, d);
    forall o | o in In(after, Inventories)
      ensures o.id != inventory.id
    {
      InCompleted(s, plan, 11, Inventories, o);
      PlanTakes(org, ProjectsOf(s, org), SeenOf(s, org, seen), 11, Inventories, o);
      if o.id == inventory.id {
        SameKey(In(s, Inventories), DocId(), o, inventory);
      }
    }
    assert !Alive(after, Inventories, inventory.id);
  }

  /** The unchecked scan is a real hole: one organization, one inventory, one host, and a
      scan that fails before the first inventory. */
  lemma ShortScanLeavesOrphan()
    ensures exists s: Store :: Safe(s, {Owner, Uses}) && Keyed(s) && !Safe(Completed(s, PlanFor(s, 1, 0), 11), {Owner})
  {
    hide Safe, Keyed, Completed, PlanFor;
    var inventory, host := Doc(2, Some(1), None), Doc(3, Some(2), None);
    var s: Store := map[Organizations := [Doc(1, None, None)], Inventories := [inventory], Hosts := [host]];
    SmallIsSafe(s, inventory, host);
    assert OwnedDocs(s, Inventories, 1) == [inventory];
    MissedLeavesOrphan(s, {Owner}, 1, 0, 0, Hosts, host);
  }

  lemma SmallIsSafe(s: Store, inventory: Doc, host: Doc)
    requires inventory == Doc(2, Some(1), None) && host == Doc(3, Some(2), None)
    requires s == map[Organizations := [Doc(1, None, None)], Inventories := [inventory], Hosts := [host]]
    ensures Safe(s, {Owner, Uses}) && Keyed(s)
  {
    assert Doc(1, None, None) in In(s, Organizations) && inventory in In(s, Inventories);
  }

  /** For a plan of three removals the last of which takes one document: what it leaves must
      not refer to that document. */
  lemma LastOfThree(s: Store, refs: set<Ref>, plan: seq<Removal>, u: Table, id: Id)
    requires Safe(s, refs) && Keyed(s) && |plan| == 3 && plan[2] == One(u, id)
    requires forall t, ref :: Target(t, ref) != Some(plan[0].table) && Target(t, ref) != Some(plan[1].table)
    ensures AlwaysSafe(s, refs, plan)
            <==> forall t, d, ref :: ref in refs && d in In(s, t) && Refers(t, d, ref, u, id) ==> TakenByTwo(plan, t, d)
  {
    hide AlwaysSafe, Safe, Keyed;
    SafeIffReferrersFirst(s, refs, plan);
    hide Taken;
    forall t, d
      ensures Taken(plan, 2, t, d) <==> TakenByTwo(plan, t, d)
    {
      FirstTwo(plan, t, d);
    }
    forall t, d, ref | ref in refs && d in In(s, t) && Refers(t, d, ref, u, id)
      ensures exists o :: o in In(s, u) && o.id == id && Hits(plan[2], o)
    {
      IsAlive(s, refs, t, d, ref, u, id);
      var o :| o in In(s, u) && o.id == id;
      assert Hits(plan[2], o);
    }
  }

  lemma IsAlive(s: Store, refs: set<Ref>, t: Table, d: Doc, ref: Ref, u: Table, id: Id)
    requires Safe(s, refs) && ref in refs && d in In(s, t) && Refers(t, d, ref, u, id)
    ensures Alive(s, u, id)
  {
  }

  predicate TakenByTwo(plan: seq<Removal>, t: Table, d: Doc)
    requires |plan| == 3
  {
    (plan[0].table == t && Hits(plan[0], d)) || (plan[1].table == t && Hits(plan[1], d))
  }

  lemma FirstTwo(plan: seq<Removal>, t: Table, d: Doc)
    requires |plan| == 3
    ensures Taken(plan, 2, t, d) <==> TakenByTwo(plan, t, d)
  {
  }

  /** Deleting a project keeps every reference alive in every state exactly when no terraform
      job or template names it: those are not removed with it. */
  lemma ProjectCascade(s: Store, refs: set<Ref>, project: Id)
    requires Safe(s, refs) && Keyed(s)
    ensures AlwaysSafe(s, refs, ProjectPlan(project))
            <==> Owner !in refs
                 || forall t, d :: (t == TerraformJobs || t == TerraformTemplates) && d in In(s, t) ==> d.owner != Some(project)
  {
    hide AlwaysSafe, Safe, Keyed;
    LastOfThree(s, refs, ProjectPlan(project), Projects, project);
    forall t, d | Owner in refs && (t == TerraformJobs || t == TerraformTemplates) && d in In(s, t) && d.owner == Some(project)
      ensures Refers(t, d, Owner, Projects, project) && !TakenByTwo(ProjectPlan(project), t, d)
    {
    }
  }

  /** Deleting an inventory keeps every reference alive in every state exactly when no job or
      job template uses it: only its hosts and groups are removed with it. */
  lemma InventoryCascade(s: Store, refs: set<Ref>, inventory: Id)
    requires Safe(s, refs) && Keyed(s)
    ensures AlwaysSafe(s, refs, InventoryPlan(inventory))
            <==> Uses !in refs
                 || forall t, d :: (t == Jobs || t == JobTemplates) && d in In(s, t) ==> d.inventory != Some(inventory)
  {
    hide AlwaysSafe, Safe, Keyed;
    LastOfThree(s, refs, InventoryPlan(inventory), Inventories, inventory);
    forall t, d | Uses in refs && (t == Jobs || t == JobTemplates) && d in In(s, t) && d.inventory == Some(inventory)
      ensures Refers(t, d, Uses, Inventories, inventory) && !TakenByTwo(InventoryPlan(inventory), t, d)
    {
    }
  }

  /** A completed delete of a project removes the project, its jobs and its job templates, and
      nothing else. */
  lemma CompletedProject(s: Store, project: Id, t: Table, d: Doc)
    ensures d in In(Completed(s, ProjectPlan(project), 3), t)
            <==> d in In(s, t) && !(t == Projects && d.id == project)
                 && !((t == Jobs || t == JobTemplates) && d.owner == Some(project))
  {
    InCompleted(s, ProjectPlan(project), 3, t, d);
    FirstTwo(ProjectPlan(project), t, d);
    TakenNext(ProjectPlan(project), 2, t, d);
  }

  /** That of an inventory removes the inventory, its hosts and its groups, and nothing else. */
  lemma CompletedInventory(s: Store, inventory: Id, t: Table, d: Doc)
    ensures d in In(Completed(s, InventoryPlan(inventory), 3), t)
            <==> d in In(s, t) && !(t == Inventories && d.id == inventory)
                 && !((t == Hosts || t == Groups) && d.owner == Some(inventory))
  {
    InCompleted(s, InventoryPlan(inventory), 3, t, d);
    FirstTwo(InventoryPlan(inventory), t, d);
    TakenNext(InventoryPlan(inventory), 2, t, d);
  }
}
