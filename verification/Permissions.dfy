/** Who may do what: the role checks, as loops over role lists and queries on the store, and
    as set-style specifications. */
module Permissions {
  import opened Common
  import opened Collections

  datatype Kind = Organizations | Teams | Projects | Credentials | Inventories | JobTemplates | TerraformTemplates

  /** An entry of a role list. */
  datatype Grant = Grant(kind: string, grantee: Id, role: string)

  const TEAM := "team"
  const USER := "user"
  const ADMIN := "admin"

  /** What a template refers to. */
  datatype Links = Links(machine: Option<Id>, cloud: Option<Id>, network: Option<Id>, inventory: Id, project: Id)

  datatype Doc = Doc(id: Id, organization: Option<Id>, roles: seq<Grant>, links: Links)

  datatype User = User(id: Id, superUser: bool, auditor: bool)

  /** The team queries name the key `_id:`, which no document has. `asWritten` gives them that
      meaning, under which they match nothing; otherwise the key is read as `_id`. */
  datatype Store = Store(docs: map<Kind, seq<Doc>>, asWritten: bool)

  function In(s: Store, k: Kind): seq<Doc> {
    if k in s.docs then s.docs[k] else []
  }

  /** `FindId(..).One`. */
  function Find(docs: seq<Doc>, id: Id): (r: Option<Doc>)
    ensures r.Some? ==> r.value in docs && r.value.id == id
    ensures r == None ==> forall d :: d in docs ==> d.id != id
  {
    if docs == [] then None else if docs[0].id == id then Some(docs[0]) else Find(docs[1..], id)
  }

  // ---- Queries ----

  function HasGlobalRead(u: User): bool {
    u.superUser || u.auditor
  }

  function HasGlobalWrite(u: User): bool {
    u.superUser
  }

  /** `roles.grantee_id` of some element. */
  predicate Grants(roles: seq<Grant>, id: Id) {
    exists g :: g in roles && g.grantee == id
  }

  predicate GrantsRole(roles: seq<Grant>, role: string) {
    exists g :: g in roles && g.role == role
  }

  /** Both conditions of the query are on the list as a whole, so different elements may meet
      them. */
  predicate IsOrganizationAdmin(s: Store, org: Option<Id>, u: User) {
    org.Some? && exists o :: o in In(s, Organizations) && o.id == org.value && Grants(o.roles, u.id) && GrantsRole(o.roles, ADMIN)
  }

  predicate HasOrganizationRead(s: Store, org: Option<Id>, u: User) {
    org.Some? && exists o :: o in In(s, Organizations) && o.id == org.value && Grants(o.roles, u.id)
  }

  predicate IsInTeams(s: Store, u: User, teams: set<Id>) {
    !s.asWritten && exists t :: t in In(s, Teams) && t.id in teams && Grants(t.roles, u.id)
  }

  // ---- The specifications ----

  /** Which roles count. */
  type Accepts = string -> bool

  function AnyRole(): Accepts { (role: string) => true }

  function OneOf(roles: set<string>): Accepts { (role: string) => role in roles }

  function WriteRoles(k: Kind): set<string> {
    match k
    case Organizations | Teams | Projects | Credentials => {ADMIN}
    case Inventories => {ADMIN, "update"}
    case JobTemplates | TerraformTemplates => {ADMIN, "execute"}
  }

  predicate UserHas(roles: seq<Grant>, u: User, accepts: Accepts) {
    exists g :: g in roles && g.kind == USER && g.grantee == u.id && accepts(g.role)
  }

  function TeamsWith(roles: seq<Grant>, accepts: Accepts): set<Id> {
    set g | g in roles && g.kind == TEAM && accepts(g.role) :: g.grantee
  }

  /** A role of the user's own, or of a team the user is in. */
  predicate Holds(s: Store, u: User, roles: seq<Grant>, accepts: Accepts) {
    UserHas(roles, u, accepts) || IsInTeams(s, u, TeamsWith(roles, accepts))
  }

  /** Projects, credentials and inventories. */
  predicate CanReadOwned(s: Store, u: User, d: Doc) {
    HasGlobalRead(u) || IsOrganizationAdmin(s, d.organization, u) || Holds(s, u, d.roles, AnyRole())
  }

  predicate CanWriteOwned(s: Store, u: User, k: Kind, d: Doc) {
    HasGlobalWrite(u) || IsOrganizationAdmin(s, d.organization, u) || Holds(s, u, d.roles, OneOf(WriteRoles(k)))
  }

  predicate CanUpdateProject(s: Store, u: User, d: Doc) {
    HasGlobalWrite(u) || IsOrganizationAdmin(s, d.organization, u) || Holds(s, u, d.roles, OneOf({ADMIN, "update"}))
  }

  predicate CanReadById(s: Store, u: User, k: Kind, id: Id) {
    var d := Find(In(s, k), id);
    d.Some? && CanReadOwned(s, u, d.value)
  }

  function FirstCredential(d: Doc): Option<Id> {
    if d.links.machine.Some? then d.links.machine
    else if d.links.cloud.Some? then d.links.cloud
    else d.links.network
  }

  /** A template with a credential is readable exactly by those who can read the first one. */
  predicate CanReadTemplate(s: Store, u: User, k: Kind, d: Doc) {
    HasGlobalRead(u)
    || if FirstCredential(d).Some? then CanReadById(s, u, Credentials, FirstCredential(d).value)
       else
         || (k == JobTemplates && CanReadById(s, u, Inventories, d.links.inventory))
         || CanReadById(s, u, Projects, d.links.project)
         || Holds(s, u, d.roles, AnyRole())
  }

  predicate CanWriteTemplate(s: Store, u: User, k: Kind, d: Doc) {
    HasGlobalWrite(u) || Holds(s, u, d.roles, OneOf(WriteRoles(k)))
  }

  predicate CanRead(s: Store, u: User, k: Kind, d: Doc) {
    match k
    case Organizations => HasGlobalRead(u) || UserHas(d.roles, u, AnyRole())
    case Teams => HasGlobalRead(u) || HasOrganizationRead(s, d.organization, u) || UserHas(d.roles, u, AnyRole())
    case Projects | Credentials | Inventories => CanReadOwned(s, u, d)
    case JobTemplates | TerraformTemplates => CanReadTemplate(s, u, k, d)
  }

  predicate CanWrite(s: Store, u: User, k: Kind, d: Doc) {
    match k
    case Organizations => HasGlobalWrite(u) || UserHas(d.roles, u, OneOf({ADMIN}))
    case Teams => HasGlobalWrite(u) || IsOrganizationAdmin(s, d.organization, u) || UserHas(d.roles, u, OneOf({ADMIN}))
    case Projects | Credentials | Inventories => CanWriteOwned(s, u, k, d)
    case JobTemplates | TerraformTemplates => CanWriteTemplate(s, u, k, d)
  }

  predicate HasAdminGrant(roles: seq<Grant>, id: Id) {
    exists g :: g in roles && g.grantee == id && g.role == ADMIN
  }

  /** The organization check never refuses an admin, and it lets nobody else pass exactly when
      the organization has no admin at all, or every grantee in its role list is one. */
  lemma AdminCheckIsRight(s: Store, o: Doc)
    requires o in In(s, Organizations)
    requires forall p :: p in In(s, Organizations) && p.id == o.id ==> p == o
    ensures forall u: User :: HasAdminGrant(o.roles, u.id) ==> IsOrganizationAdmin(s, Some(o.id), u)
    ensures (forall u: User :: IsOrganizationAdmin(s, Some(o.id), u) ==> HasAdminGrant(o.roles, u.id))
            <==> !GrantsRole(o.roles, ADMIN) || forall g :: g in o.roles ==> HasAdminGrant(o.roles, g.grantee)
  {
    if GrantsRole(o.roles, ADMIN) {
      forall g | g in o.roles
        ensures IsOrganizationAdmin(s, Some(o.id), User(g.grantee, false, false))
      {
        assert Grants(o.roles, g.grantee);
      }
    }
  }

  /** The two conditions of the query may be met by different entries of the role list: a
      plain member of an organization that has an admin writes to its projects. */
  lemma MemberPassesAsAdmin()
    ensures exists s: Store, u: User, d: Doc ::
              && CanWrite(s, u, Projects, d)
              && !HasGlobalWrite(u)
              && (forall k, doc, g :: doc in In(s, k) && g in doc.roles && g.grantee == u.id ==> g.role == "member")
  {
    var u := User(1, false, false);
    var links := Links(None, None, None, 0, 0);
    var o := Doc(7, None, [Grant(USER, 1, "member"), Grant(USER, 2, ADMIN)], links);
    var d := Doc(8, Some(7), [], links);
    var s := Store(map[Organizations := [o], Projects := [d]], true);
    assert o in In(s, Organizations) && Grant(USER, 1, "member") in o.roles && Grant(USER, 2, ADMIN) in o.roles;
    assert Grants(o.roles, 1) && GrantsRole(o.roles, ADMIN);
    assert CanWrite(s, u, Projects, d);
    assert d.roles == [];
  }

  // ---- Write implies read ----

  lemma HoldsWider(s: Store, u: User, roles: seq<Grant>, a: Accepts, b: Accepts)
    requires forall role :: a(role) ==> b(role)
    ensures UserHas(roles, u, a) ==> UserHas(roles, u, b)
    ensures Holds(s, u, roles, a) ==> Holds(s, u, roles, b)
  {
    assert TeamsWith(roles, a) <= TeamsWith(roles, b);
  }

  predicate IsTemplate(k: Kind) {
    k == JobTemplates || k == TerraformTemplates
  }

  /** Who can write anything can read it, except a template whose first credential that user
      cannot read; on projects the update permission lies between the two. */
  lemma WriteImpliesRead(s: Store, u: User, k: Kind, d: Doc)
    ensures CanWrite(s, u, k, d) ==>
              (CanRead(s, u, k, d)
               <==> HasGlobalRead(u) || !IsTemplate(k) || FirstCredential(d) == None
                    || CanReadById(s, u, Credentials, FirstCredential(d).value))
    ensures CanWrite(s, u, Projects, d) ==> CanUpdateProject(s, u, d)
    ensures CanUpdateProject(s, u, d) ==> CanRead(s, u, Projects, d)
  {
    HoldsWider(s, u, d.roles, OneOf(WriteRoles(k)), AnyRole());
    HoldsWider(s, u, d.roles, OneOf({ADMIN}), OneOf({ADMIN, "update"}));
    HoldsWider(s, u, d.roles, OneOf({ADMIN, "update"}), AnyRole());
  }

  /** And the credential can be unreadable: an admin of a template who cannot read it. */
  lemma TemplateAdminWithoutRead()
    ensures exists s: Store, u: User, d: Doc :: CanWrite(s, u, JobTemplates, d) && !CanRead(s, u, JobTemplates, d)
  {
    var u := User(1, false, false);
    var d := Doc(2, None, [Grant(USER, 1, ADMIN)], Links(Some(3), None, None, 4, 5));
    var s := Store(map[Credentials := [Doc(3, None, [], Links(None, None, None, 0, 0))], JobTemplates := [d]], false);
    assert Grant(USER, 1, ADMIN) in d.roles && OneOf(WriteRoles(JobTemplates))(ADMIN);
    assert CanWrite(s, u, JobTemplates, d);
    var c := Find(In(s, Credentials), 3).value;
    assert c.roles == [];
    assert TeamsWith(c.roles, AnyRole()) == {};
    assert !CanReadOwned(s, u, c);
  }

  // ---- A new role never takes a permission away ----

  /** `$addToSet`. */
  function AddToSet(roles: seq<Grant>, g: Grant): seq<Grant> {
    if g in roles then roles else roles + [g]
  }

  /** `$pull`. */
  function Pull(roles: seq<Grant>, g: Grant): seq<Grant> {
    Where(roles, (r: Grant) => r != g)
  }

  function UpdateRoles(docs: seq<Doc>, id: Id, f: seq<Grant> -> seq<Grant>): seq<Doc> {
    if docs == [] then []
    else if docs[0].id == id then [docs[0].(roles := f(docs[0].roles))] + docs[1..]
    else [docs[0]] + UpdateRoles(docs[1..], id, f)
  }

  function Associated(s: Store, k: Kind, id: Id, g: Grant): Store {
    s.(docs := s.docs[k := UpdateRoles(In(s, k), id, (roles: seq<Grant>) => AddToSet(roles, g))])
  }

  function Disassociated(s: Store, k: Kind, id: Id, g: Grant): Store {
    s.(docs := s.docs[k := UpdateRoles(In(s, k), id, (roles: seq<Grant>) => Pull(roles, g))])
  }

  /** The same document with more roles. */
  ghost predicate More(d: Doc, e: Doc) {
    d.id == e.id && d.organization == e.organization && d.links == e.links && forall g :: g in d.roles ==> g in e.roles
  }

  ghost predicate MoreAll(ds: seq<Doc>, es: seq<Doc>) {
    |ds| == |es| && forall i :: 0 <= i < |ds| ==> More(ds[i], es[i])
  }

  /** The same store with more roles. */
  ghost predicate Extends(s: Store, t: Store) {
    s.asWritten == t.asWritten && forall k :: MoreAll(In(s, k), In(t, k))
  }

  lemma {:induction false} FindMore(ds: seq<Doc>, es: seq<Doc>, id: Id)
    requires MoreAll(ds, es)
    ensures Find(ds, id).Some? ==> Find(es, id).Some? && More(Find(ds, id).value, Find(es, id).value)
  {
    if ds != [] {
      assert More(ds[0], es[0]);
      assert forall i :: 0 <= i < |ds[1..]| ==> ds[1..][i] == ds[i + 1] && es[1..][i] == es[i + 1];
      FindMore(ds[1..], es[1..], id);
    }
  }

  lemma OrganizationsMore(s: Store, t: Store, org: Option<Id>, u: User)
    requires Extends(s, t)
    ensures IsOrganizationAdmin(s, org, u) ==> IsOrganizationAdmin(t, org, u)
    ensures HasOrganizationRead(s, org, u) ==> HasOrganizationRead(t, org, u)
  {
    var os, ot := In(s, Organizations), In(t, Organizations);
    assert MoreAll(os, ot);
    forall o | o in os
      ensures exists p :: p in ot && More(o, p)
    {
      var i :| 0 <= i < |os| && os[i] == o;
      assert ot[i] in ot && More(o, ot[i]);
    }
    forall o, p | More(o, p)
      ensures Grants(o.roles, u.id) ==> Grants(p.roles, u.id)
      ensures GrantsRole(o.roles, ADMIN) ==> GrantsRole(p.roles, ADMIN)
    {
    }
  }

  lemma TeamsMore(s: Store, t: Store, u: User, teams: set<Id>, more: set<Id>)
    requires Extends(s, t) && teams <= more
    ensures IsInTeams(s, u, teams) ==> IsInTeams(t, u, more)
  {
    if IsInTeams(s, u, teams) {
      var ts, tt := In(s, Teams), In(t, Teams);
      var o :| o in ts && o.id in teams && Grants(o.roles, u.id);
      var i :| 0 <= i < |ts| && ts[i] == o;
      assert MoreAll(ts, tt) && More(o, tt[i]) && tt[i] in tt;
      assert Grants(tt[i].roles, u.id);
    }
  }

  lemma HoldsMore(s: Store, t: Store, u: User, d: Doc, e: Doc, accepts: Accepts)
    requires Extends(s, t) && More(d, e)
    ensures UserHas(d.roles, u, accepts) ==> UserHas(e.roles, u, accepts)
    ensures Holds(s, u, d.roles, accepts) ==> Holds(t, u, e.roles, accepts)
  {
    assert TeamsWith(d.roles, accepts) <= TeamsWith(e.roles, accepts);
    TeamsMore(s, t, u, TeamsWith(d.roles, accepts), TeamsWith(e.roles, accepts));
  }

  lemma OwnedMore(s: Store, t: Store, u: User, k: Kind, d: Doc, e: Doc)
    requires Extends(s, t) && More(d, e)
    ensures CanReadOwned(s, u, d) ==> CanReadOwned(t, u, e)
    ensures CanWriteOwned(s, u, k, d) ==> CanWriteOwned(t, u, k, e)
    ensures CanUpdateProject(s, u, d) ==> CanUpdateProject(t, u, e)
  {
    hide Holds, IsOrganizationAdmin;
    OrganizationsMore(s, t, d.organization, u);
    HoldsMore(s, t, u, d, e, AnyRole());
    HoldsMore(s, t, u, d, e, OneOf(WriteRoles(k)));
    HoldsMore(s, t, u, d, e, OneOf({ADMIN, "update"}));
  }

  lemma ByIdMore(s: Store, t: Store, u: User, k: Kind, id: Id)
    requires Extends(s, t)
    ensures CanReadById(s, u, k, id) ==> CanReadById(t, u, k, id)
  {
    hide CanReadOwned;
    assert MoreAll(In(s, k), In(t, k));
    FindMore(In(s, k), In(t, k), id);
    if CanReadById(s, u, k, id) {
      OwnedMore(s, t, u, k, Find(In(s, k), id).value, Find(In(t, k), id).value);
    }
  }

  /** With more roles in the store every decision that allowed still allows. */
  lemma DecisionsMore(s: Store, t: Store, u: User, k: Kind, d: Doc, e: Doc)
    requires Extends(s, t) && More(d, e)
    ensures CanRead(s, u, k, d) ==> CanRead(t, u, k, e)
    ensures CanWrite(s, u, k, d) ==> CanWrite(t, u, k, e)
    ensures CanUpdateProject(s, u, d) ==> CanUpdateProject(t, u, e)
  {
    hide CanReadOwned, CanWriteOwned, CanUpdateProject, Holds, UserHas, CanReadById, IsOrganizationAdmin, HasOrganizationRead, Extends, More;
    OwnedMore(s, t, u, k, d, e);
    OrganizationsMore(s, t, d.organization, u);
    HoldsMore(s, t, u, d, e, AnyRole());
    HoldsMore(s, t, u, d, e, OneOf(WriteRoles(k)));
    HoldsMore(s, t, u, d, e, OneOf({ADMIN}));
    SameLinks(d, e);
    if FirstCredential(d).Some? {
      ByIdMore(s, t, u, Credentials, FirstCredential(d).value);
    }
    ByIdMore(s, t, u, Inventories, d.links.inventory);
    ByIdMore(s, t, u, Projects, d.links.project);
  }

  lemma SameLinks(d: Doc, e: Doc)
    requires More(d, e)
    ensures d.links == e.links && d.organization == e.organization
  {
  }

  lemma {:induction false} UpdateRolesMore(ds: seq<Doc>, id: Id, g: Grant)
    ensures MoreAll(ds, UpdateRoles(ds, id, (roles: seq<Grant>) => AddToSet(roles, g)))
  {
    if ds != [] {
      UpdateRolesMore(ds[1..], id, g);
      var es := UpdateRoles(ds, id, (roles: seq<Grant>) => AddToSet(roles, g));
      forall i | 0 <= i < |ds|
        ensures More(ds[i], es[i])
      {
        if i > 0 && ds[0].id != id {
          assert More(ds[1..][i - 1], es[1..][i - 1]);
        }
      }
    }
  }

  lemma AssociateExtends(s: Store, k: Kind, id: Id, g: Grant)
    ensures Extends(s, Associated(s, k, id, g))
  {
    var t := Associated(s, k, id, g);
    forall other
      ensures MoreAll(In(s, other), In(t, other))
    {
      UpdateRolesMore(In(s, k), id, g);
    }
  }

  /** No `Associate`, on any resource, of any role, for anyone, turns an allowed decision on
      any document into a denied one. */
  lemma AssociateNeverRevokes(s: Store, k: Kind, id: Id, g: Grant, u: User, kind: Kind, target: Id)
    requires Find(In(s, kind), target).Some?
    ensures var t := Associated(s, k, id, g);
            && Find(In(t, kind), target).Some?
            && var d, e := Find(In(s, kind), target).value, Find(In(t, kind), target).value;
               && (CanRead(s, u, kind, d) ==> CanRead(t, u, kind, e))
               && (CanWrite(s, u, kind, d) ==> CanWrite(t, u, kind, e))
               && (CanUpdateProject(s, u, d) ==> CanUpdateProject(t, u, e))
  {
    hide CanRead, CanWrite, CanUpdateProject, Associated;
    var t := Associated(s, k, id, g);
    AssociateExtends(s, k, id, g);
    assert MoreAll(In(s, kind), In(t, kind));
    FindMore(In(s, kind), In(t, kind), target);
    DecisionsMore(s, t, u, kind, Find(In(s, kind), target).value, Find(In(t, kind), target).value);
  }

  /** Taking back a role that was not there before restores every collection. */
  lemma DisassociateUndoes(s: Store, k: Kind, id: Id, g: Grant, other: Kind)
    requires Find(In(s, k), id).Some? ==> g !in Find(In(s, k), id).value.roles
    ensures In(Disassociated(Associated(s, k, id, g), k, id, g), other) == In(s, other)
  {
    UpdateUndone(In(s, k), id, g);
  }

  lemma {:induction false} UpdateUndone(ds: seq<Doc>, id: Id, g: Grant)
    requires Find(ds, id).Some? ==> g !in Find(ds, id).value.roles
    ensures UpdateRoles(UpdateRoles(ds, id, (roles: seq<Grant>) => AddToSet(roles, g)), id, (roles: seq<Grant>) => Pull(roles, g)) == ds
  {
    if ds != [] {
      if ds[0].id == id {
        PullAdded(ds[0].roles, g);
      } else {
        UpdateUndone(ds[1..], id, g);
      }
    }
  }

  lemma PullAdded(roles: seq<Grant>, g: Grant)
    requires g !in roles
    ensures Pull(AddToSet(roles, g), g) == roles
  {
    var keep := (r: Grant) => r != g;
    WhereConcat(roles, [g], keep);
    WhereAll(roles, keep);
  }

  lemma {:induction false} WhereAll(roles: seq<Grant>, keep: Grant -> bool)
    requires forall r :: r in roles ==> keep(r)
    ensures Where(roles, keep) == roles
  {
    if roles != [] {
      assert roles[0] in roles;
      assert forall r :: r in roles[1..] ==> r in roles;
      WhereAll(roles[1..], keep);
    }
  }
}
