/** Who may do what, said once over the fields of the user and the entries of the role lists,
    and what granting and taking back a role does. */
module PermissionMeaning {
  import opened Common
  import opened Collections
  import opened Permissions

  // ---- Roles ----

  /** The user has one of these roles in the list, or in a team if teams count there. */
  predicate HasRole(s: Store, u: User, roles: seq<Grant>, names: set<string>, teamsCount: bool) {
    || (exists g :: g in roles && g.role in names && g.kind == "user" && g.grantee == u.id)
    || (&& teamsCount && !s.asWritten
        && exists g, t, m :: g in roles && g.role in names && g.kind == "team"
                             && t in In(s, Teams) && t.id == g.grantee && m in t.roles && m.grantee == u.id)
  }

  /** The same with any role. */
  predicate HasAnyRole(s: Store, u: User, roles: seq<Grant>, teamsCount: bool) {
    || (exists g :: g in roles && g.kind == "user" && g.grantee == u.id)
    || (&& teamsCount && !s.asWritten
        && exists g, t, m :: g in roles && g.kind == "team"
                             && t in In(s, Teams) && t.id == g.grantee && m in t.roles && m.grantee == u.id)
  }

  /** Some organization of that id has the user in its role list. */
  predicate Belongs(s: Store, org: Option<Id>, u: User) {
    org.Some? && exists o, m :: o in In(s, Organizations) && o.id == org.value && m in o.roles && m.grantee == u.id
  }

  /** Some organization of that id has the user in its role list, and an admin. */
  predicate BelongsBesideAdmin(s: Store, org: Option<Id>, u: User) {
    org.Some? && exists o, m, a :: o in In(s, Organizations) && o.id == org.value
                                   && m in o.roles && m.grantee == u.id && a in o.roles && a.role == "admin"
  }

  lemma MembershipIs(s: Store, org: Option<Id>, u: User)
    ensures HasOrganizationRead(s, org, u) <==> Belongs(s, org, u)
  {
    if HasOrganizationRead(s, org, u) {
      var o :| o in In(s, Organizations) && o.id == org.value && Grants(o.roles, u.id);
      var m :| m in o.roles && m.grantee == u.id;
    }
    if Belongs(s, org, u) {
      var o, m :| o in In(s, Organizations) && o.id == org.value && m in o.roles && m.grantee == u.id;
      assert Grants(o.roles, u.id);
    }
  }

  lemma AdminCheckIs(s: Store, org: Option<Id>, u: User)
    ensures IsOrganizationAdmin(s, org, u) <==> BelongsBesideAdmin(s, org, u)
  {
    if IsOrganizationAdmin(s, org, u) {
      var o :| o in In(s, Organizations) && o.id == org.value && Grants(o.roles, u.id) && GrantsRole(o.roles, ADMIN);
      var m :| m in o.roles && m.grantee == u.id;
      var a :| a in o.roles && a.role == ADMIN;
    } else if BelongsBesideAdmin(s, org, u) {
      var o, m, a :| o in In(s, Organizations) && o.id == org.value
                     && m in o.roles && m.grantee == u.id && a in o.roles && a.role == "admin";
      assert Grants(o.roles, u.id) && GrantsRole(o.roles, ADMIN);
    }
  }

  lemma OrganizationsAre(s: Store, org: Option<Id>, u: User)
    ensures HasOrganizationRead(s, org, u) <==> Belongs(s, org, u)
    ensures IsOrganizationAdmin(s, org, u) <==> BelongsBesideAdmin(s, org, u)
  {
    hide Belongs, BelongsBesideAdmin, IsOrganizationAdmin, HasOrganizationRead;
    MembershipIs(s, org, u);
    AdminCheckIs(s, org, u);
  }

  lemma HoldsIs(s: Store, u: User, roles: seq<Grant>, names: set<string>)
    ensures Holds(s, u, roles, OneOf(names)) <==> HasRole(s, u, roles, names, true)
    ensures UserHas(roles, u, OneOf(names)) <==> HasRole(s, u, roles, names, false)
  {
    var teams := TeamsWith(roles, OneOf(names));
    if IsInTeams(s, u, teams) {
      var t :| t in In(s, Teams) && t.id in teams && Grants(t.roles, u.id);
      var m :| m in t.roles && m.grantee == u.id;
      var g :| g in roles && g.kind == TEAM && g.role in names && g.grantee == t.id;
    }
    if !s.asWritten {
      forall g, t, m | g in roles && g.role in names && g.kind == "team"
                       && t in In(s, Teams) && t.id == g.grantee && m in t.roles && m.grantee == u.id
        ensures IsInTeams(s, u, teams)
      {
        assert Grants(t.roles, u.id) && OneOf(names)(g.role) && t.id in teams;
      }
    }
  }

  lemma HoldsAnyIs(s: Store, u: User, roles: seq<Grant>)
    ensures Holds(s, u, roles, AnyRole()) <==> HasAnyRole(s, u, roles, true)
    ensures UserHas(roles, u, AnyRole()) <==> HasAnyRole(s, u, roles, false)
  {
    var teams := TeamsWith(roles, AnyRole());
    if IsInTeams(s, u, teams) {
      var t :| t in In(s, Teams) && t.id in teams && Grants(t.roles, u.id);
      var m :| m in t.roles && m.grantee == u.id;
      var g :| g in roles && g.kind == TEAM && g.grantee == t.id;
    }
    if !s.asWritten {
      forall g, t, m | g in roles && g.kind == "team"
                       && t in In(s, Teams) && t.id == g.grantee && m in t.roles && m.grantee == u.id
        ensures IsInTeams(s, u, teams)
      {
        assert Grants(t.roles, u.id) && t.id in teams;
      }
    }
  }

  // ---- The decisions ----

  /** Who may write: a superuser, which an auditor is not; a member of an organization with an
      admin, except for organizations and templates; and who has the admin role, for
      inventories also the update role and for templates the execute role, where roles of
      teams count except on organizations and teams. */
  lemma WriteIs(s: Store, u: User, k: Kind, d: Doc)
    ensures CanWrite(s, u, k, d)
            <==> || u.superUser
                 || (k in {Teams, Projects, Credentials, Inventories} && BelongsBesideAdmin(s, d.organization, u))
                 || HasRole(s, u, d.roles, {"admin"}, k !in {Organizations, Teams})
                 || (k == Inventories && HasRole(s, u, d.roles, {"update"}, true))
                 || (k in {JobTemplates, TerraformTemplates} && HasRole(s, u, d.roles, {"execute"}, true))
  {
    hide HasRole, Holds, UserHas;
    OrganizationsAre(s, d.organization, u);
    HoldsIs(s, u, d.roles, {"admin"});
    HoldsIs(s, u, d.roles, WriteRoles(k));
    EitherRole(s, u, d.roles, "update");
    EitherRole(s, u, d.roles, "execute");
  }

  lemma EitherRole(s: Store, u: User, roles: seq<Grant>, name: string)
    ensures HasRole(s, u, roles, {"admin", name}, true)
            <==> HasRole(s, u, roles, {"admin"}, true) || HasRole(s, u, roles, {name}, true)
  {
  }

  /** Who may update a project from its repository: the same, with the update role. */
  lemma UpdateIs(s: Store, u: User, d: Doc)
    ensures CanUpdateProject(s, u, d)
            <==> || u.superUser || BelongsBesideAdmin(s, d.organization, u)
                 || HasRole(s, u, d.roles, {"admin", "update"}, true)
  {
    hide HasRole, Holds;
    OrganizationsAre(s, d.organization, u);
    HoldsIs(s, u, d.roles, {"admin", "update"});
  }

  /** Who may read a project, a credential or an inventory. */
  predicate Reads(s: Store, u: User, d: Doc) {
    u.superUser || u.auditor || BelongsBesideAdmin(s, d.organization, u) || HasAnyRole(s, u, d.roles, true)
  }

  lemma ReadOwnedIs(s: Store, u: User, d: Doc)
    ensures CanReadOwned(s, u, d) <==> Reads(s, u, d)
  {
    hide HasAnyRole, Holds;
    OrganizationsAre(s, d.organization, u);
    HoldsAnyIs(s, u, d.roles);
  }

  /** The document of that id, the first if there are several, may be read. */
  ghost predicate ReadsById(s: Store, u: User, k: Kind, id: Id) {
    exists i :: 0 <= i < |In(s, k)| && In(s, k)[i].id == id && (forall j :: 0 <= j < i ==> In(s, k)[j].id != id)
                && Reads(s, u, In(s, k)[i])
  }

  lemma {:induction false} FindPlace(docs: seq<Doc>, id: Id) returns (i: nat)
    requires Find(docs, id).Some?
    ensures i < |docs| && docs[i] == Find(docs, id).value && forall j :: 0 <= j < i ==> docs[j].id != id
  {
    if docs[0].id == id {
      i := 0;
    } else {
      var k := FindPlace(docs[1..], id);
      i := k + 1;
      assert forall j :: 1 <= j < i ==> docs[j] == docs[1..][j - 1];
    }
  }

  lemma ReadByIdIs(s: Store, u: User, k: Kind, id: Id)
    ensures CanReadById(s, u, k, id) <==> ReadsById(s, u, k, id)
  {
    hide Reads, CanReadOwned;
    if Find(In(s, k), id).Some? {
      var i := FindPlace(In(s, k), id);
      forall j | 0 <= j < |In(s, k)| && In(s, k)[j].id == id && forall m :: 0 <= m < j ==> In(s, k)[m].id != id
        ensures j == i
      {
      }
      ReadOwnedIs(s, u, In(s, k)[i]);
    }
  }

  /** Who may read: superusers and auditors everything; members of an organization its teams,
      those of one with an admin what belongs to it; who has a role; and of templates, who may
      read the first of their machine, cloud and network credentials, or without any the
      inventory of a job template or the project, or has a role. */
  lemma ReadIs(s: Store, u: User, k: Kind, d: Doc)
    ensures CanRead(s, u, k, d)
            <==> || u.superUser || u.auditor
                 || match k
                    case Organizations => HasAnyRole(s, u, d.roles, false)
                    case Teams => Belongs(s, d.organization, u) || HasAnyRole(s, u, d.roles, false)
                    case Projects | Credentials | Inventories =>
                      BelongsBesideAdmin(s, d.organization, u) || HasAnyRole(s, u, d.roles, true)
                    case JobTemplates | TerraformTemplates =>
                      match (d.links.machine, d.links.cloud, d.links.network)
                      case (Some(c), _, _) => ReadsById(s, u, Credentials, c)
                      case (None, Some(c), _) => ReadsById(s, u, Credentials, c)
                      case (None, None, Some(c)) => ReadsById(s, u, Credentials, c)
                      case (None, None, None) =>
                        || (k == JobTemplates && ReadsById(s, u, Inventories, d.links.inventory))
                        || ReadsById(s, u, Projects, d.links.project) || HasAnyRole(s, u, d.roles, true)
  {
    hide HasAnyRole, Holds, UserHas, ReadsById, CanReadById, Belongs, BelongsBesideAdmin, IsOrganizationAdmin, HasOrganizationRead;
    OrganizationsAre(s, d.organization, u);
    HoldsAnyIs(s, u, d.roles);
    if FirstCredential(d).Some? {
      ReadByIdIs(s, u, Credentials, FirstCredential(d).value);
    }
    ReadByIdIs(s, u, Inventories, d.links.inventory);
    ReadByIdIs(s, u, Projects, d.links.project);
  }

  // ---- Who is in no role list ----

  /** Who is no superuser and is in no role list can write nothing and update nothing, auditor
      or not; and reads everything or nothing, as the auditor flag says. */
  lemma UnlistedDecisions(s: Store, u: User, k: Kind, d: Doc)
    requires !u.superUser && d in In(s, k)
    requires forall other, e, g :: e in In(s, other) && g in e.roles && g.kind == "user" ==> g.grantee != u.id
    requires forall e, g :: (e in In(s, Organizations) || e in In(s, Teams)) && g in e.roles ==> g.grantee != u.id
    ensures !CanWrite(s, u, k, d) && !(k == Projects && CanUpdateProject(s, u, d))
    ensures CanRead(s, u, k, d) <==> u.auditor
  {
    WriteIs(s, u, k, d);
    UpdateIs(s, u, d);
    ReadIs(s, u, k, d);
    forall other, id
      ensures ReadsById(s, u, other, id) ==> u.auditor
    {
    }
  }

  // ---- Granting and taking back ----

  lemma {:induction false} UpdatedAt(ds: seq<Doc>, id: Id, f: seq<Grant> -> seq<Grant>, i: nat)
    requires i < |ds|
    ensures |UpdateRoles(ds, id, f)| == |ds|
    ensures UpdateRoles(ds, id, f)[i]
            == if ds[i].id == id && (forall j :: 0 <= j < i ==> ds[j].id != id) then ds[i].(roles := f(ds[i].roles)) else ds[i]
  {
    if ds[0].id != id && i > 0 {
      UpdatedAt(ds[1..], id, f, i - 1);
      assert forall j :: 1 <= j < i ==> ds[j] == ds[1..][j - 1];
    } else if i == 0 && |ds| > 1 && ds[0].id != id {
      UpdatedAt(ds[1..], id, f, 0);
    }
  }

  /** The first document of that id has the role afterwards, all the roles it had, and no other;
      everything else is as it was. */
  lemma AssociateIs(s: Store, k: Kind, id: Id, g: Grant, other: Kind, i: nat)
    requires i < |In(s, other)|
    ensures var t := Associated(s, k, id, g);
            && |In(t, other)| == |In(s, other)| && t.asWritten == s.asWritten
            && var d, e := In(s, other)[i], In(t, other)[i];
               if other == k && d.id == id && forall j :: 0 <= j < i ==> In(s, other)[j].id != id
               then && e == d.(roles := e.roles)
                    && (forall r: Grant :: multiset(e.roles)[r]
                          == if r == g && g !in d.roles then 1 else multiset(d.roles)[r])
               else e == d
  {
    if other == k {
      UpdatedAt(In(s, k), id, (roles: seq<Grant>) => AddToSet(roles, g), i);
    }
  }

  /** The same with the role gone. */
  lemma DisassociateIs(s: Store, k: Kind, id: Id, g: Grant, other: Kind, i: nat)
    requires i < |In(s, other)|
    ensures var t := Disassociated(s, k, id, g);
            && |In(t, other)| == |In(s, other)| && t.asWritten == s.asWritten
            && var d, e := In(s, other)[i], In(t, other)[i];
               if other == k && d.id == id && forall j :: 0 <= j < i ==> In(s, other)[j].id != id
               then e == d.(roles := e.roles) && (forall r: Grant :: multiset(e.roles)[r] == if r == g then 0 else multiset(d.roles)[r])
               else e == d
  {
    if other == k {
      UpdatedAt(In(s, k), id, (roles: seq<Grant>) => Pull(roles, g), i);
      forall r: Grant
        ensures multiset(Pull(In(s, k)[i].roles, g))[r] == if r == g then 0 else multiset(In(s, k)[i].roles)[r]
      {
        WhereCount(In(s, k)[i].roles, (q: Grant) => q != g, r);
      }
    }
  }

  /** Granting the admin role on a document lets the user write it. */
  lemma GrantedAdminWrites(s: Store, k: Kind, id: Id, u: User)
    requires Find(In(s, k), id).Some?
    ensures var t := Associated(s, k, id, Grant("user", u.id, "admin"));
            Find(In(t, k), id).Some? && CanWrite(t, u, k, Find(In(t, k), id).value)
  {
    var g := Grant("user", u.id, "admin");
    var t := Associated(s, k, id, g);
    var i := FindPlace(In(s, k), id);
    AssociateExtends(s, k, id, g);
    assert MoreAll(In(s, k), In(t, k));
    FindMore(In(s, k), In(t, k), id);
    var e := Find(In(t, k), id).value;
    var n := FindPlace(In(t, k), id);
    forall j | 0 <= j < |In(s, k)|
      ensures In(t, k)[j].id == In(s, k)[j].id
    {
      assert More(In(s, k)[j], In(t, k)[j]);
    }
    assert n == i;
    AssociateIs(s, k, id, g, k, i);
    assert multiset(e.roles)[g] > 0;
    assert g in e.roles;
    WriteIs(t, u, k, e);
  }
}
