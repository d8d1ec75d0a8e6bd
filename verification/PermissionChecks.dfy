/** The checks as the handlers run them: loops that collect teams and return early. */
module PermissionChecks {
  import opened Common
  import opened Permissions

  /** The loop over a role list: whether a role of the user's own counts, and otherwise the
      teams whose role counts. */
  method ScanRoles(u: User, roles: seq<Grant>, accepts: Accepts) returns (own: bool, teams: seq<Id>)
    ensures own <==> UserHas(roles, u, accepts)
    ensures !own ==> (set t | t in teams) == TeamsWith(roles, accepts)
  {
    teams := [];
    var i := 0;
    while i < |roles|
      invariant 0 <= i <= |roles|
      invariant !UserHas(roles[..i], u, accepts)
      invariant forall t :: t in teams <==> t in TeamsWith(roles[..i], accepts)
    {
      var v := roles[i];
      assert forall g :: g in roles[..i + 1] <==> g in roles[..i] || g == v;
      if v.kind == TEAM && accepts(v.role) {
        teams := teams + [v.grantee];
      }
      if v.kind == USER && v.grantee == u.id && accepts(v.role) {
        return true, teams;
      }
      i := i + 1;
    }
    assert roles[..i] == roles;
    return false, teams;
  }

  /** A role of the user's own, or of a team. */
  method CheckRoles(s: Store, u: User, roles: seq<Grant>, accepts: Accepts) returns (r: bool)
    ensures r <==> Holds(s, u, roles, accepts)
  {
    var own, teams := ScanRoles(u, roles, accepts);
    if own {
      return true;
    }
    return IsInTeams(s, u, set t | t in teams);
  }

  // ---- Organizations and teams ----

  method CheckOwnRoles(u: User, roles: seq<Grant>, accepts: Accepts) returns (r: bool)
    ensures r <==> UserHas(roles, u, accepts)
  {
    var i := 0;
    while i < |roles|
      invariant 0 <= i <= |roles| && !UserHas(roles[..i], u, accepts)
    {
      var v := roles[i];
      if v.kind == USER && v.grantee == u.id && accepts(v.role) {
        return true;
      }
      i := i + 1;
    }
    assert roles[..i] == roles;
    return false;
  }

  method ReadOrganization(s: Store, u: User, d: Doc) returns (r: bool)
    ensures r <==> CanRead(s, u, Organizations, d)
  {
    if HasGlobalRead(u) {
      return true;
    }
    r := CheckOwnRoles(u, d.roles, AnyRole());
  }

  method WriteOrganization(s: Store, u: User, d: Doc) returns (r: bool)
    ensures r <==> CanWrite(s, u, Organizations, d)
  {
    if HasGlobalWrite(u) {
      return true;
    }
    r := CheckOwnRoles(u, d.roles, OneOf({ADMIN}));
  }

  method ReadTeam(s: Store, u: User, d: Doc) returns (r: bool)
    ensures r <==> CanRead(s, u, Teams, d)
  {
    if HasGlobalRead(u) || HasOrganizationRead(s, d.organization, u) {
      return true;
    }
    r := CheckOwnRoles(u, d.roles, AnyRole());
  }

  method WriteTeam(s: Store, u: User, d: Doc) returns (r: bool)
    ensures r <==> CanWrite(s, u, Teams, d)
  {
    if HasGlobalWrite(u) || IsOrganizationAdmin(s, d.organization, u) {
      return true;
    }
    r := CheckOwnRoles(u, d.roles, OneOf({ADMIN}));
  }

  // ---- Projects, credentials and inventories ----

  method ReadOwned(s: Store, u: User, d: Doc) returns (r: bool)
    ensures r <==> CanReadOwned(s, u, d)
  {
    if HasGlobalRead(u) {
      return true;
    }
    if IsOrganizationAdmin(s, d.organization, u) {
      return true;
    }
    r := CheckRoles(s, u, d.roles, AnyRole());
  }

  method WriteOwned(s: Store, u: User, k: Kind, d: Doc) returns (r: bool)
    ensures r <==> CanWriteOwned(s, u, k, d)
  {
    if HasGlobalWrite(u) {
      return true;
    }
    if IsOrganizationAdmin(s, d.organization, u) {
      return true;
    }
    r := CheckRoles(s, u, d.roles, OneOf(WriteRoles(k)));
  }

  method UpdateProject(s: Store, u: User, d: Doc) returns (r: bool)
    ensures r <==> CanUpdateProject(s, u, d)
  {
    if u.superUser {
      return true;
    }
    if IsOrganizationAdmin(s, d.organization, u) {
      return true;
    }
    r := CheckRoles(s, u, d.roles, OneOf({ADMIN, "update"}));
  }

  method ReadById(s: Store, u: User, k: Kind, id: Id) returns (r: bool)
    ensures r <==> CanReadById(s, u, k, id)
  {
    var d := Find(In(s, k), id);
    if d == None {
      return false;
    }
    r := ReadOwned(s, u, d.value);
  }

  // ---- Templates ----

  /** `GetOrganizationID` of a template, as written: it looks for an organization with the id
      of the project. On failure the id it answers is empty. */
  method OrganizationIdOf(s: Store, d: Doc) returns (org: Option<Id>, failed: bool)
    ensures failed ==> org == None
  {
    var project := Find(In(s, Projects), d.links.project);
    if project == None {
      return None, true;
    }
    var found := Find(In(s, Organizations), project.value.id);
    if found == None {
      return None, true;
    }
    return Some(found.value.id), false;
  }

  /** The organization check of a template runs only on failure, so it allows nothing. */
  method ReadTemplate(s: Store, u: User, k: Kind, d: Doc) returns (r: bool)
    ensures r <==> CanReadTemplate(s, u, k, d)
  {
    if HasGlobalRead(u) {
      return true;
    }
    if d.links.machine.Some? {
      r := ReadById(s, u, Credentials, d.links.machine.value);
      return;
    }
    if d.links.cloud.Some? {
      r := ReadById(s, u, Credentials, d.links.cloud.value);
      return;
    }
    if d.links.network.Some? {
      r := ReadById(s, u, Credentials, d.links.network.value);
      return;
    }
    if k == JobTemplates {
      r := ReadById(s, u, Inventories, d.links.inventory);
      if r {
        return;
      }
    }
    r := ReadById(s, u, Projects, d.links.project);
    if r {
      return;
    }
    var org, failed := OrganizationIdOf(s, d);
    if failed && IsOrganizationAdmin(s, org, u) {
      return true;
    }
    r := CheckRoles(s, u, d.roles, AnyRole());
  }

  method WriteTemplate(s: Store, u: User, k: Kind, d: Doc) returns (r: bool)
    ensures r <==> CanWriteTemplate(s, u, k, d)
  {
    if HasGlobalWrite(u) {
      return true;
    }
    var org, failed := OrganizationIdOf(s, d);
    if failed && IsOrganizationAdmin(s, org, u) {
      return true;
    }
    r := CheckRoles(s, u, d.roles, OneOf(WriteRoles(k)));
  }

  // ---- Role lists ----

  class Database {
    var store: Store

    constructor (s: Store)
      ensures store == s
    {
      store := s;
    }

    /** `Associate`; false when there is no such document. */
    method Associate(k: Kind, id: Id, g: Grant) returns (ok: bool)
      modifies this
      ensures ok <==> Find(In(old(store), k), id).Some?
      ensures store == if ok then Associated(old(store), k, id, g) else old(store)
    {
      ok := Find(In(store, k), id).Some?;
      if ok {
        var docs := UpdateRoles(In(store, k), id, (roles: seq<Grant>) => AddToSet(roles, g));
        store := store.(docs := store.docs[k := docs]);
      }
    }

    /** `Disassociate`. */
    method Disassociate(k: Kind, id: Id, g: Grant) returns (ok: bool)
      modifies this
      ensures ok <==> Find(In(old(store), k), id).Some?
      ensures store == if ok then Disassociated(old(store), k, id, g) else old(store)
    {
      ok := Find(In(store, k), id).Some?;
      if ok {
        var docs := UpdateRoles(In(store, k), id, (roles: seq<Grant>) => Pull(roles, g));
        store := store.(docs := store.docs[k := docs]);
      }
    }
  }
}
