/** The group and host handlers and what every run of them keeps: parent pointers form a
    forest at most three levels deep, and every host names a live group. */
module InventoryStore {
  import opened Common
  import opened Collections
  import opened InventoryModel

  // ---- The forest ----

  /** `GetParent` of a group. */
  function Parent(gs: seq<Group>, g: Group): Option<Group> {
    if g.parent.Some? then Lookup(gs, g.parent.value) else None
  }

  /** The group reached from `g` by following `GetParent` `n` times. */
  function Climb(gs: seq<Group>, g: Group, n: nat): Option<Group>
    decreases n
  {
    if n == 0 then Some(g)
    else if Parent(gs, g) == None then None
    else Climb(gs, Parent(gs, g).value, n - 1)
  }

  /** From every group, following `GetParent` stops within two steps: whoever is reached
      by the second step names no parent. */
  ghost predicate Bounded(gs: seq<Group>) {
    forall g :: g in gs ==> Climb(gs, g, 2) == None || Climb(gs, g, 2).value.parent == None
  }

  /** Every parent pointer names a live group. */
  ghost predicate Closed(gs: seq<Group>) {
    forall g :: g in gs && g.parent.Some? ==> g.parent.value in Ids(gs)
  }

  lemma {:induction false} ClimbPast(gs: seq<Group>, g: Group, n: nat)
    requires Bounded(gs) && g in gs && n >= 3
    ensures Climb(gs, g, n) == None
    decreases n
  {
    if Parent(gs, g).Some? {
      var p := Parent(gs, g).value;
      if Parent(gs, p).Some? {
        var q := Parent(gs, p).value;
        assert Climb(gs, g, 2) == Some(q) by {
          assert Climb(gs, p, 1) == Climb(gs, q, 0);
        }
        assert Parent(gs, q) == None;
        assert Climb(gs, p, n - 1) == Climb(gs, q, n - 2);
      }
    }
  }

  lemma {:induction false} ClimbAgain(gs: seq<Group>, g: Group, h: Group, m: nat, n: nat)
    requires Climb(gs, g, m) == Some(h)
    ensures Climb(gs, g, m + n) == Climb(gs, h, n)
    decreases m
  {
    if m > 0 {
      ClimbAgain(gs, Parent(gs, g).value, h, m - 1, n);
    }
  }

  /** A bounded forest has no cycles. */
  lemma BoundedIsAcyclic(gs: seq<Group>, g: Group, n: nat)
    requires Bounded(gs) && g in gs && n > 0
    ensures Climb(gs, g, n) != Some(g)
  {
    if Climb(gs, g, n) == Some(g) {
      ClimbAgain(gs, g, g, n, n);
      ClimbAgain(gs, g, g, n, 2 * n);
      ClimbPast(gs, g, 3 * n);
    }
  }

  // ---- Group handlers ----

  datatype Refusal = NoInventory | Forbidden | NotUnique | NoParent | NoHierarchy | TooDeep | NoGroup

  /** The request body of a group create or update. */
  datatype GroupRequest = GroupRequest(name: string, variables: Text, inventory: Id, parent: Option<Id>)

  datatype HostRequest = HostRequest(name: string, variables: Text, inventory: Id, group: Option<Id>)

  /** The collections. `known` holds every identifier handed out so far. */
  datatype Data = Data(inventories: set<Id>, groups: seq<Group>, hosts: seq<Host>, known: set<Id>)

  predicate NameTaken(gs: seq<Group>, name: string, inv: Id) {
    exists g :: g in gs && g.name == name && g.inventory == inv
  }

  predicate HostNameTaken(hs: seq<Host>, name: string, inv: Id) {
    exists h :: h in hs && h.name == name && h.inventory == inv
  }

  /** The nesting check of `Create`: a new group may stand under a root group or under a
      child of a root group. */
  function NestingCheck(gs: seq<Group>, parent: Option<Id>): Option<Refusal> {
    if parent == None then None
    else
      var p1 := Lookup(gs, parent.value);
      if p1 == None then Some(NoParent)
      else if p1.value.parent == None then None
      else
        var p2 := Lookup(gs, p1.value.parent.value);
        if p2 == None then Some(NoHierarchy)
        else if p2.value.parent.Some? then Some(TooDeep)
        else None
  }

  function CreateCheck(d: Data, req: GroupRequest, allowed: bool): Option<Refusal> {
    if req.inventory !in d.inventories then Some(NoInventory)
    else if !allowed then Some(Forbidden)
    else if NameTaken(d.groups, req.name, req.inventory) then Some(NotUnique)
    else NestingCheck(d.groups, req.parent)
  }

  function UpdateCheck(d: Data, g: Group, req: GroupRequest): Option<Refusal> {
    if req.inventory !in d.inventories then Some(NoInventory)
    else if req.name != g.name && NameTaken(d.groups, req.name, req.inventory) then Some(NotUnique)
    else if req.parent.Some? && req.parent.value != g.id && Lookup(d.groups, req.parent.value) == None then Some(NoParent)
    else None
  }

  function IdNotIn(ids: set<Id>): Group -> bool { (g: Group) => g.id !in ids }

  function GroupNotIn(ids: set<Id>): Host -> bool { (h: Host) => h.group == None || h.group.value !in ids }

  /** The group and its direct children: what `Delete` removes. */
  function Doomed(gs: seq<Group>, id: Id): (r: set<Id>)
    ensures forall j :: j in r <==> j == id || exists g :: g in gs && g.id == j && g.parent == Some(id)
  {
    {id} + Ids(Kids(gs, id))
  }

  /** How far a delete gets. A removal that fails may already have removed some of what it
      was to remove, and ends the handler. */
  datatype Cut = Whole | HostsCut(gone: set<Id>) | GroupsCut(removed: set<Id>)

  function HostSpared(ids: set<Id>, gone: set<Id>): Host -> bool {
    (h: Host) => h.group == None || h.group.value !in ids || h.id !in gone
  }

  function DeleteResult(d: Data, id: Id, cut: Cut): Data {
    var ids := Doomed(d.groups, id);
    match cut
    case HostsCut(gone) => d.(hosts := Where(d.hosts, HostSpared(ids, gone)))
    case GroupsCut(removed) =>
      d.(hosts := Where(d.hosts, GroupNotIn(ids)), groups := Where(d.groups, IdNotIn(ids * removed)))
    case Whole => d.(hosts := Where(d.hosts, GroupNotIn(ids)), groups := Where(d.groups, IdNotIn(ids)))
  }

  datatype Op =
    | CreateGroup(id: Id, req: GroupRequest, allowed: bool)
    | DeleteGroup(target: Id, cut: Cut)
    | UpdateGroup(target: Id, req: GroupRequest)
    | CreateHost(id: Id, host: HostRequest, allowed: bool)
    | UpdateHost(target: Id, host: HostRequest)
    | DeleteHost(target: Id)

  function HostCheck(d: Data, req: HostRequest): Option<Refusal> {
    if req.group.Some? && Lookup(d.groups, req.group.value) == None then Some(NoGroup) else None
  }

  function CreateHostCheck(d: Data, req: HostRequest, allowed: bool): Option<Refusal> {
    if req.inventory !in d.inventories then Some(NoInventory)
    else if !allowed then Some(Forbidden)
    else if HostNameTaken(d.hosts, req.name, req.inventory) then Some(NotUnique)
    else HostCheck(d, req)
  }

  function UpdateHostCheck(d: Data, h: Host, req: HostRequest): Option<Refusal> {
    if req.inventory !in d.inventories then Some(NoInventory)
    else if req.name != h.name && HostNameTaken(d.hosts, req.name, req.inventory) then Some(NotUnique)
    else HostCheck(d, req)
  }

  function Replace(id: Id, r: HostRequest): Host -> Host {
    (h: Host) => if h.id == id then Host(h.id, Trim(r.name), r.variables, r.inventory, r.group) else h
  }

  /** What an update makes of the stored groups. */
  function Updated(id: Id, r: GroupRequest): Group -> Group {
    (g: Group) => if g.id == id then Group(id, Trim(r.name), r.variables, r.inventory, r.parent) else g
  }

  function NotHost(id: Id): Host -> bool { (h: Host) => h.id != id }

  /** A request can be made: new identifiers are new, and targets were loaded from the store. */
  predicate Possible(d: Data, op: Op) {
    match op
    case CreateGroup(id, _, _) => id !in d.known
    case CreateHost(id, _, _) => id !in d.known
    case DeleteGroup(id, _) => id in Ids(d.groups)
    case UpdateGroup(id, _) => id in Ids(d.groups)
    case UpdateHost(id, _) => exists h :: h in d.hosts && h.id == id
    case DeleteHost(id) => exists h :: h in d.hosts && h.id == id
  }

  function NewGroup(id: Id, r: GroupRequest): Group {
    Group(id, r.name, r.variables, r.inventory, r.parent)
  }

  function HostOf(hs: seq<Host>, id: Id): (r: Host)
    requires exists h :: h in hs && h.id == id
    ensures r in hs && r.id == id
  {
    if hs[0].id == id then hs[0] else HostOf(hs[1..], id)
  }

  function Do(d: Data, op: Op): Data
    requires Possible(d, op)
  {
    match op
    case CreateGroup(id, r, allowed) =>
      if CreateCheck(d, r, allowed).Some? then d
      else d.(groups := d.groups + [NewGroup(id, r)], known := d.known + {id})
    case DeleteGroup(id, cut) => DeleteResult(d, id, cut)
    case UpdateGroup(id, r) =>
      if UpdateCheck(d, Lookup(d.groups, id).value, r).Some? then d else d.(groups := Map(d.groups, Updated(id, r)))
    case CreateHost(id, r, allowed) =>
      if CreateHostCheck(d, r, allowed).Some? then d
      else d.(hosts := d.hosts + [Host(id, r.name, r.variables, r.inventory, r.group)], known := d.known + {id})
    case UpdateHost(id, r) =>
      if UpdateHostCheck(d, HostOf(d.hosts, id), r).Some? then d
      else d.(hosts := Map(d.hosts, Replace(id, r)))
    case DeleteHost(id) => d.(hosts := Where(d.hosts, NotHost(id)))
  }

  /** What every run of the handlers keeps. */
  ghost predicate Sound(d: Data) {
    && DistinctGroups(d.groups)
    && (forall g :: g in d.groups ==> g.id in d.known)
    && (forall g :: g in d.groups && g.parent.Some? ==> g.parent.value in d.known)
    && Bounded(d.groups)
    && (forall h :: h in d.hosts && h.group.Some? ==> h.group.value in Ids(d.groups))
  }

  /** What an update would have to check: no parent; or a parent other than the group
      itself and its children, high enough for the group and what hangs below it. */
  predicate Fits(gs: seq<Group>, id: Id, parent: Option<Id>)
    requires parent.Some? && parent.value != id ==> Lookup(gs, parent.value).Some?
  {
    parent == None
    || (&& parent.value != id
        && !(exists c, k :: c in gs && k in gs && c.parent == Some(id) && k.parent == Some(c.id))
        && var up := Lookup(gs, parent.value).value.parent;
           if up == None then true
           else
             && up.value != id
             && !(exists c :: c in gs && c.parent == Some(id))
             && (Lookup(gs, up.value) == None || Lookup(gs, up.value).value.parent == None))
  }

  /** An accepted group update does what the handler does not check. */
  predicate Admissible(d: Data, op: Op)
    requires Possible(d, op)
  {
    op.UpdateGroup? && UpdateCheck(d, Lookup(d.groups, op.target).value, op.req) == None ==>
      Fits(d.groups, op.target, op.req.parent)
  }

  predicate CanRun(d: Data, ops: seq<Op>)
    decreases |ops|
  {
    ops == [] || (Possible(d, ops[0]) && CanRun(Do(d, ops[0]), ops[1..]))
  }

  function RunAll(d: Data, ops: seq<Op>): Data
    requires CanRun(d, ops)
    decreases |ops|
  {
    if ops == [] then d else RunAll(Do(d, ops[0]), ops[1..])
  }

  // ---- Each handler keeps the forest ----

  lemma {:induction false} LookupAppend(gs: seq<Group>, n: Group, id: Id)
    ensures Lookup(gs + [n], id) == if Lookup(gs, id).Some? then Lookup(gs, id) else if n.id == id then Some(n) else None
  {
    if gs == [] {
      assert gs + [n] == [n];
    } else {
      assert (gs + [n])[1..] == gs[1..] + [n];
      LookupAppend(gs[1..], n, id);
    }
  }

  lemma LookupFinds(gs: seq<Group>, g: Group)
    requires DistinctGroups(gs) && g in gs
    ensures Lookup(gs, g.id) == Some(g)
  {
    SameKey(gs, GroupId(), Lookup(gs, g.id).value, g);
  }

  lemma CreateKeepsBounded(gs: seq<Group>, n: Group)
    requires Bounded(gs) && NestingCheck(gs, n.parent) == None
    requires n.id !in Ids(gs) && forall g :: g in gs ==> g.parent != Some(n.id)
    requires n.parent != Some(n.id)
    ensures Bounded(gs + [n])
  {
    var gs' := gs + [n];
    forall g | g in gs'
      ensures Climb(gs', g, 2) == None || Climb(gs', g, 2).value.parent == None
    {
      forall x | x in gs'
        ensures Parent(gs', x) == Parent(gs, x)
      {
        if x.parent.Some? {
          LookupAppend(gs, n, x.parent.value);
        }
      }
      var p := Parent(gs, g);
      if p.Some? {
        assert p.value in gs;
        assert Climb(gs', g, 2) == Climb(gs', p.value, 1);
        assert Climb(gs, g, 2) == Climb(gs, p.value, 1);
        if Parent(gs, p.value).Some? {
          assert Climb(gs', p.value, 1) == Climb(gs', Parent(gs, p.value).value, 0);
          assert Climb(gs, p.value, 1) == Climb(gs, Parent(gs, p.value).value, 0);
        }
      }
    }
  }

  lemma {:induction false} LookupWhere(gs: seq<Group>, ids: set<Id>, id: Id)
    ensures Lookup(Where(gs, IdNotIn(ids)), id) == if id in ids then None else Lookup(gs, id)
  {
    if gs != [] {
      LookupWhere(gs[1..], ids, id);
    }
  }

  lemma DeleteKeepsBounded(gs: seq<Group>, ids: set<Id>)
    requires Bounded(gs)
    ensures Bounded(Where(gs, IdNotIn(ids)))
  {
    var gs' := Where(gs, IdNotIn(ids));
    forall g | g in gs'
      ensures Climb(gs', g, 2) == None || Climb(gs', g, 2).value.parent == None
    {
      forall x: Group
        ensures Parent(gs', x) == None || Parent(gs', x) == Parent(gs, x)
      {
        if x.parent.Some? {
          LookupWhere(gs, ids, x.parent.value);
        }
      }
      var p := Parent(gs', g);
      if p.Some? && Parent(gs', p.value).Some? {
        var q := Parent(gs', p.value).value;
        assert Climb(gs, p.value, 1) == Climb(gs, q, 0);
        assert Climb(gs, g, 2) == Climb(gs, p.value, 1);
        assert Climb(gs', p.value, 1) == Climb(gs', q, 0);
        assert Climb(gs', g, 2) == Climb(gs', p.value, 1);
      }
    }
  }

  lemma SoundCreate(d: Data, id: Id, r: GroupRequest, allowed: bool)
    requires Sound(d) && id !in d.known
    ensures Sound(Do(d, CreateGroup(id, r, allowed)))
  {
    var d' := Do(d, CreateGroup(id, r, allowed));
    if CreateCheck(d, r, allowed) == None {
      CreateKeepsBounded(d.groups, NewGroup(id, r));
      assert Ids(d'.groups) == Ids(d.groups) + {id};
    }
  }

  lemma SoundUpdateHost(d: Data, id: Id, r: HostRequest)
    requires Sound(d) && Possible(d, UpdateHost(id, r))
    ensures Sound(Do(d, UpdateHost(id, r)))
  {
    var d' := Do(d, UpdateHost(id, r));
    forall h | h in d'.hosts && h.group.Some?
      ensures h.group.value in Ids(d'.groups)
    {
      if d'.hosts != d.hosts {
        var i :| 0 <= i < |d'.hosts| && d'.hosts[i] == h;
        assert h == Replace(id, r)(d.hosts[i]);
      }
    }
  }

  lemma SoundDelete(d: Data, id: Id, cut: Cut)
    requires Sound(d) && id in Ids(d.groups)
    ensures Sound(Do(d, DeleteGroup(id, cut)))
  {
    var d' := Do(d, DeleteGroup(id, cut));
    var ids := Doomed(d.groups, id);
    if !cut.HostsCut? {
      var out := if cut.Whole? then ids else ids * cut.removed;
      assert d'.groups == Where(d.groups, IdNotIn(out));
      DeleteKeepsBounded(d.groups, out);
      WhereDistinct(d.groups, IdNotIn(out), GroupId());
      forall h | h in d'.hosts && h.group.Some?
        ensures h.group.value in Ids(d'.groups)
      {
        var g :| g in d.groups && g.id == h.group.value;
        assert g in d'.groups;
      }
    }
  }

  /** A completed delete removes exactly the group, its direct children and the hosts of
      these groups. */
  lemma DeleteIsExact(d: Data, id: Id)
    requires DistinctGroups(d.groups) && id in Ids(d.groups)
    ensures var d' := Do(d, DeleteGroup(id, Whole));
            && (forall g :: g in d'.groups <==> g in d.groups && g.id != id && g.parent != Some(id))
            && (forall h :: h in d'.hosts <==>
                  h in d.hosts && (h.group == None
                                   || (h.group != Some(id)
                                       && forall g :: g in d.groups && g.parent == Some(id) ==> h.group != Some(g.id))))
  {
    forall g | g in d.groups && g.id in Doomed(d.groups, id)
      ensures g.id == id || g.parent == Some(id)
    {
      if g.id != id {
        var k :| k in d.groups && k.id == g.id && k.parent == Some(id);
        SameKey(d.groups, GroupId(), g, k);
      }
    }
  }

  /** A group two levels below `id`. */
  ghost predicate HasGrandchild(gs: seq<Group>, id: Id) {
    exists c, k :: c in gs && k in gs && c.parent == Some(id) && k.parent == Some(c.id)
  }

  /** The groups that a delete removes before it ends. */
  function Removed(gs: seq<Group>, id: Id, cut: Cut): set<Id> {
    match cut
    case HostsCut(_) => {}
    case GroupsCut(removed) => Doomed(gs, id) * removed
    case Whole => Doomed(gs, id)
  }

  /** A removed group has a child that stays. */
  ghost predicate Orphans(gs: seq<Group>, out: set<Id>) {
    exists c, k :: c in gs && k in gs && c.id in out && k.parent == Some(c.id) && k.id !in out
  }

  /** A delete, stopped or not, leaves the forest parent-closed exactly when no removed group
      has a child that stays; for a completed one, when the group had no grandchildren. */
  lemma DeleteKeepsClosed(d: Data, id: Id, cut: Cut)
    requires Sound(d) && Closed(d.groups) && id in Ids(d.groups)
    ensures Closed(Do(d, DeleteGroup(id, cut)).groups) <==> !Orphans(d.groups, Removed(d.groups, id, cut))
    ensures Orphans(d.groups, Removed(d.groups, id, Whole)) <==> HasGrandchild(d.groups, id)
  {
    var gs, out := d.groups, Removed(d.groups, id, cut);
    var gs' := Do(d, DeleteGroup(id, cut)).groups;
    assert forall g :: g in gs' <==> g in gs && g.id !in out;
    if c, k :| c in gs && k in gs && c.id in out && k.parent == Some(c.id) && k.id !in out {
      assert k in gs' && c.id !in Ids(gs');
    }
    WholeOrphans(d, id);
  }

  lemma WholeOrphans(d: Data, id: Id)
    requires Sound(d) && id in Ids(d.groups)
    ensures Orphans(d.groups, Removed(d.groups, id, Whole)) <==> HasGrandchild(d.groups, id)
  {
    hide Do, Doomed, Sound;
    var gs := d.groups;
    if c, k :| c in gs && k in gs && c.parent == Some(id) && k.parent == Some(c.id) {
      GrandchildStays(d, id, c, k);
      StaysNotDoomed(d, id, k);
    }
    if c, k :| c in gs && k in gs && c.id in Doomed(gs, id) && k.parent == Some(c.id) && k.id !in Doomed(gs, id) {
      var e :| e in gs && e.id == c.id && e.parent == Some(id);
    }
  }

  lemma StaysNotDoomed(d: Data, id: Id, k: Group)
    requires id in Ids(d.groups) && k in Do(d, DeleteGroup(id, Whole)).groups
    ensures k.id !in Doomed(d.groups, id)
  {
  }

  lemma GrandchildStays(d: Data, id: Id, c: Group, k: Group)
    requires Sound(d) && id in Ids(d.groups)
    requires c in d.groups && k in d.groups && c.parent == Some(id) && k.parent == Some(c.id)
    ensures var gs' := Do(d, DeleteGroup(id, Whole)).groups;
            k in gs' && c.id !in Ids(gs')
  {
    DeleteIsExact(d, id);
    LookupFinds(d.groups, c);
    LookupFinds(d.groups, k);
    var g := Lookup(d.groups, id).value;
    assert Climb(d.groups, k, 1) == Climb(d.groups, c, 0);
    assert Climb(d.groups, c, 1) == Climb(d.groups, g, 0);
    assert Climb(d.groups, k, 2) == Climb(d.groups, c, 1);
    BoundedIsAcyclic(d.groups, c, 1);
    BoundedIsAcyclic(d.groups, k, 2);
    forall j | j in Do(d, DeleteGroup(id, Whole)).groups
      ensures j.id != c.id
    {
      if j != c {
        DifferentKeys(d.groups, GroupId(), j, c);
      }
    }
  }

  // ---- Update, which has no nesting check ----

  function SetParent(id: Id, p: Option<Id>): Group -> Group {
    (g: Group) => if g.id == id then g.(parent := p) else g
  }

  lemma {:induction false} LookupSetParent(gs: seq<Group>, id: Id, p: Option<Id>, j: Id)
    ensures Lookup(Map(gs, SetParent(id, p)), j)
            == if Lookup(gs, j).Some? then Some(SetParent(id, p)(Lookup(gs, j).value)) else None
  {
    if gs != [] {
      LookupSetParent(gs[1..], id, p, j);
    }
  }

  /** The parent after an update. */
  lemma ParentAfter(gs: seq<Group>, id: Id, p: Option<Id>, g: Group)
    ensures var gs' := Map(gs, SetParent(id, p));
            var g' := SetParent(id, p)(g);
            && Climb(gs', g', 1) == Parent(gs', g')
            && (g.id != id ==> Parent(gs', g') == if Parent(gs, g).Some? then Some(SetParent(id, p)(Parent(gs, g).value)) else None)
            && (g.id == id ==> Parent(gs', g') == if p.Some? && Lookup(gs, p.value).Some?
                                                  then Some(SetParent(id, p)(Lookup(gs, p.value).value)) else None)
  {
    var gs' := Map(gs, SetParent(id, p));
    var g' := SetParent(id, p)(g);
    if g'.parent.Some? {
      LookupSetParent(gs, id, p, g'.parent.value);
    }
    if Parent(gs', g').Some? {
      assert Climb(gs', g', 1) == Climb(gs', Parent(gs', g').value, 0);
    }
  }

  lemma {:induction false} ClimbTwo(gs: seq<Group>, g: Group)
    ensures Climb(gs, g, 2) == if Parent(gs, g).Some? then Parent(gs, Parent(gs, g).value) else None
  {
    if Parent(gs, g).Some? {
      var p := Parent(gs, g).value;
      assert Climb(gs, g, 2) == Climb(gs, p, 1);
      if Parent(gs, p).Some? {
        assert Climb(gs, p, 1) == Climb(gs, Parent(gs, p).value, 0);
      }
    }
  }

  /** An update to parent `p` keeps the forest bounded exactly when the new parent fits. */
  lemma UpdateKeepsBounded(gs: seq<Group>, id: Id, p: Option<Id>)
    requires DistinctGroups(gs) && Bounded(gs) && id in Ids(gs)
    requires p.Some? && p.value != id ==> Lookup(gs, p.value).Some?
    ensures Bounded(Map(gs, SetParent(id, p))) <==> Fits(gs, id, p)
  {
    if Fits(gs, id, p) {
      FitsKeepsBounded(gs, id, p);
    } else {
      var x := MisfitBreaks(gs, id, p);
      MapMember(gs, id, p, x);
    }
  }

  lemma MapMember(gs: seq<Group>, id: Id, p: Option<Id>, x: Group)
    requires x in gs
    ensures SetParent(id, p)(x) in Map(gs, SetParent(id, p))
  {
    var i :| 0 <= i < |gs| && gs[i] == x;
    assert Map(gs, SetParent(id, p))[i] == SetParent(id, p)(x);
  }

  lemma FitsKeepsBounded(gs: seq<Group>, id: Id, p: Option<Id>)
    requires DistinctGroups(gs) && Bounded(gs) && id in Ids(gs)
    requires p.Some? && p.value != id ==> Lookup(gs, p.value).Some?
    requires Fits(gs, id, p)
    ensures Bounded(Map(gs, SetParent(id, p)))
  {
    var gs' := Map(gs, SetParent(id, p));
    forall x' | x' in gs'
      ensures Climb(gs', x', 2) == None || Climb(gs', x', 2).value.parent == None
    {
      var i :| 0 <= i < |gs'| && gs'[i] == x';
      var x := gs[i];
      ClimbTwo(gs', x');
      ClimbTwo(gs, x);
      ParentAfter(gs, id, p, x);
      if Parent(gs', x').Some? {
        var y := if x.id == id then Lookup(gs, p.value).value else Parent(gs, x).value;
        assert y in gs && Parent(gs', x').value == SetParent(id, p)(y);
        ParentAfter(gs, id, p, y);
        FitsStep(gs, id, p, x, y);
      }
    }
  }

  /** The group two steps above `x` after the update names no parent. `y` is the new parent of `x`. */
  lemma FitsStep(gs: seq<Group>, id: Id, p: Option<Id>, x: Group, y: Group)
    requires DistinctGroups(gs) && Bounded(gs) && id in Ids(gs)
    requires p.Some? && p.value != id ==> Lookup(gs, p.value).Some?
    requires Fits(gs, id, p) && x in gs && y in gs
    requires if x.id == id then p == Some(y.id) && Lookup(gs, p.value) == Some(y) else Parent(gs, x) == Some(y)
    ensures var up := if y.id == id then (if p.Some? then Lookup(gs, p.value) else None) else Parent(gs, y);
            up == None || (if up.value.id == id then p == None else up.value.parent == None)
  {
    ClimbTwo(gs, x);
  }

  /** A parent that does not fit leaves some group with a path of three steps or more. */
  lemma MisfitBreaks(gs: seq<Group>, id: Id, p: Option<Id>) returns (x: Group)
    requires DistinctGroups(gs) && Bounded(gs) && id in Ids(gs)
    requires p.Some? && p.value != id ==> Lookup(gs, p.value).Some?
    requires !Fits(gs, id, p)
    ensures x in gs
    ensures var gs' := Map(gs, SetParent(id, p));
            var x' := SetParent(id, p)(x);
            Climb(gs', x', 2).Some? && Climb(gs', x', 2).value.parent.Some?
  {
    hide Climb;
    var g := Lookup(gs, id).value;
    var gs' := Map(gs, SetParent(id, p));
    if p.value == id {
      x := g;
      ParentAfter(gs, id, p, g);
      ClimbTwo(gs', SetParent(id, p)(g));
    } else {
      var a := Lookup(gs, p.value).value;
      if c, k :| c in gs && k in gs && c.parent == Some(id) && k.parent == Some(c.id) {
        x := k;
        NoSelfParent(gs, c);
        NoLoop(gs, c, k);
        LookupFinds(gs, c);
        ParentAfter(gs, id, p, k);
        ParentAfter(gs, id, p, c);
        ClimbTwo(gs', SetParent(id, p)(k));
      } else if a.parent == Some(id) {
        x := g;
        ParentAfter(gs, id, p, g);
        ParentAfter(gs, id, p, a);
        ClimbTwo(gs', SetParent(id, p)(g));
      } else if c :| c in gs && c.parent == Some(id) {
        x := KidBreaks(gs, id, p, c);
      } else {
        x := g;
        ParentAfter(gs, id, p, g);
        ParentAfter(gs, id, p, a);
        ClimbTwo(gs', SetParent(id, p)(g));
      }
    }
  }

  /** A bounded forest has no loop of one group. */
  lemma NoSelfParent(gs: seq<Group>, c: Group)
    requires DistinctGroups(gs) && Bounded(gs) && c in gs
    ensures c.parent != Some(c.id)
  {
    LookupFinds(gs, c);
    BoundedIsAcyclic(gs, c, 1);
    if Parent(gs, c).Some? {
      assert Climb(gs, c, 1) == Climb(gs, Parent(gs, c).value, 0);
    }
  }

  /** ... nor of two. */
  lemma NoLoop(gs: seq<Group>, c: Group, k: Group)
    requires DistinctGroups(gs) && Bounded(gs) && c in gs && k in gs && k.parent == Some(c.id)
    ensures c.parent != Some(k.id)
  {
    LookupFinds(gs, c);
    LookupFinds(gs, k);
    ClimbTwo(gs, k);
    BoundedIsAcyclic(gs, k, 2);
  }

  lemma KidBreaks(gs: seq<Group>, id: Id, p: Option<Id>, c: Group) returns (x: Group)
    requires DistinctGroups(gs) && Bounded(gs) && id in Ids(gs)
    requires p.Some? && p.value != id && Lookup(gs, p.value).Some? && Lookup(gs, p.value).value.parent.Some?
    requires c in gs && c.parent == Some(id)
    ensures x in gs
    ensures var gs' := Map(gs, SetParent(id, p));
            var x' := SetParent(id, p)(x);
            Climb(gs', x', 2).Some? && Climb(gs', x', 2).value.parent.Some?
  {
    var gs' := Map(gs, SetParent(id, p));
    var g := Lookup(gs, id).value;
    x := c;
    NoSelfParent(gs, c);
    LookupFinds(gs, c);
    ParentAfter(gs, id, p, c);
    ParentAfter(gs, id, p, g);
    ClimbTwo(gs', SetParent(id, p)(c));
  }

  /** The same groups with the same parents, whatever else differs. */
  ghost predicate SameShape(a: seq<Group>, b: seq<Group>) {
    |a| == |b| && forall i :: 0 <= i < |a| ==> a[i].id == b[i].id && a[i].parent == b[i].parent
  }

  lemma {:induction false} LookupShape(a: seq<Group>, b: seq<Group>, id: Id)
    requires SameShape(a, b)
    ensures Lookup(a, id) == None <==> Lookup(b, id) == None
    ensures Lookup(a, id).Some? && Lookup(b, id).Some? ==> Lookup(a, id).value.parent == Lookup(b, id).value.parent
  {
    if a != [] {
      assert forall i :: 0 <= i < |a[1..]| ==> a[1..][i] == a[i + 1] && b[1..][i] == b[i + 1];
      LookupShape(a[1..], b[1..], id);
    }
  }

  lemma BoundedShape(a: seq<Group>, b: seq<Group>)
    requires SameShape(a, b) && Bounded(a)
    ensures Bounded(b)
  {
    forall g | g in b
      ensures Climb(b, g, 2) == None || Climb(b, g, 2).value.parent == None
    {
      var i :| 0 <= i < |b| && b[i] == g;
      assert a[i] in a;
      ClimbTwo(a, a[i]);
      ClimbTwo(b, g);
      if g.parent.Some? {
        LookupShape(a, b, g.parent.value);
        var up := Lookup(b, g.parent.value);
        if up.Some? && up.value.parent.Some? {
          LookupShape(a, b, up.value.parent.value);
        }
      }
    }
  }

  /** An accepted update keeps the forest bounded exactly when the new parent fits; the code
      checks only that it exists. */
  lemma UpdateKeepsForest(gs: seq<Group>, id: Id, r: GroupRequest)
    requires DistinctGroups(gs) && Bounded(gs) && id in Ids(gs)
    requires r.parent.Some? && r.parent.value != id ==> Lookup(gs, r.parent.value).Some?
    ensures Bounded(Map(gs, Updated(id, r))) <==> Fits(gs, id, r.parent)
  {
    var a, b := Map(gs, Updated(id, r)), Map(gs, SetParent(id, r.parent));
    assert SameShape(a, b) && SameShape(b, a);
    UpdateKeepsBounded(gs, id, r.parent);
    if Bounded(a) {
      BoundedShape(a, b);
    }
    if Bounded(b) {
      BoundedShape(b, a);
    }
  }

  // ---- Names ----

  function NameKey(): Group -> (string, Id) { (g: Group) => (g.name, g.inventory) }

  ghost predicate DistinctNames(gs: seq<Group>) {
    DistinctBy(gs, NameKey())
  }

  /** An update keeps them unique exactly when no other group has the trimmed name in the
      new inventory. The code asks so only when the name changes, and before trimming. */
  lemma UpdateKeepsNames(gs: seq<Group>, id: Id, r: GroupRequest)
    requires DistinctGroups(gs) && DistinctNames(gs) && id in Ids(gs)
    ensures DistinctNames(Map(gs, Updated(id, r)))
            <==> !exists g :: g in gs && g.id != id && g.name == Trim(r.name) && g.inventory == r.inventory
  {
    if g :| g in gs && g.id != id && g.name == Trim(r.name) && g.inventory == r.inventory {
      NameClashes(gs, id, r, g);
    } else {
      NameIsFree(gs, id, r);
    }
  }

  lemma NameClashes(gs: seq<Group>, id: Id, r: GroupRequest, g: Group)
    requires id in Ids(gs) && g in gs && g.id != id && g.name == Trim(r.name) && g.inventory == r.inventory
    ensures !DistinctNames(Map(gs, Updated(id, r)))
  {
    hide Trim;
    var gs' := Map(gs, Updated(id, r));
    var n :| 0 <= n < |gs| && gs[n].id == id;
    var i :| 0 <= i < |gs| && gs[i] == g;
    assert gs'[i] == g && gs'[n] == Updated(id, r)(gs[n]);
    assert NameKey()(gs'[i]) == NameKey()(gs'[n]);
    assert i < n || n < i;
  }

  lemma NameIsFree(gs: seq<Group>, id: Id, r: GroupRequest)
    requires DistinctGroups(gs) && DistinctNames(gs)
    requires !exists g :: g in gs && g.id != id && g.name == Trim(r.name) && g.inventory == r.inventory
    ensures DistinctNames(Map(gs, Updated(id, r)))
  {
    hide Trim;
    var gs' := Map(gs, Updated(id, r));
    forall i, j | 0 <= i < j < |gs'|
      ensures NameKey()(gs'[i]) != NameKey()(gs'[j])
    {
      assert GroupId()(gs[i]) != GroupId()(gs[j]) && NameKey()(gs[i]) != NameKey()(gs[j]);
      assert gs[i] in gs && gs[j] in gs;
    }
  }

  // ---- Every run ----

  lemma SoundStep(d: Data, op: Op)
    requires Sound(d) && Possible(d, op)
    ensures Sound(Do(d, op)) <==> Admissible(d, op)
  {
    match op
    case CreateGroup(id, r, allowed) => SoundCreate(d, id, r, allowed);
    case DeleteGroup(id, cut) => SoundDelete(d, id, cut);
    case UpdateGroup(id, r) => SoundUpdate(d, id, r);
    case CreateHost(id, r, allowed) =>
    case UpdateHost(id, r) => SoundUpdateHost(d, id, r);
    case DeleteHost(id) =>
  }

  lemma SameIds(gs: seq<Group>, id: Id, r: GroupRequest)
    ensures Ids(Map(gs, Updated(id, r))) == Ids(gs)
    ensures DistinctGroups(gs) ==> DistinctGroups(Map(gs, Updated(id, r)))
  {
    var gs' := Map(gs, Updated(id, r));
    forall i | 0 <= i < |gs|
      ensures gs'[i].id == gs[i].id && gs[i] in gs && gs'[i] in gs'
    {
    }
    forall j
      ensures j in Ids(gs') <==> j in Ids(gs)
    {
      if j in Ids(gs') {
        var g :| g in gs' && g.id == j;
        var i :| 0 <= i < |gs| && gs'[i] == g;
      }
      if j in Ids(gs) {
        var g :| g in gs && g.id == j;
        var i :| 0 <= i < |gs| && gs[i] == g;
      }
    }
    if DistinctGroups(gs) {
      assert forall i, j :: 0 <= i < j < |gs| ==> GroupId()(gs[i]) != GroupId()(gs[j]);
    }
  }

  lemma SoundUpdate(d: Data, id: Id, r: GroupRequest)
    requires Sound(d) && id in Ids(d.groups)
    ensures Sound(Do(d, UpdateGroup(id, r))) <==> Admissible(d, UpdateGroup(id, r))
  {
    if UpdateCheck(d, Lookup(d.groups, id).value, r) == None {
      UpdateKeepsForest(d.groups, id, r);
      SameIds(d.groups, id, r);
      var gs' := Do(d, UpdateGroup(id, r)).groups;
      forall g | g in gs'
        ensures g.id in d.known && (g.parent.Some? ==> g.parent.value in d.known)
      {
        var i :| 0 <= i < |gs'| && gs'[i] == g;
        assert d.groups[i] in d.groups && g == Updated(id, r)(d.groups[i]);
      }
    }
  }

  /** The forest is sound in every state of the run. */
  ghost predicate AlwaysSound(d: Data, ops: seq<Op>)
    requires CanRun(d, ops)
    decreases |ops|
  {
    Sound(d) && (ops == [] || AlwaysSound(Do(d, ops[0]), ops[1..]))
  }

  predicate AllAdmissible(d: Data, ops: seq<Op>)
    requires CanRun(d, ops)
    decreases |ops|
  {
    ops == [] || (Admissible(d, ops[0]) && AllAdmissible(Do(d, ops[0]), ops[1..]))
  }

  /** Every run of the handlers, stopped deletes included, keeps the forest bounded and every
      host in a live group exactly as long as the updates it accepts have a parent that fits;
      then nothing is its own ancestor. */
  lemma {:induction false} RunsKeepForest(d: Data, ops: seq<Op>)
    requires Sound(d) && CanRun(d, ops)
    ensures AlwaysSound(d, ops) <==> AllAdmissible(d, ops)
    ensures AllAdmissible(d, ops) ==> Sound(RunAll(d, ops))
    ensures AllAdmissible(d, ops) ==>
              forall g, n: nat :: g in RunAll(d, ops).groups && n > 0 ==> Climb(RunAll(d, ops).groups, g, n) != Some(g)
    decreases |ops|
  {
    if ops == [] {
      forall g, n: nat | g in d.groups && n > 0
        ensures Climb(d.groups, g, n) != Some(g)
      {
        BoundedIsAcyclic(d.groups, g, n);
      }
    } else {
      hide Sound, Admissible, Do, Possible;
      SoundStep(d, ops[0]);
      if Sound(Do(d, ops[0])) {
        RunsKeepForest(Do(d, ops[0]), ops[1..]);
      } else {
        NotSoundFrom(Do(d, ops[0]), ops[1..]);
      }
    }
  }

  lemma NotSoundFrom(d: Data, ops: seq<Op>)
    requires !Sound(d) && CanRun(d, ops)
    ensures !AlwaysSound(d, ops)
  {
  }

  /** Identifiers are unique and known, which every operation keeps. */
  ghost predicate Identified(d: Data) {
    DistinctGroups(d.groups) && forall g :: g in d.groups ==> g.id in d.known
  }

  lemma IdentifiedStep(d: Data, op: Op)
    requires Identified(d) && Possible(d, op)
    ensures Identified(Do(d, op))
  {
    match op
    case DeleteGroup(id, cut) => WhereDistinct(d.groups, IdNotIn(Removed(d.groups, id, cut)), GroupId());
    case UpdateGroup(id, r) =>
      SameIds(d.groups, id, r);
      assert forall j :: j in Ids(d.groups) ==> j in d.known;
      assert forall g :: g in Do(d, op).groups ==> g.id in Ids(Do(d, op).groups);
    case _ =>
  }

  /** An accepted group update finds the name it stores free. */
  predicate NameFits(d: Data, op: Op)
    requires Possible(d, op)
  {
    op.UpdateGroup? && UpdateCheck(d, Lookup(d.groups, op.target).value, op.req) == None ==>
      !exists g :: g in d.groups && g.id != op.target && g.name == Trim(op.req.name) && g.inventory == op.req.inventory
  }

  lemma NamesStep(d: Data, op: Op)
    requires Identified(d) && DistinctNames(d.groups) && Possible(d, op)
    ensures DistinctNames(Do(d, op).groups) <==> NameFits(d, op)
  {
    match op
    case DeleteGroup(id, cut) =>
      if !cut.HostsCut? {
        WhereDistinct(d.groups, IdNotIn(Removed(d.groups, id, cut)), NameKey());
      }
    case UpdateGroup(id, r) => UpdateKeepsNames(d.groups, id, r);
    case _ =>
  }

  ghost predicate AlwaysDistinctNames(d: Data, ops: seq<Op>)
    requires CanRun(d, ops)
    decreases |ops|
  {
    DistinctNames(d.groups) && (ops == [] || AlwaysDistinctNames(Do(d, ops[0]), ops[1..]))
  }

  predicate AllNamesFit(d: Data, ops: seq<Op>)
    requires CanRun(d, ops)
    decreases |ops|
  {
    ops == [] || (NameFits(d, ops[0]) && AllNamesFit(Do(d, ops[0]), ops[1..]))
  }

  /** Every run keeps group names unique in their inventory exactly as long as the updates it
      accepts store names that are free. */
  lemma {:induction false} RunsKeepNames(d: Data, ops: seq<Op>)
    requires CanRun(d, ops) && Identified(d) && DistinctNames(d.groups)
    ensures AlwaysDistinctNames(d, ops) <==> AllNamesFit(d, ops)
    ensures AllNamesFit(d, ops) ==> DistinctNames(RunAll(d, ops).groups)
    decreases |ops|
  {
    if ops != [] {
      hide Identified, NameFits, Do, Possible, DistinctNames;
      IdentifiedStep(d, ops[0]);
      NamesStep(d, ops[0]);
      if DistinctNames(Do(d, ops[0]).groups) {
        RunsKeepNames(Do(d, ops[0]), ops[1..]);
      } else {
        NamesClashFrom(Do(d, ops[0]), ops[1..]);
      }
    }
  }

  lemma NamesClashFrom(d: Data, ops: seq<Op>)
    requires !DistinctNames(d.groups) && CanRun(d, ops)
    ensures !AlwaysDistinctNames(d, ops)
  {
  }

  // ---- The tree of a bounded, closed forest ----

  /** A parent-closed, bounded forest whose parents share their children's inventory. */
  ghost predicate WellFormed(gs: seq<Group>) {
    && DistinctGroups(gs) && Bounded(gs) && Closed(gs)
    && forall g, p :: g in gs && p in gs && g.parent == Some(p.id) ==> g.inventory == p.inventory
  }

  lemma {:induction false} ReachesOwn(gs: seq<Group>, inv: Id, g: Group, hops: nat)
    requires WellFormed(gs) && g in gs && Reaches(gs, inv, g, hops)
    ensures g.inventory == inv
    decreases hops
  {
    if g.parent.Some? {
      var p :| p in gs && p.id == g.parent.value && Reaches(gs, inv, p, hops - 1);
      ReachesOwn(gs, inv, p, hops - 1);
    }
  }

  lemma OwnReaches(gs: seq<Group>, g: Group)
    requires WellFormed(gs) && g in gs
    ensures Reaches(gs, g.inventory, g, 2)
  {
    ClimbTwo(gs, g);
    if g.parent.Some? {
      var p := Parent(gs, g).value;
      if p.parent.Some? {
        var q := Parent(gs, p).value;
        assert Reaches(gs, g.inventory, q, 0);
        assert Reaches(gs, g.inventory, p, 1);
      } else {
        assert Reaches(gs, g.inventory, p, 1);
      }
    }
  }

  /** For a well-formed forest the tree of an inventory holds exactly its groups, each once. */
  lemma TreeConserves(gs: seq<Group>, inv: Id)
    requires WellFormed(gs)
    ensures multiset(Flatten(TreeOf(gs, inv))) == multiset(Where(gs, InInventory(inv)))
  {
    forall g: Group
      ensures multiset(Flatten(TreeOf(gs, inv)))[g] == multiset(Where(gs, InInventory(inv)))[g]
    {
      TreeCount(gs, inv, g);
      WhereCount(gs, InInventory(inv), g);
      DistinctCount(gs, GroupId(), g);
      if g in gs {
        if Reaches(gs, inv, g, 2) {
          ReachesOwn(gs, inv, g, 2);
        }
        OwnReaches(gs, g);
      }
    }
  }

  lemma {:induction false} BranchesPlaced(gs: seq<Group>, list: seq<Group>, depth: nat, parent: Option<Id>)
    requires forall g :: g in list ==> g.parent == parent
    ensures WellPlaced(Branches(gs, list, depth), parent)
    decreases depth, |list|
  {
    if list != [] {
      var ns := Branches(gs, list, depth);
      assert ns[0] == Branch(gs, list[0], depth);
      assert ns[1..] == Branches(gs, list[1..], depth);
      BranchesPlaced(gs, list[1..], depth, parent);
      if depth > 0 {
        BranchesPlaced(gs, Kids(gs, list[0].id), depth - 1, Some(list[0].id));
      }
    }
  }

  /** In every tree each group stands under its own parent, and the top level is exactly the
      list of root groups. */
  lemma TreePlaced(gs: seq<Group>, inv: Id)
    ensures WellPlaced(TreeOf(gs, inv), None)
    ensures |TreeOf(gs, inv)| == |RootGroups(gs, inv)|
    ensures forall i :: 0 <= i < |TreeOf(gs, inv)| ==> TreeOf(gs, inv)[i].group == RootGroups(gs, inv)[i]
  {
    BranchesPlaced(gs, RootGroups(gs, inv), 2, None);
    BranchesTop(gs, RootGroups(gs, inv), 2);
  }
}
