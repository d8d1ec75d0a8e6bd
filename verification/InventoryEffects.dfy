/** What each group and host handler does to the stored documents: when it accepts a request,
    which document it adds, replaces or removes, and that it leaves every other one alone. */
module InventoryEffects {
  import opened Common
  import opened Collections
  import opened InventoryModel
  import opened InventoryStore

  // ---- Creation ----

  /** A group may stand at the top, under a root group, or under a child of a root group. */
  ghost predicate MayStandUnder(gs: seq<Group>, parent: Option<Id>) {
    parent.Some? ==>
      exists p :: p in gs && p.id == parent.value
                  && (p.parent.Some? ==> exists q :: q in gs && q.id == p.parent.value && q.parent == None)
  }

  lemma NestingIs(gs: seq<Group>, parent: Option<Id>)
    requires DistinctGroups(gs)
    ensures NestingCheck(gs, parent) == None <==> MayStandUnder(gs, parent)
  {
    forall g | g in gs
      ensures Lookup(gs, g.id) == Some(g)
    {
      LookupFinds(gs, g);
    }
  }

  /** The nesting check refuses no more than it must: a new group under an existing parent
      with an existing parent of its own is refused only if it would be too deep. */
  lemma NestingIsExact(gs: seq<Group>, n: Group)
    requires DistinctGroups(gs) && Bounded(gs) && Closed(gs)
    requires n.id !in Ids(gs) && (forall g :: g in gs ==> g.parent != Some(n.id)) && n.parent != Some(n.id)
    ensures NestingCheck(gs, n.parent) == None <==> Bounded(gs + [n]) && Closed(gs + [n])
  {
    var gs' := gs + [n];
    assert Ids(gs') == Ids(gs) + {n.id};
    if NestingCheck(gs, n.parent) == None {
      CreateKeepsBounded(gs, n);
      assert forall g :: g in gs && g.parent.Some? ==> g.parent.value in Ids(gs);
    } else if Closed(gs') {
      assert n in gs';
      var p := Lookup(gs, n.parent.value).value;
      var q := Lookup(gs, p.parent.value).value;
      LookupAppend(gs, n, n.parent.value);
      LookupAppend(gs, n, p.parent.value);
      ClimbTwo(gs', n);
      assert Climb(gs', n, 2) == Some(q) && q.parent.Some?;
    }
  }

  lemma CreateGroupIs(d: Data, id: Id, r: GroupRequest, allowed: bool)
    requires DistinctGroups(d.groups) && id !in d.known
    ensures var d' := Do(d, CreateGroup(id, r, allowed));
            var accepted := && r.inventory in d.inventories && allowed
                            && (forall g :: g in d.groups && g.inventory == r.inventory ==> g.name != r.name)
                            && MayStandUnder(d.groups, r.parent);
            && (CreateCheck(d, r, allowed) == None <==> accepted)
            && d'.groups == d.groups + (if accepted then [Group(id, r.name, r.variables, r.inventory, r.parent)] else [])
            && d'.known == d.known + (if accepted then {id} else {})
            && d'.hosts == d.hosts && d'.inventories == d.inventories
  {
    NestingIs(d.groups, r.parent);
    assert d.groups + [] == d.groups;
  }

  lemma CreateHostIs(d: Data, id: Id, r: HostRequest, allowed: bool)
    requires id !in d.known
    ensures var d' := Do(d, CreateHost(id, r, allowed));
            var accepted := && r.inventory in d.inventories && allowed
                            && (forall h :: h in d.hosts && h.inventory == r.inventory ==> h.name != r.name)
                            && (r.group.Some? ==> exists g :: g in d.groups && g.id == r.group.value);
            && (CreateHostCheck(d, r, allowed) == None <==> accepted)
            && d'.hosts == d.hosts + (if accepted then [Host(id, r.name, r.variables, r.inventory, r.group)] else [])
            && d'.known == d.known + (if accepted then {id} else {})
            && d'.groups == d.groups && d'.inventories == d.inventories
  {
    assert d.hosts + [] == d.hosts;
  }

  /** What a refusal of a new group says: the first thing that is wrong, in this order. */
  lemma GroupRefusalIs(d: Data, r: GroupRequest, allowed: bool)
    requires DistinctGroups(d.groups)
    ensures var refusal := CreateCheck(d, r, allowed);
            var known, free := r.inventory in d.inventories, !exists g :: g in d.groups && g.name == r.name && g.inventory == r.inventory;
            var parents := r.parent.Some? && exists p :: p in d.groups && p.id == r.parent.value;
            && (refusal == Some(NoInventory) <==> !known)
            && (refusal == Some(Forbidden) <==> known && !allowed)
            && (refusal == Some(NotUnique) <==> known && allowed && !free)
            && (refusal == Some(NoParent) <==> known && allowed && free && r.parent.Some? && !parents)
            && (refusal == Some(NoHierarchy) <==>
                  known && allowed && free
                  && exists p :: p in d.groups && r.parent == Some(p.id) && p.parent.Some? && p.parent.value !in Ids(d.groups))
            && (refusal == Some(TooDeep) <==>
                  known && allowed && free
                  && exists p, q :: p in d.groups && q in d.groups && r.parent == Some(p.id) && p.parent == Some(q.id) && q.parent.Some?)
  {
    forall g | g in d.groups
      ensures Lookup(d.groups, g.id) == Some(g)
    {
      LookupFinds(d.groups, g);
    }
  }

  lemma HostRefusalIs(d: Data, r: HostRequest, allowed: bool)
    ensures var refusal := CreateHostCheck(d, r, allowed);
            var known, free := r.inventory in d.inventories, !exists h :: h in d.hosts && h.name == r.name && h.inventory == r.inventory;
            && (refusal == Some(NoInventory) <==> !known)
            && (refusal == Some(Forbidden) <==> known && !allowed)
            && (refusal == Some(NotUnique) <==> known && allowed && !free)
            && (refusal == Some(NoGroup) <==> known && allowed && free && r.group.Some? && r.group.value !in Ids(d.groups))
  {
  }

  // ---- Updates ----

  /** The group `g` is replaced where it stands; every other group stays. */
  lemma UpdateGroupIs(d: Data, g: Group, r: GroupRequest)
    requires DistinctGroups(d.groups) && g in d.groups
    ensures var d' := Do(d, UpdateGroup(g.id, r));
            var accepted := && r.inventory in d.inventories
                            && (r.name == g.name || forall o :: o in d.groups && o.inventory == r.inventory ==> o.name != r.name)
                            && (r.parent.Some? && r.parent.value != g.id ==> exists p :: p in d.groups && p.id == r.parent.value);
            && (UpdateCheck(d, g, r) == None <==> accepted)
            && (!accepted ==> d' == d)
            && d'.hosts == d.hosts && d'.inventories == d.inventories && d'.known == d.known
            && |d'.groups| == |d.groups|
            && forall i :: 0 <= i < |d.groups| ==>
                 var was, now := d.groups[i], d'.groups[i];
                 if was == g && accepted
                 then && Trimmed(r.name, now.name) && now.id == g.id && now.variables == r.variables
                      && now.inventory == r.inventory && now.parent == r.parent
                 else now == was
  {
    TrimIs(r.name);
    LookupFinds(d.groups, g);
    forall i | 0 <= i < |d.groups|
      ensures d.groups[i].id == g.id ==> d.groups[i] == g
    {
      if d.groups[i].id == g.id {
        SameKey(d.groups, GroupId(), d.groups[i], g);
      }
    }
  }

  function HostId(): Host -> Id { (h: Host) => h.id }

  lemma HostOfFinds(hs: seq<Host>, h: Host)
    requires DistinctBy(hs, HostId()) && h in hs
    ensures HostOf(hs, h.id) == h
  {
    SameKey(hs, HostId(), HostOf(hs, h.id), h);
  }

  lemma UpdateHostIs(d: Data, h: Host, r: HostRequest)
    requires DistinctBy(d.hosts, HostId()) && h in d.hosts
    ensures var d' := Do(d, UpdateHost(h.id, r));
            var accepted := && r.inventory in d.inventories
                            && (r.name == h.name || forall o :: o in d.hosts && o.inventory == r.inventory ==> o.name != r.name)
                            && (r.group.Some? ==> exists g :: g in d.groups && g.id == r.group.value);
            && (UpdateHostCheck(d, h, r) == None <==> accepted)
            && (!accepted ==> d' == d)
            && d'.groups == d.groups && d'.inventories == d.inventories && d'.known == d.known
            && |d'.hosts| == |d.hosts|
            && forall i :: 0 <= i < |d.hosts| ==>
                 var was, now := d.hosts[i], d'.hosts[i];
                 if was == h && accepted
                 then && Trimmed(r.name, now.name) && now.id == h.id && now.variables == r.variables
                      && now.inventory == r.inventory && now.group == r.group
                 else now == was
  {
    TrimIs(r.name);
    HostOfFinds(d.hosts, h);
    forall i | 0 <= i < |d.hosts|
      ensures d.hosts[i].id == h.id ==> d.hosts[i] == h
    {
      if d.hosts[i].id == h.id {
        SameKey(d.hosts, HostId(), d.hosts[i], h);
      }
    }
  }

  // ---- Deletions ----

  /** Exactly the documents of that id go; every other host stays as often as it was there. */
  lemma DeleteHostIs(d: Data, id: Id)
    requires exists h :: h in d.hosts && h.id == id
    ensures var d' := Do(d, DeleteHost(id));
            && (forall h: Host :: multiset(d'.hosts)[h] == if h.id == id then 0 else multiset(d.hosts)[h])
            && (forall h: Host :: h in d'.hosts <==> h in d.hosts && h.id != id)
            && d'.groups == d.groups && d'.inventories == d.inventories && d'.known == d.known
  {
    forall h: Host
      ensures multiset(Do(d, DeleteHost(id)).hosts)[h] == if h.id == id then 0 else multiset(d.hosts)[h]
    {
      WhereCount(d.hosts, NotHost(id), h);
    }
  }

  /** The group or one of its children. */
  predicate InFamily(d: Data, id: Id, group: Option<Id>) {
    group.Some? && (group.value == id || exists c :: c in d.groups && c.id == group.value && c.parent == Some(id))
  }

  /** What a delete leaves, wherever it stops. */
  lemma DeleteGroupIs(d: Data, id: Id, cut: Cut)
    requires DistinctGroups(d.groups) && id in Ids(d.groups)
    ensures var d' := Do(d, DeleteGroup(id, cut));
            && (forall g: Group :: multiset(d'.groups)[g]
                  == if InFamily(d, id, Some(g.id)) && (cut.Whole? || (cut.GroupsCut? && g.id in cut.removed))
                     then 0 else multiset(d.groups)[g])
            && (forall h: Host :: multiset(d'.hosts)[h]
                  == if InFamily(d, id, h.group) && (!cut.HostsCut? || h.id in cut.gone)
                     then 0 else multiset(d.hosts)[h])
            && d'.inventories == d.inventories && d'.known == d.known
  {
    var d' := Do(d, DeleteGroup(id, cut));
    var ids := Doomed(d.groups, id);
    forall j: Id
      ensures j in ids <==> InFamily(d, id, Some(j))
    {
    }
    forall g: Group
      ensures multiset(d'.groups)[g]
              == if InFamily(d, id, Some(g.id)) && (cut.Whole? || (cut.GroupsCut? && g.id in cut.removed))
                 then 0 else multiset(d.groups)[g]
    {
      WhereCount(d.groups, IdNotIn(Removed(d.groups, id, cut)), g);
    }
    forall h: Host
      ensures multiset(d'.hosts)[h]
              == if InFamily(d, id, h.group) && (!cut.HostsCut? || h.id in cut.gone) then 0 else multiset(d.hosts)[h]
    {
      if cut.HostsCut? {
        WhereCount(d.hosts, HostSpared(ids, cut.gone), h);
      } else {
        WhereCount(d.hosts, GroupNotIn(ids), h);
      }
    }
  }

  // ---- Names of hosts ----

  function HostNameKey(): Host -> (string, Id) { (h: Host) => (h.name, h.inventory) }

  ghost predicate HostsInOrder(d: Data) {
    DistinctBy(d.hosts, HostId()) && forall h :: h in d.hosts ==> h.id in d.known
  }

  ghost predicate HostNamesDiffer(d: Data) {
    DistinctBy(d.hosts, HostNameKey())
  }

  /** An accepted host update finds the name it stores free. */
  predicate HostNameFits(d: Data, op: Op)
    requires Possible(d, op)
  {
    op.UpdateHost? && UpdateHostCheck(d, HostOf(d.hosts, op.target), op.host) == None ==>
      !exists h :: h in d.hosts && h.id != op.target && h.name == Trim(op.host.name) && h.inventory == op.host.inventory
  }

  lemma SameHostIds(hs: seq<Host>, id: Id, r: HostRequest)
    ensures DistinctBy(hs, HostId()) ==> DistinctBy(Map(hs, Replace(id, r)), HostId())
    ensures forall h' :: h' in Map(hs, Replace(id, r)) ==> exists h :: h in hs && h.id == h'.id
  {
    var hs' := Map(hs, Replace(id, r));
    assert forall i :: 0 <= i < |hs| ==> hs'[i].id == hs[i].id && hs[i] in hs;
    if DistinctBy(hs, HostId()) {
      assert forall i, j :: 0 <= i < j < |hs| ==> HostId()(hs[i]) != HostId()(hs[j]);
    }
  }

  lemma HostsInOrderStep(d: Data, op: Op)
    requires HostsInOrder(d) && Possible(d, op)
    ensures HostsInOrder(Do(d, op))
  {
    match op
    case DeleteGroup(id, cut) => WhereDistinct(d.hosts, HostsKept(d, id, cut), HostId());
    case DeleteHost(id) => WhereDistinct(d.hosts, NotHost(id), HostId());
    case UpdateHost(id, r) => SameHostIds(d.hosts, id, r);
    case _ =>
  }

  /** The query whose answer a delete of a group leaves. */
  function HostsKept(d: Data, id: Id, cut: Cut): Host -> bool {
    if cut.HostsCut? then HostSpared(Doomed(d.groups, id), cut.gone) else GroupNotIn(Doomed(d.groups, id))
  }

  lemma HostNamesStep(d: Data, op: Op)
    requires HostsInOrder(d) && HostNamesDiffer(d) && Possible(d, op)
    ensures HostNamesDiffer(Do(d, op)) <==> HostNameFits(d, op)
  {
    match op
    case DeleteGroup(id, cut) => WhereDistinct(d.hosts, HostsKept(d, id, cut), HostNameKey());
    case DeleteHost(id) => WhereDistinct(d.hosts, NotHost(id), HostNameKey());
    case UpdateHost(id, r) =>
      if UpdateHostCheck(d, HostOf(d.hosts, id), r) == None {
        if h :| h in d.hosts && h.id != id && h.name == Trim(r.name) && h.inventory == r.inventory {
          HostNameClashes(d, id, r, h);
        } else {
          HostNameIsFree(d, id, r);
        }
      }
    case _ =>
  }

  lemma HostNameClashes(d: Data, id: Id, r: HostRequest, h: Host)
    requires (exists o :: o in d.hosts && o.id == id)
    requires h in d.hosts && h.id != id && h.name == Trim(r.name) && h.inventory == r.inventory
    ensures !DistinctBy(Map(d.hosts, Replace(id, r)), HostNameKey())
  {
    hide Trim;
    var hs' := Map(d.hosts, Replace(id, r));
    var o :| o in d.hosts && o.id == id;
    var n :| 0 <= n < |d.hosts| && d.hosts[n] == o;
    var i :| 0 <= i < |d.hosts| && d.hosts[i] == h;
    assert hs'[i] == h && hs'[n] == Replace(id, r)(o);
    assert HostNameKey()(hs'[i]) == HostNameKey()(hs'[n]);
    assert i < n || n < i;
  }

  lemma HostNameIsFree(d: Data, id: Id, r: HostRequest)
    requires HostsInOrder(d) && HostNamesDiffer(d)
    requires !exists h :: h in d.hosts && h.id != id && h.name == Trim(r.name) && h.inventory == r.inventory
    ensures DistinctBy(Map(d.hosts, Replace(id, r)), HostNameKey())
  {
    hide Trim;
    var hs, hs' := d.hosts, Map(d.hosts, Replace(id, r));
    forall i, j | 0 <= i < j < |hs'|
      ensures HostNameKey()(hs'[i]) != HostNameKey()(hs'[j])
    {
      assert HostId()(hs[i]) != HostId()(hs[j]) && HostNameKey()(hs[i]) != HostNameKey()(hs[j]);
      assert hs[i] in hs && hs[j] in hs;
    }
  }

  ghost predicate AlwaysHostNamesDiffer(d: Data, ops: seq<Op>)
    requires CanRun(d, ops)
    decreases |ops|
  {
    HostNamesDiffer(d) && (ops == [] || AlwaysHostNamesDiffer(Do(d, ops[0]), ops[1..]))
  }

  predicate AllHostNamesFit(d: Data, ops: seq<Op>)
    requires CanRun(d, ops)
    decreases |ops|
  {
    ops == [] || (HostNameFits(d, ops[0]) && AllHostNamesFit(Do(d, ops[0]), ops[1..]))
  }

  /** Every run keeps host names unique in their inventory exactly as long as the host updates
      it accepts store names that are free. */
  lemma {:induction false} RunsKeepHostNames(d: Data, ops: seq<Op>)
    requires CanRun(d, ops) && HostsInOrder(d) && HostNamesDiffer(d)
    ensures AlwaysHostNamesDiffer(d, ops) <==> AllHostNamesFit(d, ops)
    decreases |ops|
  {
    if ops != [] {
      hide HostsInOrder, HostNameFits, Do, Possible, HostNamesDiffer;
      HostsInOrderStep(d, ops[0]);
      HostNamesStep(d, ops[0]);
      if HostNamesDiffer(Do(d, ops[0])) {
        RunsKeepHostNames(Do(d, ops[0]), ops[1..]);
      } else {
        HostNamesClashFrom(Do(d, ops[0]), ops[1..]);
      }
    }
  }

  lemma HostNamesClashFrom(d: Data, ops: seq<Op>)
    requires !HostNamesDiffer(d) && CanRun(d, ops)
    ensures !AlwaysHostNamesDiffer(d, ops)
  {
  }
}
