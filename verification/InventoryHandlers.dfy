/** The group, host and tree handlers in the form the program has them: methods that
    change the collections, and nested loops over query results. */
module InventoryHandlers {
  import opened Common
  import opened Collections
  import opened InventoryModel
  import opened InventoryStore

  function Top(): Group -> bool { (g: Group) => g.parent == None }

  /** The inventories, groups and hosts collections. */
  class Database {
    var inventories: set<Id>
    var groups: seq<Group>
    var hosts: seq<Host>
    var known: set<Id>

    function View(): Data
      reads this
    {
      Data(inventories, groups, hosts, known)
    }

    constructor (d: Data)
      ensures View() == d
    {
      inventories, groups, hosts, known := d.inventories, d.groups, d.hosts, d.known;
    }

    /** `GroupController.Create`. `id` is the new identifier, `allowed` the permission answer. */
    method CreateGroup(id: Id, req: GroupRequest, allowed: bool) returns (refusal: Option<Refusal>)
      requires id !in known
      modifies this
      ensures View() == Do(old(View()), InventoryStore.CreateGroup(id, req, allowed))
      ensures refusal == CreateCheck(old(View()), req, allowed)
    {
      if req.inventory !in inventories {
        return Some(NoInventory);
      }
      if !allowed {
        return Some(Forbidden);
      }
      if NameTaken(groups, req.name, req.inventory) {
        return Some(NotUnique);
      }
      if req.parent.Some? {
        var parent1 := Lookup(groups, req.parent.value);
        if parent1 == None {
          return Some(NoParent);
        }
        if parent1.value.parent.Some? {
          var parent2 := Lookup(groups, parent1.value.parent.value);
          if parent2 == None {
            return Some(NoHierarchy);
          }
          if parent2.value.parent.Some? {
            return Some(TooDeep);
          }
        }
      }
      groups := groups + [NewGroup(id, req)];
      known := known + {id};
      return None;
    }

    /** `GroupController.Update`, which does not look at the nesting. */
    method UpdateGroup(id: Id, req: GroupRequest) returns (refusal: Option<Refusal>)
      requires DistinctGroups(groups) && id in Ids(groups)
      modifies this`groups
      ensures refusal == UpdateCheck(old(View()), Lookup(old(groups), id).value, req)
      ensures View() == Do(old(View()), InventoryStore.UpdateGroup(id, req))
    {
      var group := Lookup(groups, id).value;
      if req.inventory !in inventories {
        return Some(NoInventory);
      }
      if req.name != group.name && NameTaken(groups, req.name, req.inventory) {
        return Some(NotUnique);
      }
      if req.parent.Some? && req.parent.value != group.id && Lookup(groups, req.parent.value) == None {
        return Some(NoParent);
      }
      groups := Map(groups, Updated(id, req));
      return None;
    }

    /** `GroupController.Delete`: collect the identifiers, remove hosts, remove groups. */
    method DeleteGroup(id: Id, cut: Cut)
      requires id in Ids(groups)
      modifies this`groups, this`hosts
      ensures View() == Do(old(View()), InventoryStore.DeleteGroup(id, cut))
    {
      var found := Where(groups, SelfOrChild(id));
      var groupIds: set<Id> := {};
      var i := 0;
      while i < |found|
        invariant 0 <= i <= |found|
        invariant groupIds == Ids(found[..i])
      {
        groupIds := groupIds + {found[i].id};
        assert found[..i + 1] == found[..i] + [found[i]];
        i := i + 1;
      }
      groupIds := groupIds + {id};
      assert found[..|found|] == found;
      assert groupIds == Doomed(groups, id);
      if cut.HostsCut? {
        hosts := Where(hosts, HostSpared(groupIds, cut.gone));
        return;
      }
      hosts := Where(hosts, GroupNotIn(groupIds));
      if cut.GroupsCut? {
        groups := Where(groups, IdNotIn(groupIds * cut.removed));
        return;
      }
      groups := Where(groups, IdNotIn(groupIds));
    }

    method CreateHost(id: Id, req: HostRequest, allowed: bool) returns (refusal: Option<Refusal>)
      requires id !in known
      modifies this
      ensures View() == Do(old(View()), InventoryStore.CreateHost(id, req, allowed))
      ensures refusal == CreateHostCheck(old(View()), req, allowed)
    {
      if req.inventory !in inventories {
        return Some(NoInventory);
      }
      if !allowed {
        return Some(Forbidden);
      }
      if HostNameTaken(hosts, req.name, req.inventory) {
        return Some(NotUnique);
      }
      if req.group.Some? && Lookup(groups, req.group.value) == None {
        return Some(NoGroup);
      }
      hosts := hosts + [Host(id, req.name, req.variables, req.inventory, req.group)];
      known := known + {id};
      return None;
    }

    method UpdateHost(id: Id, req: HostRequest) returns (refusal: Option<Refusal>)
      requires exists h :: h in hosts && h.id == id
      modifies this`hosts
      ensures View() == Do(old(View()), InventoryStore.UpdateHost(id, req))
      ensures refusal == UpdateHostCheck(old(View()), HostOf(old(hosts), id), req)
    {
      var host := HostOf(hosts, id);
      if req.inventory !in inventories {
        return Some(NoInventory);
      }
      if req.name != host.name && HostNameTaken(hosts, req.name, req.inventory) {
        return Some(NotUnique);
      }
      if req.group.Some? && Lookup(groups, req.group.value) == None {
        return Some(NoGroup);
      }
      hosts := Map(hosts, Replace(id, req));
      return None;
    }

    method DeleteHost(id: Id)
      requires exists h :: h in hosts && h.id == id
      modifies this`hosts
      ensures View() == Do(old(View()), InventoryStore.DeleteHost(id))
    {
      hosts := Where(hosts, NotHost(id));
    }

    /** `InventoryController.Tree`: three nested loops over query results. */
    method Tree(inv: Id) returns (tree: seq<Node>)
      ensures tree == TreeOf(groups, inv)
    {
      var one := Where(groups, InInventory(inv));
      tree := [];
      var i := 0;
      while i < |one|
        invariant 0 <= i <= |one|
        invariant tree == Branches(groups, Where(one[..i], Top()), 2)
      {
        var gOne := one[i];
        var children := Children(gOne);
        TreeLast(groups, one, i);
        if gOne.parent == None {
          tree := tree + [Node(gOne, children)];
        }
        i := i + 1;
      }
      assert one[..|one|] == one;
      WhereWhere(groups, InInventory(inv), Top(), IsRootOf(inv));
    }

    /** The two inner loops of `Tree`: the groups under `gOne`, each with those under it. */
    method Children(gOne: Group) returns (children: seq<Node>)
      ensures children == Branches(groups, Kids(groups, gOne.id), 1)
    {
      children := [];
      var two := Where(groups, HasParent(gOne.id));
      var j := 0;
      while j < |two|
        invariant 0 <= j <= |two|
        invariant children == Branches(groups, two[..j], 1)
      {
        var gTwo := two[j];
        assert gTwo in two;
        var three := Where(groups, HasParent(gTwo.id));
        var grandchildren: seq<Node> := [];
        var k := 0;
        while k < |three|
          invariant 0 <= k <= |three|
          invariant grandchildren == Branches(groups, three[..k], 0)
        {
          var gThree := three[k];
          assert gThree in three;
          if gThree.parent == Some(gTwo.id) {
            grandchildren := grandchildren + [Node(gThree, [])];
          }
          BranchesLast(groups, three, k, 0);
          k := k + 1;
        }
        assert three[..|three|] == three;
        if gTwo.parent == Some(gOne.id) {
          children := children + [Node(gTwo, grandchildren)];
        }
        BranchesLast(groups, two, j, 1);
        j := j + 1;
      }
      assert two[..|two|] == two;
    }
  }

  lemma TreeLast(gs: seq<Group>, one: seq<Group>, i: nat)
    requires i < |one|
    ensures Branches(gs, Where(one[..i + 1], Top()), 2)
            == Branches(gs, Where(one[..i], Top()), 2)
               + if one[i].parent == None then [Node(one[i], Branches(gs, Kids(gs, one[i].id), 1))] else []
  {
    WhereLast(one, i, Top());
    var tops := Where(one[..i], Top());
    assert Top()(one[i]) <==> one[i].parent == None;
    if one[i].parent == None {
      var more := tops + [one[i]];
      BranchesLast(gs, more, |tops|, 2);
      assert more[..|tops|] == tops && more[..|tops| + 1] == more;
      assert Where(one[..i + 1], Top()) == more;
    } else {
      assert Where(one[..i + 1], Top()) == tops;
    }
  }

  function SelfOrChild(id: Id): Group -> bool { (g: Group) => g.parent == Some(id) || g.id == id }

  /** Nothing stops an update from making a group its own parent: the request to do so, with
      everything else as it is, is accepted for every group, and afterwards following
      `GetParent` from that group comes back to it at every step. */
  lemma UpdateCanLoop(d: Data, g: Group)
    requires Sound(d) && g in d.groups && g.inventory in d.inventories
    ensures var req := GroupRequest(g.name, g.variables, g.inventory, Some(g.id));
            var gs', g' := Map(d.groups, Updated(g.id, req)), Updated(g.id, req)(g);
            && UpdateCheck(d, g, req) == None
            && g' in gs' && g'.parent == Some(g.id) && (forall n: nat :: Climb(gs', g', n) == Some(g'))
            && !Bounded(gs')
  {
    hide Sound, Bounded, Climb, Fits, Trim;
    var req := GroupRequest(g.name, g.variables, g.inventory, Some(g.id));
    var gs', g' := Map(d.groups, Updated(g.id, req)), Updated(g.id, req)(g);
    SoundMeans(d, g);
    UpdatedMember(d.groups, g, req);
    UpdateKeepsForest(d.groups, g.id, req);
    FitsNotItself(d.groups, g.id);
    forall n: nat
      ensures Climb(gs', g', n) == Some(g')
    {
      ClimbsForever(gs', g', n);
    }
  }

  lemma SoundMeans(d: Data, g: Group)
    requires Sound(d) && g in d.groups
    ensures DistinctGroups(d.groups) && Bounded(d.groups)
  {
  }

  lemma FitsNotItself(gs: seq<Group>, id: Id)
    ensures !Fits(gs, id, Some(id))
  {
  }

  lemma UpdatedMember(gs: seq<Group>, g: Group, req: GroupRequest)
    requires DistinctGroups(gs) && g in gs && req.parent == Some(g.id)
    ensures var gs', g' := Map(gs, Updated(g.id, req)), Updated(g.id, req)(g);
            g' in gs' && Parent(gs', g') == Some(g')
  {
    var gs', g' := Map(gs, Updated(g.id, req)), Updated(g.id, req)(g);
    var i :| 0 <= i < |gs| && gs[i] == g;
    assert gs'[i] == g';
    SameIds(gs, g.id, req);
    LookupFinds(gs', g');
  }

  lemma {:induction false} ClimbsForever(gs: seq<Group>, g: Group, n: nat)
    requires Parent(gs, g) == Some(g)
    ensures Climb(gs, g, n) == Some(g)
  {
    if n > 0 {
      ClimbsForever(gs, g, n - 1);
    }
  }

  /** Nor from giving a group the name of another: an accepted request that moves a group to
      an inventory where its name is taken. */
  lemma UpdateCanClash()
    ensures exists d: Data, g: Group, req: GroupRequest ::
              && Sound(d) && DistinctNames(d.groups) && g in d.groups && UpdateCheck(d, g, req) == None
              && !DistinctNames(Map(d.groups, Updated(g.id, req)))
  {
    var g, h := Group(2, "web", Empty, 0, None), Group(3, "web", Empty, 1, None);
    var req := GroupRequest("web", Empty, 1, None);
    var d := Data({0, 1}, [g, h], [], {0, 1, 2, 3});
    ClimbTwo(d.groups, g);
    ClimbTwo(d.groups, h);
    assert g in d.groups && h in d.groups;
    assert Sound(d) && DistinctNames(d.groups);
    assert Trim("web") == "web";
    UpdateKeepsNames(d.groups, 2, req);
  }
}
