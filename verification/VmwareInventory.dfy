/** The groups that the VMware script builds: `_add_host` and `_add_child`. */
module VmwareInventory {
  import opened Common
  import opened Collections
  import opened CloudInventory

  datatype Addition = HostTo(parent: string, name: string) | ChildTo(parent: string, name: string)

  const ALL := "all"

  /** `setdefault(child, [])`. */
  function Ensured(inv: Inventory, key: string): Inventory {
    if key in inv then inv else inv[key := Hosts([])]
  }

  function WithHost(e: Entry, name: string): Entry {
    match e
    case Hosts(list) => Hosts(Adding(list, name))
    case Group(hosts, children, hostvars) => Group(Some(Adding(Or(hosts, []), name)), children, hostvars)
  }

  function Extend(inv: Inventory, a: Addition): Inventory {
    match a
    case HostTo(parent, name) => inv[parent := WithHost(Or(At(inv, parent), Hosts([])), name)]
    case ChildTo(parent, name) =>
      Ensured(if parent == ALL then inv else CloudInventory.Apply(inv, PushGroup(parent, name)), name)
  }

  function ExtendAll(inv: Inventory, additions: seq<Addition>): Inventory {
    if additions == [] then inv else Extend(ExtendAll(inv, additions[..|additions|-1]), additions[|additions|-1])
  }

  function HostsOf(key: string): Addition -> bool { (a: Addition) => a.HostTo? && a.parent == key }

  function ChildrenOf(key: string): Addition -> bool { (a: Addition) => a.ChildTo? && a.parent == key && key != "all" }

  function Name(): Addition -> string { (a: Addition) => a.name }

  function Added(additions: seq<Addition>, p: Addition -> bool): seq<string> {
    Firsts(Map(Where(additions, p), Name()))
  }

  lemma AddedLast(additions: seq<Addition>, p: Addition -> bool)
    requires additions != []
    ensures var front, last := additions[..|additions|-1], additions[|additions|-1];
            Added(additions, p) == if p(last) then Adding(Added(front, p), last.name) else Added(front, p)
  {
    var n := |additions| - 1;
    assert additions[..n + 1] == additions;
    WhereLast(additions, n, p);
    var all := Where(additions[..n], p);
    if p(additions[n]) {
      MapConcat(all, [additions[n]], Name());
      assert Map([additions[n]], Name()) == [additions[n].name];
      FirstsLast(Map(all, Name()), additions[n].name);
    } else {
      assert all + [] == all;
    }
  }

  lemma OneAddition(inv: Inventory, a: Addition, key: string)
    ensures HostsAt(Extend(inv, a), key) == if HostsOf(key)(a) then Adding(HostsAt(inv, key), a.name) else HostsAt(inv, key)
    ensures ChildrenAt(Extend(inv, a), key)
            == if ChildrenOf(key)(a) then Adding(ChildrenAt(inv, key), a.name) else ChildrenAt(inv, key)
  {
  }

  /** The hosts of a group are the names added to it, each once, in the order of their first
      addition; so are its children; and "all" never gets a child. */
  lemma {:induction false} GroupIsWhatWasAdded(inv: Inventory, additions: seq<Addition>, key: string)
    requires HostsAt(inv, key) == [] && ChildrenAt(inv, key) == []
    ensures HostsAt(ExtendAll(inv, additions), key) == Added(additions, HostsOf(key))
    ensures ChildrenAt(ExtendAll(inv, additions), key) == Added(additions, ChildrenOf(key))
    decreases |additions|
  {
    if additions != [] {
      hide HostsAt, ChildrenAt, Extend, Added;
      GroupIsWhatWasAdded(inv, additions[..|additions|-1], key);
      AddedLast(additions, HostsOf(key));
      AddedLast(additions, ChildrenOf(key));
      OneAddition(ExtendAll(inv, additions[..|additions|-1]), additions[|additions|-1], key);
    }
  }

  /** Every child that a group lists is itself a group of the inventory, after any run. */
  lemma {:induction false} ChildrenExist(inv: Inventory, additions: seq<Addition>)
    requires NoDangling(inv)
    ensures NoDangling(ExtendAll(inv, additions))
    decreases |additions|
  {
    if additions != [] {
      var front, a := additions[..|additions|-1], additions[|additions|-1];
      ChildrenExist(inv, front);
      var before := ExtendAll(inv, front);
      forall key, child | child in ChildrenAt(Extend(before, a), key)
        ensures child in Extend(before, a)
      {
        OneAddition(before, a, key);
      }
    }
  }

  class VMwareInventory {
    var inv: Inventory

    constructor ()
      ensures inv == map[ALL := Group(Some([]), None, None)]
    {
      inv := map[ALL := Group(Some([]), None, None)];
    }

    method AddHost(parentGroup: string, hostName: string)
      modifies this
      ensures inv == Extend(old(inv), HostTo(parentGroup, hostName))
    {
      if parentGroup !in inv {
        inv := inv[parentGroup := Hosts([])];
      }
      var group := inv[parentGroup];
      var groupHosts: seq<string>;
      if group.Group? {
        groupHosts := Or(group.hosts, []);
      } else {
        groupHosts := group.list;
      }
      if hostName !in groupHosts {
        groupHosts := groupHosts + [hostName];
      }
      inv := inv[parentGroup := if group.Group? then group.(hosts := Some(groupHosts)) else Hosts(groupHosts)];
    }

    method AddChild(parentGroup: string, childGroup: string)
      modifies this
      ensures inv == Extend(old(inv), ChildTo(parentGroup, childGroup))
    {
      if parentGroup != ALL {
        if parentGroup !in inv {
          inv := inv[parentGroup := Group(None, None, None)];
        }
        var group := inv[parentGroup];
        if !group.Group? {
          group := Group(Some(group.list), None, None);
        }
        var children := Or(group.children, []);
        if childGroup !in children {
          children := children + [childGroup];
        }
        inv := inv[parentGroup := group.(children := Some(children))];
      }
      if childGroup !in inv {
        inv := inv[childGroup := Hosts([])];
      }
    }
  }
}
