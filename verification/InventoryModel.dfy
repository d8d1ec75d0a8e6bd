/** Groups and hosts of inventories, the queries on them, and the tree they form. */
module InventoryModel {
  import opened Common
  import opened Collections

  /** The `variables` text of a document, by what `json.Unmarshal` makes of it. */
  datatype Text = Empty | Json(value: string) | Malformed

  datatype Group = Group(id: Id, name: string, variables: Text, inventory: Id, parent: Option<Id>)

  datatype Host = Host(id: Id, name: string, variables: Text, inventory: Id, group: Option<Id>)

  // ---- Queries ----

  function GroupId(): Group -> Id { (g: Group) => g.id }

  function InInventory(inv: Id): Group -> bool { (g: Group) => g.inventory == inv }

  function HasParent(p: Id): Group -> bool { (g: Group) => g.parent == Some(p) }

  function IsRootOf(inv: Id): Group -> bool { (g: Group) => g.inventory == inv && g.parent == None }

  /** `RootGroups`. */
  function RootGroups(gs: seq<Group>, inv: Id): seq<Group> {
    Where(gs, IsRootOf(inv))
  }

  function Kids(gs: seq<Group>, p: Id): seq<Group> {
    Where(gs, HasParent(p))
  }

  function Ids(gs: seq<Group>): (r: set<Id>)
    ensures forall id :: id in r <==> exists g :: g in gs && g.id == id
  {
    set g | g in gs :: g.id
  }

  /** `FindId(..).One`. */
  function Lookup(gs: seq<Group>, id: Id): (r: Option<Group>)
    ensures r.Some? ==> r.value in gs && r.value.id == id
    ensures r == None ==> forall g :: g in gs ==> g.id != id
  {
    if gs == [] then None else if gs[0].id == id then Some(gs[0]) else Lookup(gs[1..], id)
  }

  ghost predicate DistinctGroups(gs: seq<Group>) {
    DistinctBy(gs, GroupId())
  }

  // ---- The tree ----

  /** A group with the groups that were put under it. */
  datatype Node = Node(group: Group, children: seq<Node>)

  /** Group `g` with its descendants down to `depth` levels below it. */
  function Branch(gs: seq<Group>, g: Group, depth: nat): Node
    decreases depth, 0
  {
    Node(g, if depth == 0 then [] else Branches(gs, Kids(gs, g.id), depth - 1))
  }

  function Branches(gs: seq<Group>, list: seq<Group>, depth: nat): (r: seq<Node>)
    ensures |r| == |list|
    decreases depth, |list| + 1
  {
    if list == [] then [] else [Branch(gs, list[0], depth)] + Branches(gs, list[1..], depth)
  }

  /** What `Tree` answers: the root groups, each with two levels below it. */
  function TreeOf(gs: seq<Group>, inv: Id): seq<Node> {
    Branches(gs, RootGroups(gs, inv), 2)
  }

  function Flatten(ns: seq<Node>): seq<Group>
    decreases ns
  {
    if ns == [] then [] else [ns[0].group] + Flatten(ns[0].children) + Flatten(ns[1..])
  }

  /** Every group stands under its own parent. */
  predicate WellPlaced(ns: seq<Node>, parent: Option<Id>)
    decreases ns
  {
    ns == []
    || (ns[0].group.parent == parent && WellPlaced(ns[0].children, Some(ns[0].group.id)) && WellPlaced(ns[1..], parent))
  }

  lemma {:induction false} BranchesAppend(gs: seq<Group>, a: seq<Group>, b: seq<Group>, depth: nat)
    ensures Branches(gs, a + b, depth) == Branches(gs, a, depth) + Branches(gs, b, depth)
    decreases |a|
  {
    if a == [] {
      assert a + b == b;
    } else {
      assert (a + b)[1..] == a[1..] + b;
      BranchesAppend(gs, a[1..], b, depth);
    }
  }

  /** One more group in the list is one more branch. */
  lemma BranchesLast(gs: seq<Group>, list: seq<Group>, n: nat, depth: nat)
    requires n < |list|
    ensures Branches(gs, list[..n + 1], depth)
            == Branches(gs, list[..n], depth)
               + [Node(list[n], if depth == 0 then [] else Branches(gs, Kids(gs, list[n].id), depth - 1))]
  {
    assert list[..n + 1] == list[..n] + [list[n]];
    BranchesAppend(gs, list[..n], [list[n]], depth);
    assert Branches(gs, [list[n]], depth) == [Branch(gs, list[n], depth)] + Branches(gs, [], depth);
  }

  lemma {:induction false} BranchesTop(gs: seq<Group>, list: seq<Group>, depth: nat)
    ensures forall i :: 0 <= i < |list| ==> Branches(gs, list, depth)[i].group == list[i]
    decreases |list|
  {
    if list != [] {
      BranchesTop(gs, list[1..], depth);
    }
  }

  // ---- Each group appears exactly as often as it should ----

  /** The children of all groups in `list`, one after the other. */
  function KidsOfAll(gs: seq<Group>, list: seq<Group>): seq<Group> {
    if list == [] then [] else Kids(gs, list[0].id) + KidsOfAll(gs, list[1..])
  }

  /** The groups below the groups of `list`. */
  function Below(gs: seq<Group>, list: seq<Group>, depth: nat): seq<Group> {
    if depth == 0 then [] else Flatten(Branches(gs, KidsOfAll(gs, list), depth - 1))
  }

  lemma {:induction false} FlattenLevels(gs: seq<Group>, list: seq<Group>, depth: nat)
    ensures multiset(Flatten(Branches(gs, list, depth))) == multiset(list) + multiset(Below(gs, list, depth))
    decreases depth, |list|
  {
    if list == [] {
      assert KidsOfAll(gs, list) == [];
      assert Below(gs, list, depth) == [];
    } else {
      var t := list[1..];
      var a := if depth == 0 then [] else Flatten(Branches(gs, Kids(gs, list[0].id), depth - 1));
      var r := Flatten(Branches(gs, t, depth));
      FlattenFirst(gs, list, depth);
      FlattenLevels(gs, t, depth);
      Shuffle(list[0], t, a, r, Below(gs, t, depth));
      BelowFirst(gs, list, depth);
      assert list == [list[0]] + t;
    }
  }

  lemma BelowFirst(gs: seq<Group>, list: seq<Group>, depth: nat)
    requires list != []
    ensures Below(gs, list, depth)
            == (if depth == 0 then [] else Flatten(Branches(gs, Kids(gs, list[0].id), depth - 1)))
               + Below(gs, list[1..], depth)
  {
    if depth > 0 {
      FlattenAppend(gs, Kids(gs, list[0].id), KidsOfAll(gs, list[1..]), depth - 1);
    }
  }

  lemma FlattenFirst(gs: seq<Group>, list: seq<Group>, depth: nat)
    requires list != []
    ensures Flatten(Branches(gs, list, depth))
            == [list[0]] + (if depth == 0 then [] else Flatten(Branches(gs, Kids(gs, list[0].id), depth - 1)))
               + Flatten(Branches(gs, list[1..], depth))
  {
    var ns := Branches(gs, list, depth);
    assert ns[0] == Branch(gs, list[0], depth);
    assert ns[1..] == Branches(gs, list[1..], depth);
  }

  lemma Shuffle(x: Group, t: seq<Group>, a: seq<Group>, r: seq<Group>, b: seq<Group>)
    requires multiset(r) == multiset(t) + multiset(b)
    ensures multiset([x] + a + r) == multiset([x] + t) + multiset(a + b)
  {
  }

  lemma {:induction false} FlattenConcat(a: seq<Node>, b: seq<Node>)
    ensures Flatten(a + b) == Flatten(a) + Flatten(b)
    decreases |a|
  {
    if a == [] {
      assert a + b == b;
    } else {
      assert (a + b)[1..] == a[1..] + b;
      FlattenConcat(a[1..], b);
    }
  }

  lemma FlattenAppend(gs: seq<Group>, a: seq<Group>, b: seq<Group>, depth: nat)
    ensures Flatten(Branches(gs, a + b, depth)) == Flatten(Branches(gs, a, depth)) + Flatten(Branches(gs, b, depth))
  {
    BranchesAppend(gs, a, b, depth);
    FlattenConcat(Branches(gs, a, depth), Branches(gs, b, depth));
  }

  lemma {:induction false} KidsCount(gs: seq<Group>, list: seq<Group>, g: Group)
    requires DistinctGroups(list)
    ensures multiset(KidsOfAll(gs, list))[g]
            == if g.parent.Some? && g.parent.value in Ids(list) then multiset(gs)[g] else 0
    decreases |list|
  {
    if list != [] {
      assert list == [list[0]] + list[1..];
      assert DistinctGroups(list[1..]) by {
        assert forall i :: 0 <= i < |list[1..]| ==> list[1..][i] == list[i + 1];
      }
      KidsCount(gs, list[1..], g);
      WhereCount(gs, HasParent(list[0].id), g);
      assert Ids(list) == {list[0].id} + Ids(list[1..]);
      assert list[0].id !in Ids(list[1..]);
    }
  }

  /** `g` reaches a root group of `inv` in at most `hops` steps from child to parent. */
  ghost predicate Reaches(gs: seq<Group>, inv: Id, g: Group, hops: nat)
    decreases hops
  {
    || (g.parent == None && g.inventory == inv)
    || (hops > 0 && g.parent.Some? && exists p :: p in gs && p.id == g.parent.value && Reaches(gs, inv, p, hops - 1))
  }

  /** The groups exactly `n` steps below a root group of `inv`. */
  function Level(gs: seq<Group>, inv: Id, n: nat): seq<Group> {
    if n == 0 then RootGroups(gs, inv) else KidsOfAll(gs, Level(gs, inv, n - 1))
  }

  ghost predicate OnLevel(gs: seq<Group>, inv: Id, g: Group, n: nat)
    decreases n
  {
    if n == 0 then g.parent == None && g.inventory == inv
    else g.parent.Some? && exists p :: p in gs && p.id == g.parent.value && OnLevel(gs, inv, p, n - 1)
  }

  lemma {:induction false} LevelCount(gs: seq<Group>, inv: Id, n: nat)
    requires DistinctGroups(gs)
    ensures DistinctGroups(Level(gs, inv, n))
    ensures forall g :: multiset(Level(gs, inv, n))[g] == if g in gs && OnLevel(gs, inv, g, n) then 1 else 0
  {
    if n == 0 {
      WhereDistinct(gs, IsRootOf(inv), GroupId());
      forall g
        ensures multiset(Level(gs, inv, n))[g] == if g in gs && OnLevel(gs, inv, g, n) then 1 else 0
      {
        WhereCount(gs, IsRootOf(inv), g);
        DistinctCount(gs, GroupId(), g);
      }
    } else {
      LevelCount(gs, inv, n - 1);
      var above := Level(gs, inv, n - 1);
      forall g
        ensures multiset(Level(gs, inv, n))[g] == if g in gs && OnLevel(gs, inv, g, n) then 1 else 0
      {
        KidsCount(gs, above, g);
        DistinctCount(gs, GroupId(), g);
        assert forall p :: p in above <==> multiset(above)[p] > 0;
      }
      OnceDistinct(gs, Level(gs, inv, n));
    }
  }

  lemma OnceDistinct(gs: seq<Group>, list: seq<Group>)
    requires DistinctGroups(gs)
    requires forall g :: multiset(list)[g] <= 1 && (g in list ==> g in gs)
    ensures DistinctGroups(list)
  {
    forall i, j | 0 <= i < j < |list|
      ensures GroupId()(list[i]) != GroupId()(list[j])
    {
      OnceApart(list, i, j);
      assert list[i] in list && list[j] in list;
      DifferentKeys(gs, GroupId(), list[i], list[j]);
    }
  }

  lemma {:induction false} OneLevel(gs: seq<Group>, inv: Id, g: Group, m: nat, n: nat)
    requires DistinctGroups(gs) && OnLevel(gs, inv, g, m) && OnLevel(gs, inv, g, n)
    ensures m == n
    decreases m
  {
    if m > 0 && n > 0 {
      var p :| p in gs && p.id == g.parent.value && OnLevel(gs, inv, p, m - 1);
      var q :| q in gs && q.id == g.parent.value && OnLevel(gs, inv, q, n - 1);
      SameKey(gs, GroupId(), p, q);
      OneLevel(gs, inv, p, m - 1, n - 1);
    }
  }

  lemma {:induction false} ReachesLevels(gs: seq<Group>, inv: Id, g: Group, hops: nat)
    ensures Reaches(gs, inv, g, hops) <==> exists n :: 0 <= n <= hops && OnLevel(gs, inv, g, n)
    decreases hops
  {
    if hops > 0 {
      forall p | p in gs
        ensures Reaches(gs, inv, p, hops - 1) <==> exists n :: 0 <= n <= hops - 1 && OnLevel(gs, inv, p, n)
      {
        ReachesLevels(gs, inv, p, hops - 1);
      }
      if Reaches(gs, inv, g, hops) {
        if g.parent == None {
          assert OnLevel(gs, inv, g, 0);
        } else {
          var p :| p in gs && p.id == g.parent.value && Reaches(gs, inv, p, hops - 1);
          var n :| 0 <= n <= hops - 1 && OnLevel(gs, inv, p, n);
          assert OnLevel(gs, inv, g, n + 1);
        }
      }
      if n :| 0 <= n <= hops && OnLevel(gs, inv, g, n) {
        if n > 0 {
          var p :| p in gs && p.id == g.parent.value && OnLevel(gs, inv, p, n - 1);
        }
      }
    } else {
      assert OnLevel(gs, inv, g, 0) <==> Reaches(gs, inv, g, 0);
    }
  }

  /** A stored group appears in the tree of an inventory exactly once if it reaches one of
      the inventory's root groups in at most two steps, and otherwise not at all. */
  lemma TreeCount(gs: seq<Group>, inv: Id, g: Group)
    requires DistinctGroups(gs)
    ensures multiset(Flatten(TreeOf(gs, inv)))[g] == if g in gs && Reaches(gs, inv, g, 2) then 1 else 0
  {
    FlattenThree(gs, inv);
    LevelCount(gs, inv, 0);
    LevelCount(gs, inv, 1);
    LevelCount(gs, inv, 2);
    ReachesThree(gs, inv, g);
  }

  lemma FlattenThree(gs: seq<Group>, inv: Id)
    ensures multiset(Flatten(TreeOf(gs, inv)))
            == multiset(Level(gs, inv, 0)) + multiset(Level(gs, inv, 1)) + multiset(Level(gs, inv, 2))
  {
    FlattenLevels(gs, Level(gs, inv, 0), 2);
    FlattenLevels(gs, Level(gs, inv, 1), 1);
    FlattenLevels(gs, Level(gs, inv, 2), 0);
  }

  /** A group that reaches a root in at most two steps is on exactly one level. */
  lemma ReachesThree(gs: seq<Group>, inv: Id, g: Group)
    requires DistinctGroups(gs)
    ensures (if OnLevel(gs, inv, g, 0) then 1 else 0) + (if OnLevel(gs, inv, g, 1) then 1 else 0)
            + (if OnLevel(gs, inv, g, 2) then 1 else 0) == if Reaches(gs, inv, g, 2) then 1 else 0
  {
    ReachesLevels(gs, inv, g, 2);
    if OnLevel(gs, inv, g, 0) && OnLevel(gs, inv, g, 1) { OneLevel(gs, inv, g, 0, 1); }
    if OnLevel(gs, inv, g, 0) && OnLevel(gs, inv, g, 2) { OneLevel(gs, inv, g, 0, 2); }
    if OnLevel(gs, inv, g, 1) && OnLevel(gs, inv, g, 2) { OneLevel(gs, inv, g, 1, 2); }
  }
}
