/** The inventory that the EC2 script builds: a group starts as a list of hosts and becomes a
    dict with hosts and children once it gets a child. */
module CloudInventory {
  import opened Common
  import opened Collections

  /** One value of the inventory dict. A dict holds the keys that were set. */
  datatype Entry =
    | Hosts(list: seq<string>)
    | Group(hosts: Option<seq<string>>, children: Option<seq<string>>, hostvars: Option<map<string, string>>)

  type Inventory = map<string, Entry>

  /** The three ways in which the add methods write to the inventory: `push`, `push_group`
      and the assignment of a group of one host. */
  datatype Op =
    | Push(key: string, element: string)
    | PushGroup(key: string, element: string)
    | Alone(key: string, element: string)

  function At(inv: Inventory, key: string): Option<Entry> {
    if key in inv then Some(inv[key]) else None
  }

  function Or<T>(o: Option<T>, default: T): T {
    if o.Some? then o.value else default
  }

  /** What an operation makes of the entry of its key. */
  function Written(e: Option<Entry>, op: Op): Entry {
    match op
    case Alone(_, x) => Hosts([x])
    case Push(_, x) =>
      (match Or(e, Hosts([]))
       case Hosts(list) => Hosts(list + [x])
       case Group(hosts, children, hostvars) => Group(Some(Or(hosts, []) + [x]), children, hostvars))
    case PushGroup(_, x) =>
      (match Or(e, Group(None, None, None))
       case Hosts(list) => Group(Some(list), Some(Adding([], x)), None)
       case Group(hosts, children, hostvars) => Group(hosts, Some(Adding(Or(children, []), x)), hostvars))
  }

  function Adding(s: seq<string>, x: string): seq<string> {
    if x in s then s else s + [x]
  }

  function Apply(inv: Inventory, op: Op): Inventory {
    inv[op.key := Written(At(inv, op.key), op)]
  }

  function Run(inv: Inventory, ops: seq<Op>): Inventory {
    if ops == [] then inv else Apply(Run(inv, ops[..|ops|-1]), ops[|ops|-1])
  }

  // ---- The abstract value of a key ----

  function HostsAt(inv: Inventory, key: string): seq<string> {
    match At(inv, key)
    case None => []
    case Some(Hosts(list)) => list
    case Some(Group(hosts, _, _)) => Or(hosts, [])
  }

  function ChildrenAt(inv: Inventory, key: string): seq<string> {
    match At(inv, key)
    case None => []
    case Some(Hosts(_)) => []
    case Some(Group(_, children, _)) => Or(children, [])
  }

  /** Every child that a group lists is itself a group of the inventory. */
  ghost predicate NoDangling(inv: Inventory) {
    forall key, child :: child in ChildrenAt(inv, key) ==> child in inv
  }

  function PushesTo(key: string): Op -> bool { (op: Op) => op.Push? && op.key == key }

  function PushesGroupTo(key: string): Op -> bool { (op: Op) => op.PushGroup? && op.key == key }

  function Element(): Op -> string { (op: Op) => op.element }

  /** The first occurrence of each element, in order. */
  function Firsts(s: seq<string>): seq<string> {
    if s == [] then [] else Adding(Firsts(s[..|s|-1]), s[|s|-1])
  }

  lemma {:induction false} FirstsIsExact(s: seq<string>)
    ensures forall x :: x in Firsts(s) <==> x in s
    ensures forall i, j :: 0 <= i < j < |Firsts(s)| ==> Firsts(s)[i] != Firsts(s)[j]
    decreases |s|
  {
    if s != [] {
      FirstsIsExact(s[..|s|-1]);
      assert forall x :: x in s <==> x in s[..|s|-1] || x == s[|s|-1];
    }
  }

  /** What the operations after the last assignment to a key have pushed to it. */
  function HostsFrom(ops: seq<Op>, key: string): seq<string> {
    Map(Where(ops, PushesTo(key)), Element())
  }

  function ChildrenFrom(ops: seq<Op>, key: string): seq<string> {
    Firsts(Map(Where(ops, PushesGroupTo(key)), Element()))
  }

  lemma FirstsLast(s: seq<string>, x: string)
    ensures Firsts(s + [x]) == Adding(Firsts(s), x)
  {
    assert (s + [x])[..|s|] == s;
  }

  lemma HostsFromLast(ops: seq<Op>, key: string)
    requires ops != []
    ensures var front, last := ops[..|ops|-1], ops[|ops|-1];
            HostsFrom(ops, key) == HostsFrom(front, key) + if PushesTo(key)(last) then [last.element] else []
  {
    var n := |ops| - 1;
    assert ops[..n + 1] == ops;
    WhereLast(ops, n, PushesTo(key));
    var more := if PushesTo(key)(ops[n]) then [ops[n]] else [];
    MapConcat(Where(ops[..n], PushesTo(key)), more, Element());
  }

  lemma ChildrenFromLast(ops: seq<Op>, key: string)
    requires ops != []
    ensures var front, last := ops[..|ops|-1], ops[|ops|-1];
            ChildrenFrom(ops, key)
            == if PushesGroupTo(key)(last) then Adding(ChildrenFrom(front, key), last.element) else ChildrenFrom(front, key)
  {
    var n := |ops| - 1;
    assert ops[..n + 1] == ops;
    WhereLast(ops, n, PushesGroupTo(key));
    var all := Where(ops[..n], PushesGroupTo(key));
    if PushesGroupTo(key)(ops[n]) {
      MapConcat(all, [ops[n]], Element());
      assert Map([ops[n]], Element()) == [ops[n].element];
      FirstsLast(Map(all, Element()), ops[n].element);
    } else {
      assert all + [] == all;
    }
  }

  lemma OneWrite(inv: Inventory, op: Op, key: string)
    requires !(op.Alone? && op.key == key)
    ensures HostsAt(Apply(inv, op), key) == HostsAt(inv, key) + if PushesTo(key)(op) then [op.element] else []
    ensures ChildrenAt(Apply(inv, op), key)
            == if PushesGroupTo(key)(op) then Adding(ChildrenAt(inv, key), op.element) else ChildrenAt(inv, key)
  {
  }

  lemma NothingFrom(key: string)
    ensures HostsFrom([], key) == [] && ChildrenFrom([], key) == []
  {
  }

  /** The hosts and children of a key are what was pushed to that key, whatever was done to
      other keys and however the two calls interleave. */
  lemma {:induction false} KeyAlone(inv: Inventory, ops: seq<Op>, key: string)
    requires forall op :: op in ops ==> !(op.Alone? && op.key == key)
    requires ChildrenAt(inv, key) == []
    ensures HostsAt(Run(inv, ops), key) == HostsAt(inv, key) + HostsFrom(ops, key)
    ensures ChildrenAt(Run(inv, ops), key) == ChildrenFrom(ops, key)
    decreases |ops|
  {
    hide HostsAt, ChildrenAt, Apply, HostsFrom, ChildrenFrom;
    if ops == [] {
      NothingFrom(key);
    } else {
      KeyAlone(inv, ops[..|ops|-1], key);
      HostsFromLast(ops, key);
      ChildrenFromLast(ops, key);
      OneWrite(Run(inv, ops[..|ops|-1]), ops[|ops|-1], key);
    }
  }

  lemma {:induction false} RunConcat(inv: Inventory, a: seq<Op>, b: seq<Op>)
    ensures Run(inv, a + b) == Run(Run(inv, a), b)
    decreases |b|
  {
    if b == [] {
      assert a + b == a;
    } else {
      assert (a + b)[..|a + b|-1] == a + b[..|b|-1];
      RunConcat(inv, a, b[..|b|-1]);
    }
  }

  /** The same with an assignment: it drops what was pushed before. */
  lemma SinceAssigned(inv: Inventory, before: seq<Op>, host: string, after: seq<Op>, key: string)
    requires forall op :: op in after ==> !(op.Alone? && op.key == key)
    ensures var end := Run(inv, before + [Alone(key, host)] + after);
            && HostsAt(end, key) == [host] + HostsFrom(after, key)
            && ChildrenAt(end, key) == ChildrenFrom(after, key)
  {
    RunConcat(inv, before + [Alone(key, host)], after);
    RunConcat(inv, before, [Alone(key, host)]);
    var middle := Run(inv, before + [Alone(key, host)]);
    assert [Alone(key, host)][..0] == [];
    assert middle == Apply(Run(inv, before), Alone(key, host));
    KeyAlone(middle, after, key);
  }

  /** Two runs that push the same hosts to a key, and the same children, in the same order
      each, agree on it. */
  lemma OnlyOwnSubsequences(a: seq<Op>, b: seq<Op>, key: string)
    requires forall op :: op in a || op in b ==> !(op.Alone? && op.key == key)
    requires Where(a, PushesTo(key)) == Where(b, PushesTo(key))
    requires Where(a, PushesGroupTo(key)) == Where(b, PushesGroupTo(key))
    ensures HostsAt(Run(map[], a), key) == HostsAt(Run(map[], b), key)
    ensures ChildrenAt(Run(map[], a), key) == ChildrenAt(Run(map[], b), key)
  {
    KeyAlone(map[], a, key);
    KeyAlone(map[], b, key);
  }

  // ---- Index and host variables ----

  const META := "_meta"

  /** What an add method does for one instance, cluster, node or replication group: where it
      lives, the name it gets, the group operations it makes and the variables it has. One
      that is not addressable, or not wanted, is skipped. */
  datatype Resource = Resource(wanted: bool, name: string, place: (string, string), ops: seq<Op>, vars: string)

  datatype State = State(inventory: Inventory, index: map<string, (string, string)>)

  const START := State(map[META := Group(None, None, Some(map[]))], map[])

  function HostVars(inv: Inventory): Option<map<string, string>> {
    match At(inv, META)
    case Some(Group(_, _, hostvars)) => hostvars
    case _ => None
  }

  /** None when `self.inventory["_meta"]["hostvars"]` raises. */
  function Added(s: State, r: Resource): Option<State> {
    if !r.wanted then Some(s)
    else
      var inv := Run(s.inventory, r.ops);
      match HostVars(inv)
      case None => None
      case Some(vars) =>
        Some(State(inv[META := inv[META].(hostvars := Some(vars[r.name := r.vars]))], s.index[r.name := r.place]))
  }

  function AddedAll(rs: seq<Resource>): Option<State> {
    if rs == [] then Some(START)
    else
      match AddedAll(rs[..|rs|-1])
      case None => None
      case Some(s) => Added(s, rs[|rs|-1])
  }

  /** Whether a resource's own group would replace the host variables. */
  predicate Clobbers(r: Resource) {
    r.wanted && exists op :: op in r.ops && op.Alone? && op.key == "_meta"
  }

  lemma {:induction false} MetaKept(inv: Inventory, ops: seq<Op>)
    ensures HostVars(Run(inv, ops))
            == if exists op :: op in ops && op.Alone? && op.key == META then None else HostVars(inv)
    decreases |ops|
  {
    if ops != [] {
      MetaKept(inv, ops[..|ops|-1]);
      assert forall op :: op in ops <==> op in ops[..|ops|-1] || op == ops[|ops|-1];
    }
  }

  lemma AddedKeys(s: State, r: Resource)
    requires HostVars(s.inventory).Some? && HostVars(s.inventory).value.Keys == s.index.Keys
    requires Added(s, r).Some?
    ensures HostVars(Added(s, r).value.inventory).Some?
    ensures HostVars(Added(s, r).value.inventory).value.Keys == Added(s, r).value.index.Keys
  {
    MetaKept(s.inventory, r.ops);
  }

  lemma AddedFails(s: State, r: Resource)
    requires HostVars(s.inventory).Some?
    ensures Added(s, r) == None <==> Clobbers(r)
  {
    MetaKept(s.inventory, r.ops);
  }

  /** After any run of add methods the index and the host variables have the same keys, and
      the run raises exactly when some resource has the id "_meta". */
  lemma {:induction false} IndexMatchesHostVars(rs: seq<Resource>)
    ensures AddedAll(rs) == None <==> exists r :: r in rs && Clobbers(r)
    ensures AddedAll(rs).Some? ==>
              HostVars(AddedAll(rs).value.inventory).Some?
              && HostVars(AddedAll(rs).value.inventory).value.Keys == AddedAll(rs).value.index.Keys
    decreases |rs|
  {
    if rs != [] {
      var front, last := rs[..|rs|-1], rs[|rs|-1];
      IndexMatchesHostVars(front);
      assert forall r :: r in rs <==> r in front || r == last;
      if AddedAll(front).Some? {
        var s := AddedAll(front).value;
        AddedFails(s, last);
        if Added(s, last).Some? {
          AddedKeys(s, last);
        }
      }
      assert (exists r :: r in rs && Clobbers(r)) <==> (exists r :: r in front && Clobbers(r)) || Clobbers(last);
    }
  }

  /** The last resource that got this name. */
  function LastNamed(rs: seq<Resource>, name: string): Option<Resource> {
    if rs == [] then None
    else if rs[|rs|-1].wanted && rs[|rs|-1].name == name then Some(rs[|rs|-1])
    else LastNamed(rs[..|rs|-1], name)
  }

  /** And for each name they hold what the last resource of that name brought. */
  lemma {:induction false} LastResourceWins(rs: seq<Resource>, name: string)
    requires AddedAll(rs).Some?
    ensures var s, last := AddedAll(rs).value, LastNamed(rs, name);
            && HostVars(s.inventory).Some?
            && (last == None ==> name !in s.index && name !in HostVars(s.inventory).value)
            && (last.Some? ==>
                  && name in s.index && s.index[name] == last.value.place
                  && name in HostVars(s.inventory).value && HostVars(s.inventory).value[name] == last.value.vars)
    decreases |rs|
  {
    if rs != [] {
      var front, last := rs[..|rs|-1], rs[|rs|-1];
      LastResourceWins(front, name);
      MetaKept(AddedAll(front).value.inventory, last.ops);
    }
  }

  // ---- The script's object ----

  class Ec2Inventory {
    var inventory: Inventory
    var index: map<string, (string, string)>

    constructor ()
      ensures State(inventory, index) == START
    {
      inventory := START.inventory;
      index := map[];
    }

    /** `push`: `setdefault` and append. */
    method PushTo(key: string, element: string)
      modifies `inventory
      ensures inventory == Apply(old(inventory), Push(key, element))
    {
      if key !in inventory {
        inventory := inventory[key := Hosts([])];
      }
      var info := inventory[key];
      if info.Group? {
        if info.hosts == None {
          info := info.(hosts := Some([]));
        }
        info := info.(hosts := Some(info.hosts.value + [element]));
      } else {
        info := Hosts(info.list + [element]);
      }
      inventory := inventory[key := info];
    }

    /** `push_group`: a list of hosts becomes a dict first. */
    method PushGroupTo(key: string, element: string)
      modifies `inventory
      ensures inventory == Apply(old(inventory), PushGroup(key, element))
    {
      if key !in inventory {
        inventory := inventory[key := Group(None, None, None)];
      }
      var parent := inventory[key];
      if !parent.Group? {
        parent := Group(Some(parent.list), None, None);
      }
      if parent.children == None {
        parent := parent.(children := Some([]));
      }
      if element !in parent.children.value {
        parent := parent.(children := Some(parent.children.value + [element]));
      }
      inventory := inventory[key := parent];
    }

    method Write(op: Op)
      modifies `inventory
      ensures inventory == Apply(old(inventory), op)
    {
      match op
      case Push(key, element) => PushTo(key, element);
      case PushGroup(key, element) => PushGroupTo(key, element);
      case Alone(key, host) => inventory := inventory[key := Hosts([host])];
    }

    /** An add method: the index first, then the groups, then the variables. False when the
        last step raises. */
    method Add(r: Resource) returns (ok: bool)
      modifies this
      ensures ok <==> Added(old(State(inventory, index)), r).Some?
      ensures ok ==> State(inventory, index) == Added(old(State(inventory, index)), r).value
    {
      if !r.wanted {
        return true;
      }
      index := index[r.name := r.place];
      var i := 0;
      while i < |r.ops|
        invariant 0 <= i <= |r.ops|
        invariant inventory == Run(old(inventory), r.ops[..i]) && index == old(index)[r.name := r.place]
      {
        assert r.ops[..i + 1][..i] == r.ops[..i];
        Write(r.ops[i]);
        i := i + 1;
      }
      assert r.ops[..i] == r.ops;
      var vars := HostVars(inventory);
      if vars == None {
        return false;
      }
      inventory := inventory[META := inventory[META].(hostvars := Some(vars.value[r.name := r.vars]))];
      return true;
    }
  }
}
