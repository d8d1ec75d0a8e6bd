/** `InventoryController.Script`: the inventory as Ansible reads it, and the proof that it
    partitions the hosts. */
module InventoryScript {
  import opened Common
  import opened Collections
  import opened InventoryModel

  /** One value of the answer. */
  datatype Entry =
    | GroupEntry(hosts: seq<string>, children: seq<string>, vars: Text)
    | AllEntry(hosts: seq<string>)
    | MetaEntry(hostvars: map<string, string>)

  /** None is an error answer: some `variables` text did not parse. */
  type Answer = Option<map<string, Entry>>

  function GroupName(): Group -> string { (g: Group) => g.name }

  function HostName(): Host -> string { (h: Host) => h.name }

  function HostIn(inv: Id): Host -> bool { (h: Host) => h.inventory == inv }

  function HostInGroup(inv: Id, gid: Id): Host -> bool { (h: Host) => h.inventory == inv && h.group == Some(gid) }

  function Ungrouped(inv: Id): Host -> bool { (h: Host) => h.inventory == inv && h.group == None }

  function ChildIn(inv: Id, gid: Id): Group -> bool { (g: Group) => g.inventory == inv && g.parent == Some(gid) }

  // ---- The answer as a function of the collections ----

  function EntryOf(gs: seq<Group>, hs: seq<Host>, inv: Id, g: Group): Entry {
    GroupEntry(Map(Where(hs, HostInGroup(inv, g.id)), HostName()), Map(Where(gs, ChildIn(inv, g.id)), GroupName()), g.variables)
  }

  /** One entry per group; a later group of the same name replaces an earlier one. */
  function GroupEntries(gs: seq<Group>, hs: seq<Host>, inv: Id, list: seq<Group>): map<string, Entry>
    decreases |list|
  {
    if list == [] then map[]
    else
      var last := list[|list|-1];
      GroupEntries(gs, hs, inv, list[..|list|-1])[last.name := EntryOf(gs, hs, inv, last)]
  }

  /** The hosts of the groups in `list`, group by group. */
  function Grouped(hs: seq<Host>, inv: Id, list: seq<Group>): seq<Host>
    decreases |list|
  {
    if list == [] then []
    else Grouped(hs, inv, list[..|list|-1]) + Where(hs, HostInGroup(inv, list[|list|-1].id))
  }

  function HostVars(list: seq<Host>): map<string, string>
    decreases |list|
  {
    if list == [] then map[]
    else
      var h := list[|list|-1];
      var before := HostVars(list[..|list|-1]);
      if h.variables.Json? then before[h.name := h.variables.value] else before
  }

  predicate GroupsParse(list: seq<Group>) {
    forall g :: g in list ==> !g.variables.Malformed?
  }

  predicate HostsParse(list: seq<Host>) {
    forall h :: h in list ==> !h.variables.Malformed?
  }

  function ScriptOf(gs: seq<Group>, hs: seq<Host>, inv: Id, withVars: bool): Answer {
    var parents := Where(gs, InInventory(inv));
    var listed := Grouped(hs, inv, parents) + Where(hs, Ungrouped(inv));
    if !GroupsParse(parents) || !HostsParse(listed) then None
    else
      var entries := GroupEntries(gs, hs, inv, parents);
      var meta := if withVars then entries["_meta" := MetaEntry(HostVars(listed))] else entries;
      Some(meta["all" := AllEntry(Map(Where(hs, Ungrouped(inv)), HostName()))])
  }

  // ---- The handler ----

  /** The loop over the groups: their entries and their hosts, or None at the first
      `variables` that does not parse. */
  method ScriptGroups(gs: seq<Group>, hs: seq<Host>, inv: Id, parents: seq<Group>)
    returns (r: Option<(map<string, Entry>, seq<Host>)>)
    ensures r == None <==> !GroupsParse(parents)
    ensures r.Some? ==> r.value == (GroupEntries(gs, hs, inv, parents), Grouped(hs, inv, parents))
  {
    var resp: map<string, Entry> := map[];
    var allhosts: seq<Host> := [];
    var i := 0;
    while i < |parents|
      invariant 0 <= i <= |parents|
      invariant GroupsParse(parents[..i])
      invariant resp == GroupEntries(gs, hs, inv, parents[..i]) && allhosts == Grouped(hs, inv, parents[..i])
    {
      var v := parents[i];
      var hosts := Where(hs, HostInGroup(inv, v.id));
      allhosts := allhosts + hosts;
      var childgroups := Where(gs, ChildIn(inv, v.id));
      var hostnames := Map(hosts, HostName());
      var groupnames := Map(childgroups, GroupName());
      if v.variables.Malformed? {
        return None;
      }
      resp := resp[v.name := GroupEntry(hostnames, groupnames, v.variables)];
      assert parents[..i + 1][..i] == parents[..i];
      i := i + 1;
    }
    assert parents[..i] == parents;
    return Some((resp, allhosts));
  }

  /** A loop that collects the parsed variables of hosts into `hostvars`. */
  method CollectVars(list: seq<Host>, before: seq<Host>, hostvars: map<string, string>) returns (r: Option<map<string, string>>)
    requires hostvars == HostVars(before)
    ensures r == None <==> !HostsParse(list)
    ensures r.Some? ==> r.value == HostVars(before + list)
  {
    var vars := hostvars;
    var i := 0;
    assert before + list[..0] == before;
    while i < |list|
      invariant 0 <= i <= |list|
      invariant HostsParse(list[..i])
      invariant vars == HostVars(before + list[..i])
    {
      var v := list[i];
      if v.variables != Empty {
        if v.variables.Malformed? {
          return None;
        }
        vars := vars[v.name := v.variables.value];
      }
      assert (before + list[..i + 1])[..|before| + i] == before + list[..i];
      i := i + 1;
    }
    assert list[..i] == list;
    return Some(vars);
  }

  method Script(gs: seq<Group>, hs: seq<Host>, inv: Id, withVars: bool) returns (r: Answer)
    ensures r == ScriptOf(gs, hs, inv, withVars)
  {
    var parents := Where(gs, InInventory(inv));
    var groups := ScriptGroups(gs, hs, inv, parents);
    if groups == None {
      return None;
    }
    var (resp, allhosts) := groups.value;
    var hostvars := CollectVars(allhosts, [], map[]);
    assert [] + allhosts == allhosts;
    if hostvars == None {
      return None;
    }
    var nghosts := Where(hs, Ungrouped(inv));
    hostvars := CollectVars(nghosts, allhosts, hostvars.value);
    if hostvars == None {
      return None;
    }
    var hosts := Map(nghosts, HostName());
    if withVars {
      resp := resp["_meta" := MetaEntry(hostvars.value)];
    }
    resp := resp["all" := AllEntry(hosts)];
    return Some(resp);
  }

  // ---- One host ----

  /** What a request for the variables of one host gets. */
  datatype HostAnswer = NoSuchHost | Unparsable | Variables(value: string)

  /** `Find(..).One`: the first host of that name, in whatever inventory. */
  function FirstNamed(hs: seq<Host>, name: string): (r: Option<Host>)
    ensures r.Some? ==> r.value in hs && r.value.name == name
    ensures r == None ==> forall h :: h in hs ==> h.name != name
  {
    if hs == [] then None else if hs[0].name == name then Some(hs[0]) else FirstNamed(hs[1..], name)
  }

  /** The value of the text; here empty text is as bad as text that does not parse. */
  function ValueOf(t: Text): Option<string> {
    if t.Json? then Some(t.value) else None
  }

  method ScriptHost(hs: seq<Host>, name: string) returns (r: HostAnswer)
    ensures r.NoSuchHost? <==> forall h :: h in hs ==> h.name != name
    ensures !r.NoSuchHost? ==>
              exists n :: 0 <= n < |hs| && hs[n].name == name && (forall k :: 0 <= k < n ==> hs[k].name != name)
                          && r == if hs[n].variables.Json? then Variables(hs[n].variables.value) else Unparsable
    ensures r == HostAnswerOf(hs, name)
  {
    var host := FirstNamed(hs, name);
    if host == None {
      return NoSuchHost;
    }
    var n := FirstPlace(hs, name);
    if !host.value.variables.Json? {
      return Unparsable;
    }
    return Variables(host.value.variables.value);
  }

  function HostAnswerOf(hs: seq<Host>, name: string): HostAnswer {
    match FirstNamed(hs, name)
    case None => NoSuchHost
    case Some(h) => if h.variables.Json? then Variables(h.variables.value) else Unparsable
  }

  lemma {:induction false} FirstPlace(hs: seq<Host>, name: string) returns (n: nat)
    requires FirstNamed(hs, name).Some?
    ensures n < |hs| && hs[n] == FirstNamed(hs, name).value && forall k :: 0 <= k < n ==> hs[k].name != name
  {
    if hs[0].name == name {
      n := 0;
    } else {
      var m := FirstPlace(hs[1..], name);
      n := m + 1;
      assert forall k :: 1 <= k < n ==> hs[k] == hs[1..][k - 1];
    }
  }

  // ---- The partition ----

  /** Group names identify the groups of the inventory and avoid the two reserved names;
      host names identify its hosts. */
  ghost predicate Named(gs: seq<Group>, hs: seq<Host>, inv: Id) {
    && DistinctGroups(gs)
    && DistinctBy(Where(gs, InInventory(inv)), GroupName())
    && (forall g :: g in gs && g.inventory == inv ==> g.name != "all" && g.name != "_meta")
    && DistinctBy(Where(hs, HostIn(inv)), HostName())
  }

  /** The key under which host `h` belongs: its group's name, or "all" if it has no group.
      A host whose group is not a group of the inventory belongs nowhere. */
  ghost predicate Home(gs: seq<Group>, inv: Id, h: Host, key: string) {
    if h.group == None then key == "all"
    else exists g :: g in gs && g.inventory == inv && g.id == h.group.value && g.name == key
  }

  /** The hosts listed under a key. */
  function Listed(e: Entry): seq<string> {
    if e.MetaEntry? then [] else e.hosts
  }

  lemma FrontNames(list: seq<Group>)
    requires list != [] && DistinctBy(list, GroupName())
    ensures var front, last := list[..|list|-1], list[|list|-1];
            && DistinctBy(front, GroupName())
            && (forall g :: g in list <==> g in front || g == last)
            && forall g :: g in front ==> g.name != last.name
  {
    var front, last := list[..|list|-1], list[|list|-1];
    assert forall i :: 0 <= i < |front| ==> front[i] == list[i];
    forall g | g in front
      ensures g.name != last.name
    {
      var i :| 0 <= i < |front| && front[i] == g;
      assert GroupName()(list[i]) != GroupName()(list[|list|-1]);
    }
  }

  lemma {:induction false} EntriesAt(gs: seq<Group>, hs: seq<Host>, inv: Id, list: seq<Group>)
    requires DistinctBy(list, GroupName())
    ensures forall key :: key in GroupEntries(gs, hs, inv, list) <==> exists g :: g in list && g.name == key
    ensures forall g :: g in list ==> GroupEntries(gs, hs, inv, list)[g.name] == EntryOf(gs, hs, inv, g)
    decreases |list|
  {
    hide EntryOf, DistinctBy;
    if list != [] {
      FrontNames(list);
      EntriesAt(gs, hs, inv, list[..|list|-1]);
    }
  }

  /** Within the inventory a host is known by its name. */
  lemma NameOwner(hs: seq<Host>, inv: Id, h: Host, d: Host)
    requires DistinctBy(Where(hs, HostIn(inv)), HostName())
    requires h in hs && h.inventory == inv && d in hs && d.inventory == inv && d.name == h.name
    ensures d == h
  {
    var mine := Where(hs, HostIn(inv));
    SameKey(mine, HostName(), d, h);
  }

  lemma QueryDistinct(hs: seq<Host>, inv: Id, p: Host -> bool)
    requires DistinctBy(Where(hs, HostIn(inv)), HostName())
    requires forall x :: p(x) ==> x.inventory == inv
    ensures DistinctBy(Where(hs, p), HostName())
  {
    WhereWhere(hs, HostIn(inv), p, p);
    WhereDistinct(Where(hs, HostIn(inv)), p, HostName());
  }

  /** How often a host's name is listed by a query on hosts of the inventory. */
  lemma NameCount(hs: seq<Host>, inv: Id, p: Host -> bool, h: Host)
    requires DistinctBy(Where(hs, HostIn(inv)), HostName())
    requires h in hs && h.inventory == inv
    requires forall x :: p(x) ==> x.inventory == inv
    ensures multiset(Map(Where(hs, p), HostName()))[h.name] == if p(h) then 1 else 0
  {
    QueryDistinct(hs, inv, p);
    var found := Where(hs, p);
    MapCount(found, HostName(), h.name);
    if p(h) {
      assert h in found && HostName()(h) == h.name;
    } else {
      forall d | d in found
        ensures HostName()(d) != h.name
      {
        if d.name == h.name {
          NameOwner(hs, inv, h, d);
        }
      }
    }
  }

  /** The group whose entry stands under a key that is not reserved. */
  lemma GroupAt(gs: seq<Group>, hs: seq<Host>, inv: Id, withVars: bool, key: string) returns (g: Group)
    requires Named(gs, hs, inv) && ScriptOf(gs, hs, inv, withVars).Some?
    requires key in ScriptOf(gs, hs, inv, withVars).value && key != "all" && key != "_meta"
    ensures g in Where(gs, InInventory(inv)) && g.name == key
    ensures ScriptOf(gs, hs, inv, withVars).value[key] == EntryOf(gs, hs, inv, g)
  {
    hide DistinctBy, Map, GroupEntries, HostVars, Grouped, EntryOf;
    var parents := Where(gs, InInventory(inv));
    EntriesAt(gs, hs, inv, parents);
    g :| g in parents && g.name == key;
  }

  lemma GroupLists(gs: seq<Group>, hs: seq<Host>, inv: Id, g: Group, h: Host)
    requires Named(gs, hs, inv) && g in Where(gs, InInventory(inv)) && h in hs && h.inventory == inv
    ensures multiset(Listed(EntryOf(gs, hs, inv, g)))[h.name] == if Home(gs, inv, h, g.name) then 1 else 0
  {
    hide DistinctBy, Map;
    NameCount(hs, inv, HostInGroup(inv, g.id), h);
    HomeGroup(gs, inv, h, g);
  }

  /** Each host is listed exactly once under its own key and never under another. */
  lemma HostPartition(gs: seq<Group>, hs: seq<Host>, inv: Id, withVars: bool, h: Host, key: string)
    requires Named(gs, hs, inv) && ScriptOf(gs, hs, inv, withVars).Some?
    requires h in hs && h.inventory == inv
    requires key in ScriptOf(gs, hs, inv, withVars).value
    ensures multiset(Listed(ScriptOf(gs, hs, inv, withVars).value[key]))[h.name] == if Home(gs, inv, h, key) then 1 else 0
  {
    hide DistinctBy, Where, Map, GroupEntries, HostVars, Grouped, EntryOf;
    if key == "all" {
      NameCount(hs, inv, Ungrouped(inv), h);
    } else if key != "_meta" {
      var g := GroupAt(gs, hs, inv, withVars, key);
      GroupLists(gs, hs, inv, g, h);
    } else {
      MetaIsExact(gs, hs, inv, withVars);
    }
  }

  lemma HomeGroup(gs: seq<Group>, inv: Id, h: Host, g: Group)
    requires DistinctGroups(gs) && DistinctBy(Where(gs, InInventory(inv)), GroupName())
    requires g in Where(gs, InInventory(inv)) && g.name != "all"
    ensures Home(gs, inv, h, g.name) <==> h.group == Some(g.id)
  {
    if h.group.Some? {
      forall k | k in gs && k.inventory == inv && k.name == g.name
        ensures k == g
      {
        assert k in Where(gs, InInventory(inv));
        SameKey(Where(gs, InInventory(inv)), GroupName(), k, g);
      }
    }
  }

  /** A host that has a key is listed: the keys that occur in `Home` occur in the answer. */
  lemma HomeIsListed(gs: seq<Group>, hs: seq<Host>, inv: Id, withVars: bool, h: Host, key: string)
    requires Named(gs, hs, inv) && ScriptOf(gs, hs, inv, withVars).Some?
    requires Home(gs, inv, h, key)
    ensures key in ScriptOf(gs, hs, inv, withVars).value
  {
    EntriesAt(gs, hs, inv, Where(gs, InInventory(inv)));
    if h.group.Some? {
      var g :| g in gs && g.inventory == inv && g.id == h.group.value && g.name == key;
      assert g in Where(gs, InInventory(inv));
    }
  }

  lemma {:induction false} GroupedMember(hs: seq<Host>, inv: Id, list: seq<Group>, h: Host)
    ensures h in Grouped(hs, inv, list)
            <==> h in hs && h.inventory == inv && h.group.Some? && exists g :: g in list && g.id == h.group.value
    decreases |list|
  {
    if list != [] {
      var front, last := list[..|list|-1], list[|list|-1];
      GroupedMember(hs, inv, front, h);
      assert forall g :: g in list <==> g in front || g == last;
    }
  }

  lemma {:induction false} HostVarsAt(list: seq<Host>)
    requires forall a, b :: a in list && b in list && a.name == b.name ==> a == b
    ensures forall n :: n in HostVars(list) <==> exists h :: h in list && h.name == n && h.variables.Json?
    ensures forall h :: h in list && h.variables.Json? ==> h.name in HostVars(list) && HostVars(list)[h.name] == h.variables.value
    decreases |list|
  {
    if list != [] {
      var front, last := list[..|list|-1], list[|list|-1];
      assert forall h :: h in list <==> h in front || h == last;
      HostVarsAt(front);
    }
  }

  /** When there is an answer at all: unless the text of a group of the inventory, or of one of
      its hosts that is listed, does not parse. */
  lemma ScriptAnswers(gs: seq<Group>, hs: seq<Host>, inv: Id, withVars: bool)
    ensures ScriptOf(gs, hs, inv, withVars).Some?
            <==> && (forall g :: g in gs && g.inventory == inv ==> g.variables != Malformed)
                 && (forall h :: h in hs && h.inventory == inv && Homed(gs, inv, h) ==> h.variables != Malformed)
  {
    var parents := Where(gs, InInventory(inv));
    var listed := Grouped(hs, inv, parents) + Where(hs, Ungrouped(inv));
    forall h: Host
      ensures h in listed <==> h in hs && h.inventory == inv && Homed(gs, inv, h)
    {
      GroupedMember(hs, inv, parents, h);
    }
  }

  /** When asked for, `hostvars` holds exactly the listed hosts with variables, each with
      its own; and the answer has no `_meta` otherwise. */
  lemma MetaIsExact(gs: seq<Group>, hs: seq<Host>, inv: Id, withVars: bool)
    requires Named(gs, hs, inv) && ScriptOf(gs, hs, inv, withVars).Some?
    ensures var resp := ScriptOf(gs, hs, inv, withVars).value;
            && ("_meta" in resp <==> withVars)
            && (withVars ==>
                  resp["_meta"].MetaEntry?
                  && forall n :: n in resp["_meta"].hostvars <==>
                       exists h :: h in hs && h.inventory == inv && h.name == n && h.variables.Json? && Homed(gs, inv, h))
            && (withVars ==>
                  forall h :: h in hs && h.inventory == inv && h.variables.Json? && Homed(gs, inv, h) ==>
                    h.name in resp["_meta"].hostvars && resp["_meta"].hostvars[h.name] == h.variables.value)
  {
    var parents := Where(gs, InInventory(inv));
    var listed := Grouped(hs, inv, parents) + Where(hs, Ungrouped(inv));
    EntriesAt(gs, hs, inv, parents);
    forall h: Host
      ensures h in listed <==> h in hs && h.inventory == inv && Homed(gs, inv, h)
    {
      GroupedMember(hs, inv, parents, h);
    }
    forall a, b | a in listed && b in listed && a.name == b.name
      ensures a == b
    {
      assert a in Where(hs, HostIn(inv)) && b in Where(hs, HostIn(inv));
      SameKey(Where(hs, HostIn(inv)), HostName(), a, b);
    }
    HostVarsAt(listed);
  }

  function MetaVars(resp: map<string, Entry>): map<string, string> {
    if "_meta" in resp && resp["_meta"].MetaEntry? then resp["_meta"].hostvars else map[]
  }

  /** The two ways to ask agree on a listed host exactly when the first host of its name in
      any inventory has the same variables: what `_meta` says, or an error if it says nothing. */
  lemma HostAgreesWithMeta(gs: seq<Group>, hs: seq<Host>, inv: Id, h: Host)
    requires Named(gs, hs, inv) && ScriptOf(gs, hs, inv, true).Some?
    requires h in hs && h.inventory == inv && Homed(gs, inv, h)
    ensures var vars := MetaVars(ScriptOf(gs, hs, inv, true).value);
            && FirstNamed(hs, h.name).Some?
            && (HostAnswerOf(hs, h.name) == (if h.name in vars then Variables(vars[h.name]) else Unparsable)
                <==> ValueOf(FirstNamed(hs, h.name).value.variables) == ValueOf(h.variables))
  {
    hide Named, ScriptOf, Homed;
    MetaIsExact(gs, hs, inv, true);
    OwnName(gs, hs, inv, h);
    assert FirstNamed(hs, h.name) != None;
  }

  lemma OwnName(gs: seq<Group>, hs: seq<Host>, inv: Id, h: Host)
    requires Named(gs, hs, inv) && h in hs && h.inventory == inv
    ensures forall k :: k in hs && k.inventory == inv && k.name == h.name ==> k == h
  {
    forall k | k in hs && k.inventory == inv && k.name == h.name
      ensures k == h
    {
      assert k in Where(hs, HostIn(inv)) && h in Where(hs, HostIn(inv));
      SameKey(Where(hs, HostIn(inv)), HostName(), k, h);
    }
  }

  ghost predicate Homed(gs: seq<Group>, inv: Id, h: Host) {
    h.group == None || exists g :: g in gs && g.inventory == inv && g.id == h.group.value
  }

  /** When every host shares its group's inventory, every host of the inventory has a key. */
  lemma SharingHostsAreListed(gs: seq<Group>, inv: Id, h: Host)
    requires h.inventory == inv
    requires h.group.Some? ==> exists g :: g in gs && g.id == h.group.value && g.inventory == h.inventory
    ensures exists key :: Home(gs, inv, h, key)
  {
    if h.group == None {
      assert Home(gs, inv, h, "all");
    } else {
      var g :| g in gs && g.id == h.group.value && g.inventory == h.inventory;
      assert Home(gs, inv, h, g.name);
    }
  }

  // ---- The groups ----

  lemma ChildrenDistinct(gs: seq<Group>, inv: Id, gid: Id)
    requires DistinctBy(Where(gs, InInventory(inv)), GroupName())
    ensures DistinctBy(Where(gs, ChildIn(inv, gid)), GroupName())
  {
    WhereWhere(gs, InInventory(inv), ChildIn(inv, gid), ChildIn(inv, gid));
    WhereDistinct(Where(gs, InInventory(inv)), ChildIn(inv, gid), GroupName());
  }

  /** How often a group is listed among the children of another. */
  lemma ChildCount(gs: seq<Group>, inv: Id, gid: Id, c: Group)
    requires DistinctBy(Where(gs, InInventory(inv)), GroupName())
    requires c in gs && c.inventory == inv
    ensures multiset(Map(Where(gs, ChildIn(inv, gid)), GroupName()))[c.name] == if c.parent == Some(gid) then 1 else 0
  {
    ChildrenDistinct(gs, inv, gid);
    var found := Where(gs, ChildIn(inv, gid));
    MapCount(found, GroupName(), c.name);
    if c.parent == Some(gid) {
      assert c in found && GroupName()(c) == c.name;
    } else {
      forall d | d in found
        ensures GroupName()(d) != c.name
      {
        if d.name == c.name {
          SameKey(Where(gs, InInventory(inv)), GroupName(), d, c);
        }
      }
    }
  }

  /** Every group of the inventory has its own entry, and a group is listed as a child
      exactly once under its own parent and under no other group. */
  lemma GroupPartition(gs: seq<Group>, hs: seq<Host>, inv: Id, withVars: bool, g: Group, c: Group)
    requires Named(gs, hs, inv) && ScriptOf(gs, hs, inv, withVars).Some?
    requires g in gs && g.inventory == inv && c in gs && c.inventory == inv
    ensures var resp := ScriptOf(gs, hs, inv, withVars).value;
            && g.name in resp && resp[g.name].GroupEntry? && resp[g.name].vars == g.variables
            && multiset(resp[g.name].children)[c.name] == if c.parent == Some(g.id) then 1 else 0
  {
    hide DistinctBy, Map, GroupEntries, HostVars, Grouped;
    EntriesAt(gs, hs, inv, Where(gs, InInventory(inv)));
    assert g in Where(gs, InInventory(inv));
    ChildCount(gs, inv, g.id, c);
  }

  /** The children that the script lists for a group. */
  function ScriptChildren(resp: map<string, Entry>, name: string): seq<string> {
    if name in resp && resp[name].GroupEntry? then resp[name].children else []
  }

  /** A group stands directly under another in the tree. */
  ghost predicate TreeChild(gs: seq<Group>, g: Group, depth: nat, c: Group) {
    exists i :: 0 <= i < |Branch(gs, g, depth).children| && Branch(gs, g, depth).children[i].group == c
  }

  lemma TreeChildIs(gs: seq<Group>, g: Group, depth: nat, c: Group)
    requires depth > 0
    ensures TreeChild(gs, g, depth, c) <==> c in gs && c.parent == Some(g.id)
  {
    var kids := Kids(gs, g.id);
    BranchesTop(gs, kids, depth - 1);
    var nodes := Branches(gs, kids, depth - 1);
    assert Branch(gs, g, depth).children == nodes;
    if c in kids {
      var i :| 0 <= i < |kids| && kids[i] == c;
      assert nodes[i].group == c;
    }
  }

  /** The two renderings agree: wherever the tree shows the groups below a group, it shows
      exactly those that the script lists as its children. */
  lemma TreeAgreesWithScript(gs: seq<Group>, hs: seq<Host>, inv: Id, withVars: bool, g: Group, c: Group, depth: nat)
    requires Named(gs, hs, inv) && ScriptOf(gs, hs, inv, withVars).Some?
    requires g in gs && g.inventory == inv && c in gs && c.inventory == inv && depth > 0
    ensures TreeChild(gs, g, depth, c) <==> c.name in ScriptChildren(ScriptOf(gs, hs, inv, withVars).value, g.name)
  {
    hide Named, ScriptOf, TreeChild;
    GroupPartition(gs, hs, inv, withVars, g, c);
    TreeChildIs(gs, g, depth, c);
    var names := ScriptChildren(ScriptOf(gs, hs, inv, withVars).value, g.name);
    assert c.name in names <==> multiset(names)[c.name] > 0;
  }
}
