/** Which groups the EC2 script puts an instance and a replication group in, and what that
    means for the whole inventory: whether every child is a group and every host is known. */
module CloudGroups {
  import opened Common
  import opened Texts
  import opened CloudInventory

  /** The options that turn the groupings on. */
  datatype Config = Config(
    byId: bool, byRegion: bool, byZone: bool, byAmi: bool, byType: bool, byKeyPair: bool, byVpc: bool,
    bySecurityGroup: bool, byTagKeys: bool, expandCsv: bool, byRoute53: bool, byTagNone: bool, byEngine: bool,
    nested: bool)

  datatype Tag = Tag(key: string, value: string)

  /** Absent texts are empty. */
  datatype Instance = Instance(
    id: string, region: string, placement: string, image: string, size: string, keyName: string, vpc: string,
    securityGroups: seq<string>, tags: seq<Tag>, route53: seq<string>)

  /** `to_safe`, which replaces characters that are not allowed in group names. */
  type Safe = string -> string

  /** A group that holds the host, and the group it is nested in. */
  function Grouping(cfg: Config, name: string, group: string, parent: string): seq<Op> {
    [Push(group, name)] + if cfg.nested then [PushGroup(parent, group)] else []
  }

  function SecurityGroupOps(cfg: Config, safe: Safe, name: string, groups: seq<string>): seq<Op> {
    if groups == [] then []
    else
      SecurityGroupOps(cfg, safe, name, groups[..|groups|-1])
      + Grouping(cfg, name, safe("security_group_" + groups[|groups|-1]), "security_groups")
  }

  function Route53Ops(cfg: Config, name: string, names: seq<string>): seq<Op> {
    if names == [] then []
    else Route53Ops(cfg, name, names[..|names|-1]) + Grouping(cfg, name, names[|names|-1], "route53")
  }

  /** The values of a tag: separated by commas, without surrounding blanks, if so configured. */
  function TagValues(cfg: Config, value: string): seq<string> {
    if cfg.expandCsv && ',' in value then Stripped(SplitCommas(value)) else [value]
  }

  function Stripped(values: seq<string>): seq<string> {
    if values == [] then [] else [Trim(values[0])] + Stripped(values[1..])
  }

  function TagValueOps(cfg: Config, safe: Safe, name: string, key: string, values: seq<string>): seq<Op> {
    if values == [] then []
    else TagValueOps(cfg, safe, name, key, values[..|values|-1]) + OneValueOps(cfg, safe, name, key, values[|values|-1])
  }

  function OneValueOps(cfg: Config, safe: Safe, name: string, key: string, v: string): seq<Op> {
    var group := if v != "" then safe("tag_" + key + "=" + v) else safe("tag_" + key);
    [Push(group, name)]
    + (if cfg.nested
       then [PushGroup("tags", safe("tag_" + key))] + (if v != "" then [PushGroup(safe("tag_" + key), group)] else [])
       else [])
  }

  function TagOps(cfg: Config, safe: Safe, name: string, tags: seq<Tag>): seq<Op> {
    if tags == [] then []
    else
      var tag := tags[|tags|-1];
      TagOps(cfg, safe, name, tags[..|tags|-1]) + TagValueOps(cfg, safe, name, tag.key, TagValues(cfg, tag.value))
  }

  function When(c: bool, ops: seq<Op>): seq<Op> {
    if c then ops else []
  }

  /** The group of one host. */
  function OwnGroup(cfg: Config, name: string, id: string): seq<Op> {
    When(cfg.byId, [Alone(id, name)] + When(cfg.nested, [PushGroup("instances", id)]))
  }

  function ZoneOps(cfg: Config, name: string, region: string, zone: string): seq<Op> {
    [Push(zone, name)] + When(cfg.nested, When(cfg.byRegion, [PushGroup(region, zone)]) + [PushGroup("zones", zone)])
  }

  /** What `add_instance` writes to the groups for an instance with this host name. */
  function InstanceOps(cfg: Config, safe: Safe, inst: Instance, name: string): seq<Op> {
    Joined(GeneralParts(cfg, safe, inst, name)) + Joined(SpecialParts(cfg, safe, inst, name))
  }

  function GeneralParts(cfg: Config, safe: Safe, inst: Instance, name: string): seq<seq<Op>> {
    [OwnGroup(cfg, name, inst.id),
     When(cfg.byRegion, Grouping(cfg, name, inst.region, "regions")),
     When(cfg.byZone, ZoneOps(cfg, name, inst.region, inst.placement)),
     When(cfg.byAmi, Grouping(cfg, name, safe(inst.image), "images")),
     When(cfg.byType, Grouping(cfg, name, safe("type_" + inst.size), "types")),
     When(cfg.byKeyPair && inst.keyName != "", Grouping(cfg, name, safe("key_" + inst.keyName), "keys"))]
  }

  function SpecialParts(cfg: Config, safe: Safe, inst: Instance, name: string): seq<seq<Op>> {
    [When(cfg.byVpc && inst.vpc != "", Grouping(cfg, name, safe("vpc_id_" + inst.vpc), "vpcs")),
     When(cfg.bySecurityGroup, SecurityGroupOps(cfg, safe, name, inst.securityGroups)),
     When(cfg.byTagKeys, TagOps(cfg, safe, name, inst.tags)),
     When(cfg.byRoute53, Route53Ops(cfg, name, inst.route53)),
     When(cfg.byTagNone && inst.tags == [], Grouping(cfg, name, "tag_none", "tags")),
     [Push("ec2", name)]]
  }

  function Joined(parts: seq<seq<Op>>): seq<Op> {
    if parts == [] then [] else Joined(parts[..|parts|-1]) + parts[|parts|-1]
  }

  /** What `add_elasticache_replication_group` writes. The nested engine group is not the one
      the host is in, and the last group gets the id, not the host name. */
  function ReplicationGroupOps(cfg: Config, region: string, id: string, name: string): seq<Op> {
    OwnGroup(cfg, name, id)
    + When(cfg.byRegion, Grouping(cfg, name, region, "regions"))
    + When(cfg.byEngine, [Push("elasticache_redis", name)] + When(cfg.nested, [PushGroup("elasticache_engines", "redis")]))
    + [Push("elasticache_replication_groups", id)]
  }

  // ---- Sound operations ----

  /** Every host that the operations put in a group is the given one. */
  ghost predicate Own(ops: seq<Op>, name: string) {
    forall op :: op in ops && !op.PushGroup? ==> op.element == name
  }

  /** Every child that the operations add is a group that they write to. */
  ghost predicate Grounded(ops: seq<Op>) {
    forall op :: op in ops && op.PushGroup? ==> exists other :: other in ops && other.key == op.element
  }

  ghost predicate Fits(ops: seq<Op>, name: string) {
    Own(ops, name) && Grounded(ops)
  }

  lemma FitsConcat(a: seq<Op>, b: seq<Op>, name: string)
    requires Fits(a, name) && Fits(b, name)
    ensures Fits(a + b, name)
  {
    forall op | op in a + b && op.PushGroup?
      ensures exists other :: other in a + b && other.key == op.element
    {
      if op in a {
        var other :| other in a && other.key == op.element;
        assert other in a + b;
      } else {
        var other :| other in b && other.key == op.element;
        assert other in a + b;
      }
    }
  }

  lemma GroupingFits(cfg: Config, name: string, group: string, parent: string)
    ensures Fits(Grouping(cfg, name, group, parent), name)
  {
    assert Push(group, name) in Grouping(cfg, name, group, parent);
  }

  lemma OwnGroupFits(cfg: Config, name: string, id: string)
    ensures Fits(OwnGroup(cfg, name, id), name)
  {
    if cfg.byId {
      assert Alone(id, name) in OwnGroup(cfg, name, id);
    }
  }

  lemma ZoneFits(cfg: Config, name: string, region: string, zone: string)
    ensures Fits(ZoneOps(cfg, name, region, zone), name)
  {
    assert Push(zone, name) in ZoneOps(cfg, name, region, zone);
  }

  lemma OneValueFits(cfg: Config, safe: Safe, name: string, key: string, v: string)
    ensures Fits(OneValueOps(cfg, safe, name, key, v), name)
  {
    var ops := OneValueOps(cfg, safe, name, key, v);
    var group := if v != "" then safe("tag_" + key + "=" + v) else safe("tag_" + key);
    assert Push(group, name) in ops;
    if cfg.nested && v != "" {
      assert PushGroup(safe("tag_" + key), group) in ops;
    }
  }

  lemma {:induction false} TagValueFits(cfg: Config, safe: Safe, name: string, key: string, values: seq<string>)
    ensures Fits(TagValueOps(cfg, safe, name, key, values), name)
    decreases |values|
  {
    if values != [] {
      TagValueFits(cfg, safe, name, key, values[..|values|-1]);
      OneValueFits(cfg, safe, name, key, values[|values|-1]);
      FitsConcat(TagValueOps(cfg, safe, name, key, values[..|values|-1]), OneValueOps(cfg, safe, name, key, values[|values|-1]), name);
    }
  }

  lemma {:induction false} TagsFit(cfg: Config, safe: Safe, name: string, tags: seq<Tag>)
    ensures Fits(TagOps(cfg, safe, name, tags), name)
    decreases |tags|
  {
    if tags != [] {
      var tag := tags[|tags|-1];
      TagsFit(cfg, safe, name, tags[..|tags|-1]);
      TagValueFits(cfg, safe, name, tag.key, TagValues(cfg, tag.value));
      FitsConcat(TagOps(cfg, safe, name, tags[..|tags|-1]), TagValueOps(cfg, safe, name, tag.key, TagValues(cfg, tag.value)), name);
    }
  }

  lemma {:induction false} SecurityGroupsFit(cfg: Config, safe: Safe, name: string, groups: seq<string>)
    ensures Fits(SecurityGroupOps(cfg, safe, name, groups), name)
    decreases |groups|
  {
    if groups != [] {
      var group := safe("security_group_" + groups[|groups|-1]);
      SecurityGroupsFit(cfg, safe, name, groups[..|groups|-1]);
      GroupingFits(cfg, name, group, "security_groups");
      FitsConcat(SecurityGroupOps(cfg, safe, name, groups[..|groups|-1]), Grouping(cfg, name, group, "security_groups"), name);
    }
  }

  lemma {:induction false} Route53Fits(cfg: Config, name: string, names: seq<string>)
    ensures Fits(Route53Ops(cfg, name, names), name)
    decreases |names|
  {
    if names != [] {
      Route53Fits(cfg, name, names[..|names|-1]);
      GroupingFits(cfg, name, names[|names|-1], "route53");
      FitsConcat(Route53Ops(cfg, name, names[..|names|-1]), Grouping(cfg, name, names[|names|-1], "route53"), name);
    }
  }

  lemma {:induction false} AllFit(parts: seq<seq<Op>>, name: string)
    requires forall part :: part in parts ==> Fits(part, name)
    ensures Fits(Joined(parts), name)
    decreases |parts|
  {
    if parts != [] {
      AllFit(parts[..|parts|-1], name);
      FitsConcat(Joined(parts[..|parts|-1]), parts[|parts|-1], name);
    }
  }

  lemma WhenFits(c: bool, ops: seq<Op>, name: string)
    requires Fits(ops, name)
    ensures Fits(When(c, ops), name)
  {
  }

  /** For an instance it is always so, whatever the options. */
  lemma InstanceFits(cfg: Config, safe: Safe, inst: Instance, name: string)
    ensures Fits(InstanceOps(cfg, safe, inst, name), name)
  {
    hide Fits, Joined;
    GeneralFits(cfg, safe, inst, name);
    SpecialFits(cfg, safe, inst, name);
    FitsConcat(Joined(GeneralParts(cfg, safe, inst, name)), Joined(SpecialParts(cfg, safe, inst, name)), name);
  }

  lemma GeneralFits(cfg: Config, safe: Safe, inst: Instance, name: string)
    ensures Fits(Joined(GeneralParts(cfg, safe, inst, name)), name)
  {
    hide Fits, When, Grouping, OwnGroup, ZoneOps, Joined;
    OwnGroupFits(cfg, name, inst.id);
    SomeGrouping(cfg.byRegion, cfg, name, inst.region, "regions");
    ZoneFits(cfg, name, inst.region, inst.placement);
    WhenFits(cfg.byZone, ZoneOps(cfg, name, inst.region, inst.placement), name);
    SomeGrouping(cfg.byAmi, cfg, name, safe(inst.image), "images");
    SomeGrouping(cfg.byType, cfg, name, safe("type_" + inst.size), "types");
    SomeGrouping(cfg.byKeyPair && inst.keyName != "", cfg, name, safe("key_" + inst.keyName), "keys");
    AllFit(GeneralParts(cfg, safe, inst, name), name);
  }

  lemma SpecialFits(cfg: Config, safe: Safe, inst: Instance, name: string)
    ensures Fits(Joined(SpecialParts(cfg, safe, inst, name)), name)
  {
    hide Fits, When, Grouping, SecurityGroupOps, TagOps, Route53Ops, Joined;
    SomeGrouping(cfg.byVpc && inst.vpc != "", cfg, name, safe("vpc_id_" + inst.vpc), "vpcs");
    SecurityGroupsFit(cfg, safe, name, inst.securityGroups);
    WhenFits(cfg.bySecurityGroup, SecurityGroupOps(cfg, safe, name, inst.securityGroups), name);
    TagsFit(cfg, safe, name, inst.tags);
    WhenFits(cfg.byTagKeys, TagOps(cfg, safe, name, inst.tags), name);
    Route53Fits(cfg, name, inst.route53);
    WhenFits(cfg.byRoute53, Route53Ops(cfg, name, inst.route53), name);
    SomeGrouping(cfg.byTagNone && inst.tags == [], cfg, name, "tag_none", "tags");
    OnePushFits("ec2", name);
    AllFit(SpecialParts(cfg, safe, inst, name), name);
  }

  lemma SomeGrouping(c: bool, cfg: Config, name: string, group: string, parent: string)
    ensures Fits(When(c, Grouping(cfg, name, group, parent)), name)
  {
    GroupingFits(cfg, name, group, parent);
  }

  lemma OnePushFits(group: string, name: string)
    ensures Fits([Push(group, name)], name)
  {
  }

  // ---- The whole inventory ----

  /** Every host that a group lists has variables. */
  ghost predicate HostsKnown(inv: Inventory) {
    forall key, host :: host in HostsAt(inv, key) ==> HasVars(inv, host)
  }

  predicate HasVars(inv: Inventory, host: string) {
    HostVars(inv).Some? && host in HostVars(inv).value
  }

  /** The operation is made, and no later one assigns its key. */
  predicate Leaves(ops: seq<Op>, op: Op) {
    ops != []
    && var front, last := ops[..|ops|-1], ops[|ops|-1];
       last == op || (Leaves(front, op) && !(last.Alone? && last.key == op.key))
  }

  predicate Assigned(ops: seq<Op>, key: string) {
    exists op :: op in ops && op.Alone? && op.key == key
  }

  predicate Writes(ops: seq<Op>, key: string) {
    exists op :: op in ops && op.key == key
  }

  predicate LeavesHost(ops: seq<Op>, key: string, host: string) {
    Leaves(ops, Push(key, host)) || Leaves(ops, Alone(key, host))
  }

  /** What is in the inventory after some operations: what they leave, and what was there
      under keys that they do not assign. */
  lemma {:induction false} RunEffects(inv: Inventory, ops: seq<Op>, key: string, x: string)
    ensures key in Run(inv, ops) <==> key in inv || Writes(ops, key)
    ensures x in ChildrenAt(Run(inv, ops), key)
            <==> (x in ChildrenAt(inv, key) && !Assigned(ops, key)) || Leaves(ops, PushGroup(key, x))
    ensures x in HostsAt(Run(inv, ops), key)
            <==> (x in HostsAt(inv, key) && !Assigned(ops, key)) || LeavesHost(ops, key, x)
    decreases |ops|
  {
    if ops != [] {
      var front, last := ops[..|ops|-1], ops[|ops|-1];
      RunEffects(inv, front, key, x);
      assert forall op :: op in ops <==> op in front || op == last;
      assert Assigned(ops, key) <==> Assigned(front, key) || (last.Alone? && last.key == key);
      OneEffect(Run(inv, front), last, key, x);
    }
  }

  lemma OneEffect(inv: Inventory, op: Op, key: string, x: string)
    ensures key in Apply(inv, op) <==> key in inv || op.key == key
    ensures x in ChildrenAt(Apply(inv, op), key)
            <==> (x in ChildrenAt(inv, key) && !(op.Alone? && op.key == key)) || op == PushGroup(key, x)
    ensures x in HostsAt(Apply(inv, op), key)
            <==> (x in HostsAt(inv, key) && !(op.Alone? && op.key == key)) || op == Push(key, x) || op == Alone(key, x)
  {
  }

  lemma {:induction false} LeavesOnly(ops: seq<Op>, op: Op)
    ensures Leaves(ops, op) ==> op in ops
    decreases |ops|
  {
    if ops != [] {
      LeavesOnly(ops[..|ops|-1], op);
    }
  }

  /** Every child that the operations leave is a group then. */
  ghost predicate ChildrenGrounded(inv: Inventory, ops: seq<Op>) {
    forall key, child :: Leaves(ops, PushGroup(key, child)) ==> child in inv || Writes(ops, child)
  }

  /** Every host that they leave has variables, or is the one that gets them. */
  ghost predicate HostsGrounded(inv: Inventory, ops: seq<Op>, name: string) {
    forall key, host :: LeavesHost(ops, key, host) ==> host == name || HasVars(inv, host)
  }

  /** When an add method keeps every child a group and every listed host known. */
  lemma AddedIsExact(s: State, r: Resource)
    requires NoDangling(s.inventory) && HostsKnown(s.inventory)
    requires r.wanted && Added(s, r).Some?
    ensures NoDangling(Added(s, r).value.inventory) <==> ChildrenGrounded(s.inventory, r.ops)
    ensures HostsKnown(Added(s, r).value.inventory) <==> HostsGrounded(s.inventory, r.ops, r.name)
  {
    MetaWritten(s, r);
    MetaKept(s.inventory, r.ops);
    hide Run, Leaves, LeavesHost, Writes, Assigned, HostsAt, ChildrenAt, Added, HostVars;
    var inv, end := Run(s.inventory, r.ops), Added(s, r).value.inventory;
    assert forall host :: HasVars(end, host) <==> host == r.name || HasVars(s.inventory, host);
    forall key
      ensures key in end <==> key in s.inventory || Writes(r.ops, key)
    {
      RunEffects(s.inventory, r.ops, key, "");
    }
    forall key, x
      ensures x in ChildrenAt(end, key)
              <==> (x in ChildrenAt(s.inventory, key) && !Assigned(r.ops, key)) || Leaves(r.ops, PushGroup(key, x))
      ensures x in HostsAt(end, key)
              <==> (x in HostsAt(s.inventory, key) && !Assigned(r.ops, key)) || LeavesHost(r.ops, key, x)
    {
      RunEffects(s.inventory, r.ops, key, x);
    }
    assert NoDangling(end) ==> forall key, x :: Leaves(r.ops, PushGroup(key, x)) ==> x in ChildrenAt(end, key) && x in end;
    assert HostsKnown(end) ==> forall key, x :: LeavesHost(r.ops, key, x) ==> x in HostsAt(end, key) && HasVars(end, x);
  }

  /** An add method whose operations fit keeps children groups and hosts known. */
  lemma AddedKeeps(s: State, r: Resource)
    requires NoDangling(s.inventory) && HostsKnown(s.inventory)
    requires r.wanted ==> Fits(r.ops, r.name)
    requires Added(s, r).Some?
    ensures NoDangling(Added(s, r).value.inventory) && HostsKnown(Added(s, r).value.inventory)
  {
    if r.wanted {
      AddedIsExact(s, r);
      hide Leaves, NoDangling, HostsKnown, Added;
      forall op
        ensures Leaves(r.ops, op) ==> op in r.ops
      {
        LeavesOnly(r.ops, op);
      }
    }
  }

  /** The last step of an add method changes the host variables and nothing else. */
  lemma MetaWritten(s: State, r: Resource)
    requires r.wanted && Added(s, r).Some?
    ensures var inv, end := Run(s.inventory, r.ops), Added(s, r).value.inventory;
            && end.Keys == inv.Keys
            && (forall key :: ChildrenAt(end, key) == ChildrenAt(inv, key) && HostsAt(end, key) == HostsAt(inv, key))
            && HostVars(inv).Some? && HostVars(end) == Some(HostVars(inv).value[r.name := r.vars])
  {
  }

  /** Every child is a group and every listed host has variables. */
  ghost predicate InOrder(s: State) {
    NoDangling(s.inventory) && HostsKnown(s.inventory)
  }

  lemma StartIsEmpty(key: string)
    ensures ChildrenAt(START.inventory, key) == [] && HostsAt(START.inventory, key) == []
  {
    if key == META {
      assert At(START.inventory, key) == Some(Group(None, None, Some(map[])));
    } else {
      assert At(START.inventory, key) == None;
    }
  }

  lemma StartKeeps()
    ensures InOrder(START)
  {
    hide ChildrenAt, HostsAt;
    forall key
      ensures ChildrenAt(START.inventory, key) == [] && HostsAt(START.inventory, key) == []
    {
      StartIsEmpty(key);
    }
  }

  /** So it is after every resource of the run. */
  ghost predicate AlwaysInOrder(rs: seq<Resource>)
    decreases |rs|
  {
    && AddedAll(rs).Some? && InOrder(AddedAll(rs).value)
    && (rs != [] ==> AlwaysInOrder(rs[..|rs|-1]))
  }

  ghost predicate Grounding(s: State, r: Resource) {
    r.wanted ==> ChildrenGrounded(s.inventory, r.ops) && HostsGrounded(s.inventory, r.ops, r.name)
  }

  ghost predicate AllGrounding(rs: seq<Resource>)
    requires AddedAll(rs).Some?
    decreases |rs|
  {
    rs != [] ==> AllGrounding(rs[..|rs|-1]) && Grounding(AddedAll(rs[..|rs|-1]).value, rs[|rs|-1])
  }

  lemma InOrderStep(s: State, r: Resource)
    requires InOrder(s) && Added(s, r).Some?
    ensures InOrder(Added(s, r).value) <==> Grounding(s, r)
    ensures (r.wanted ==> Fits(r.ops, r.name)) ==> InOrder(Added(s, r).value)
  {
    if r.wanted {
      AddedIsExact(s, r);
      if Fits(r.ops, r.name) {
        AddedKeeps(s, r);
      }
    }
  }

  /** A run of add methods that does not raise keeps the inventory in order all the way exactly
      when every one of them is grounded; those whose operations fit, as the operations of
      instances do, always are. */
  lemma {:induction false} RunsKeepInventory(rs: seq<Resource>)
    requires AddedAll(rs).Some?
    ensures AlwaysInOrder(rs) <==> AllGrounding(rs)
    ensures (forall r :: r in rs && r.wanted ==> Fits(r.ops, r.name)) ==> AlwaysInOrder(rs)
    decreases |rs|
  {
    hide Fits, Added, InOrder, Grounding;
    if rs == [] {
      StartKeeps();
    } else {
      RunsKeepInventory(rs[..|rs|-1]);
      if AlwaysInOrder(rs[..|rs|-1]) {
        InOrderStep(AddedAll(rs[..|rs|-1]).value, rs[|rs|-1]);
      }
    }
  }

  /** The operations that a replication group leaves behind last. */
  function ReplicationTail(cfg: Config, id: string, name: string): seq<Op> {
    When(cfg.byEngine, [Push("elasticache_redis", name)] + When(cfg.nested, [PushGroup("elasticache_engines", "redis")]))
    + [Push("elasticache_replication_groups", id)]
  }

  lemma {:induction false} LeavesConcat(a: seq<Op>, b: seq<Op>, op: Op)
    ensures Leaves(b, op) ==> Leaves(a + b, op)
    ensures Leaves(a + b, op) ==> Leaves(a, op) || Leaves(b, op)
    decreases |b|
  {
    if b == [] {
      assert a + b == a;
    } else {
      assert (a + b)[..|a + b|-1] == a + b[..|b|-1];
      LeavesConcat(a, b[..|b|-1], op);
    }
  }

  lemma {:induction false} NothingAssigned(ops: seq<Op>, op: Op)
    requires forall other :: other in ops ==> !other.Alone?
    ensures Leaves(ops, op) <==> op in ops
    decreases |ops|
  {
    if ops != [] {
      assert ops == ops[..|ops|-1] + [ops[|ops|-1]];
      NothingAssigned(ops[..|ops|-1], op);
    }
  }

  lemma ReplicationLeaves(head: seq<Op>, cfg: Config, id: string, name: string, op: Op)
    ensures var tail := ReplicationTail(cfg, id, name);
            && (op in tail ==> Leaves(head + tail, op))
            && (Leaves(head + tail, op) ==> op in head || op in tail)
            && (op in tail
                <==> || op == Push("elasticache_replication_groups", id)
                     || (cfg.byEngine && op == Push("elasticache_redis", name))
                     || (cfg.byEngine && cfg.nested && op == PushGroup("elasticache_engines", "redis")))
  {
    var tail := ReplicationTail(cfg, id, name);
    NothingAssigned(tail, op);
    LeavesConcat(head, tail, op);
    LeavesOnly(head, op);
  }

  /** What a replication group adds to an inventory in which every child is a group and every
      listed host known. With nested groups by engine the child is "redis", which must be a
      group already or be the id or the region; and the id is listed as if it were a host. */
  lemma ReplicationGroupIsExact(s: State, cfg: Config, region: string, id: string, name: string, place: (string, string), vars: string)
    requires NoDangling(s.inventory) && HostsKnown(s.inventory)
    requires Added(s, ReplicationGroup(cfg, region, id, name, place, vars)).Some?
    ensures var end := Added(s, ReplicationGroup(cfg, region, id, name, place, vars)).value.inventory;
            && (NoDangling(end)
                <==> || !(cfg.nested && cfg.byEngine)
                     || "redis" in s.inventory || (cfg.byId && id == "redis") || (cfg.byRegion && region == "redis"))
            && (HostsKnown(end) <==> id == name || HasVars(s.inventory, id))
  {
    var r := ReplicationGroup(cfg, region, id, name, place, vars);
    AddedIsExact(s, r);
    hide NoDangling, HostsKnown, Added, HasVars;
    ReplicationChildren(s.inventory, cfg, region, id, name);
    ReplicationHosts(s.inventory, cfg, region, id, name);
  }

  function ReplicationGroup(cfg: Config, region: string, id: string, name: string, place: (string, string), vars: string): Resource {
    Resource(true, name, place, ReplicationGroupOps(cfg, region, id, name), vars)
  }

  /** Its first operations are in order. */
  function ReplicationHead(cfg: Config, region: string, id: string, name: string): seq<Op> {
    OwnGroup(cfg, name, id) + When(cfg.byRegion, Grouping(cfg, name, region, "regions"))
  }

  lemma HeadFits(cfg: Config, region: string, id: string, name: string)
    ensures Fits(ReplicationHead(cfg, region, id, name), name)
    ensures Writes(ReplicationHead(cfg, region, id, name), "redis")
            <==> (cfg.byId && id == "redis") || (cfg.byRegion && region == "redis")
  {
    OwnGroupFits(cfg, name, id);
    SomeGrouping(cfg.byRegion, cfg, name, region, "regions");
    FitsConcat(OwnGroup(cfg, name, id), When(cfg.byRegion, Grouping(cfg, name, region, "regions")), name);
    var ops := ReplicationHead(cfg, region, id, name);
    assert cfg.byId ==> Alone(id, name) in ops;
    assert cfg.byRegion ==> Push(region, name) in ops;
    assert forall op :: op in ops ==>
        op.key == "instances" || op.key == "regions" || (cfg.byId && op.key == id) || (cfg.byRegion && op.key == region);
  }

  lemma ReplicationSplit(cfg: Config, region: string, id: string, name: string)
    ensures ReplicationGroupOps(cfg, region, id, name) == ReplicationHead(cfg, region, id, name) + ReplicationTail(cfg, id, name)
  {
  }

  lemma ReplicationChildren(inv: Inventory, cfg: Config, region: string, id: string, name: string)
    ensures ChildrenGrounded(inv, ReplicationGroupOps(cfg, region, id, name))
            <==> || !(cfg.nested && cfg.byEngine)
                 || "redis" in inv || (cfg.byId && id == "redis") || (cfg.byRegion && region == "redis")
  {
    var head, tail := ReplicationHead(cfg, region, id, name), ReplicationTail(cfg, id, name);
    var ops := head + tail;
    ReplicationSplit(cfg, region, id, name);
    HeadFits(cfg, region, id, name);
    hide Leaves, ReplicationHead, ReplicationTail, ReplicationGroupOps;
    forall op
      ensures op in tail ==> Leaves(ops, op)
      ensures Leaves(ops, op) ==> op in head || op in tail
      ensures op in tail
              <==> || op == Push("elasticache_replication_groups", id)
                   || (cfg.byEngine && op == Push("elasticache_redis", name))
                   || (cfg.byEngine && cfg.nested && op == PushGroup("elasticache_engines", "redis"))
    {
      ReplicationLeaves(head, cfg, id, name, op);
    }
    assert forall key :: Writes(head, key) ==> Writes(ops, key);
    assert Writes(ops, "redis") <==> Writes(head, "redis");
    assert cfg.nested && cfg.byEngine ==> Leaves(ops, PushGroup("elasticache_engines", "redis"));
  }

  lemma ReplicationHosts(inv: Inventory, cfg: Config, region: string, id: string, name: string)
    ensures HostsGrounded(inv, ReplicationGroupOps(cfg, region, id, name), name) <==> id == name || HasVars(inv, id)
  {
    var head, tail := ReplicationHead(cfg, region, id, name), ReplicationTail(cfg, id, name);
    var ops := head + tail;
    ReplicationSplit(cfg, region, id, name);
    HeadFits(cfg, region, id, name);
    hide Leaves, ReplicationHead, ReplicationTail, ReplicationGroupOps;
    forall op
      ensures op in tail ==> Leaves(ops, op)
      ensures Leaves(ops, op) ==> op in head || op in tail
      ensures op in tail
              <==> || op == Push("elasticache_replication_groups", id)
                   || (cfg.byEngine && op == Push("elasticache_redis", name))
                   || (cfg.byEngine && cfg.nested && op == PushGroup("elasticache_engines", "redis"))
    {
      ReplicationLeaves(head, cfg, id, name, op);
    }
    assert LeavesHost(ops, "elasticache_replication_groups", id);
  }

  /** So a first replication group breaks both unless its id is its host name. */
  lemma ReplicationGroupDangles(cfg: Config, region: string, id: string, name: string, place: (string, string), vars: string)
    requires cfg.nested && cfg.byEngine && id != name
    requires !(cfg.byId && id in {META, "redis"}) && !(cfg.byRegion && region == "redis")
    ensures var r := ReplicationGroup(cfg, region, id, name, place, vars);
            && AddedAll([r]).Some?
            && !NoDangling(AddedAll([r]).value.inventory)
            && !HostsKnown(AddedAll([r]).value.inventory)
  {
    var r := ReplicationGroup(cfg, region, id, name, place, vars);
    assert [r][..0] == [] && AddedAll([r]) == Added(START, r);
    assert !Clobbers(r);
    AddedFails(START, r);
    hide NoDangling, HostsKnown, Added;
    StartKeeps();
    ReplicationGroupIsExact(START, cfg, region, id, name, place, vars);
  }
}
