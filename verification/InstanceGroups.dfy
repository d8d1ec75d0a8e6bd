/** Which groups an instance is listed in, and which groups end up under which, by name. */
module InstanceGroups {
  import opened Common
  import opened Texts
  import opened CloudInventory
  import opened CloudGroups

  // ---- What the options promise ----

  /** A value of a tag: the whole text, or one of its parts between commas without the blanks
      around it. */
  ghost predicate HasValue(cfg: Config, tag: Tag, v: string) {
    if cfg.expandCsv && ',' in tag.value then exists part :: Listed(tag.value, part) && v == Trim(part)
    else v == tag.value
  }

  function TagGroup(safe: Safe, key: string, v: string): string {
    safe(if v == "" then "tag_" + key else "tag_" + key + "=" + v)
  }

  /** The instance is pushed to this group. */
  ghost predicate Pushed(cfg: Config, safe: Safe, inst: Instance, group: string) {
    || group == "ec2"
    || (cfg.byRegion && group == inst.region)
    || (cfg.byZone && group == inst.placement)
    || (cfg.byAmi && group == safe(inst.image))
    || (cfg.byType && group == safe("type_" + inst.size))
    || (cfg.byKeyPair && inst.keyName != "" && group == safe("key_" + inst.keyName))
    || (cfg.byVpc && inst.vpc != "" && group == safe("vpc_id_" + inst.vpc))
    || (cfg.bySecurityGroup && exists sg :: sg in inst.securityGroups && group == safe("security_group_" + sg))
    || (cfg.byTagKeys && exists tag, v :: tag in inst.tags && HasValue(cfg, tag, v) && group == TagGroup(safe, tag.key, v))
    || (cfg.byRoute53 && group in inst.route53)
    || (cfg.byTagNone && inst.tags == [] && group == "tag_none")
  }

  /** With nested groups, this group is put under that one. */
  ghost predicate Nested(cfg: Config, safe: Safe, inst: Instance, parent: string, group: string) {
    || (cfg.byId && parent == "instances" && group == inst.id)
    || (cfg.byRegion && parent == "regions" && group == inst.region)
    || (cfg.byZone && parent == "zones" && group == inst.placement)
    || (cfg.byZone && cfg.byRegion && parent == inst.region && group == inst.placement)
    || (cfg.byAmi && parent == "images" && group == safe(inst.image))
    || (cfg.byType && parent == "types" && group == safe("type_" + inst.size))
    || (cfg.byKeyPair && inst.keyName != "" && parent == "keys" && group == safe("key_" + inst.keyName))
    || (cfg.byVpc && inst.vpc != "" && parent == "vpcs" && group == safe("vpc_id_" + inst.vpc))
    || (cfg.bySecurityGroup && parent == "security_groups"
        && exists sg :: sg in inst.securityGroups && group == safe("security_group_" + sg))
    || (cfg.byTagKeys && exists tag, v :: tag in inst.tags && HasValue(cfg, tag, v)
                                          && NestedTag(safe, tag.key, v, parent, group))
    || (cfg.byRoute53 && parent == "route53" && group in inst.route53)
    || (cfg.byTagNone && inst.tags == [] && parent == "tags" && group == "tag_none")
  }

  /** A tag's key is under "tags", and its group with a value under its key. */
  predicate NestedTag(safe: Safe, key: string, v: string, parent: string, group: string) {
    || (parent == "tags" && group == safe("tag_" + key))
    || (v != "" && parent == safe("tag_" + key) && group == TagGroup(safe, key, v))
  }

  // ---- The operations, part by part ----

  predicate IsGrouping(cfg: Config, name: string, group: string, parent: string, op: Op) {
    op == Push(group, name) || (cfg.nested && op == PushGroup(parent, group))
  }

  lemma GroupingIs(cfg: Config, name: string, group: string, parent: string, op: Op)
    ensures op in Grouping(cfg, name, group, parent) <==> IsGrouping(cfg, name, group, parent, op)
  {
  }

  lemma ZoneIs(cfg: Config, name: string, region: string, zone: string, op: Op)
    ensures op in ZoneOps(cfg, name, region, zone)
            <==> IsGrouping(cfg, name, zone, "zones", op) || (cfg.nested && cfg.byRegion && op == PushGroup(region, zone))
  {
  }

  lemma OwnGroupIs(cfg: Config, name: string, id: string, op: Op)
    ensures op in OwnGroup(cfg, name, id)
            <==> cfg.byId && (op == Alone(id, name) || (cfg.nested && op == PushGroup("instances", id)))
  {
  }

  lemma {:induction false} SecurityGroupsAre(cfg: Config, safe: Safe, name: string, groups: seq<string>, op: Op)
    ensures op in SecurityGroupOps(cfg, safe, name, groups)
            <==> exists sg :: sg in groups && IsGrouping(cfg, name, safe("security_group_" + sg), "security_groups", op)
    decreases |groups|
  {
    if groups != [] {
      hide Grouping, IsGrouping;
      var front, last := groups[..|groups|-1], groups[|groups|-1];
      SecurityGroupsAre(cfg, safe, name, front, op);
      GroupingIs(cfg, name, safe("security_group_" + last), "security_groups", op);
      assert forall sg :: sg in groups <==> sg in front || sg == last;
    }
  }

  lemma {:induction false} Route53Are(cfg: Config, name: string, names: seq<string>, op: Op)
    ensures op in Route53Ops(cfg, name, names) <==> exists n :: n in names && IsGrouping(cfg, name, n, "route53", op)
    decreases |names|
  {
    if names != [] {
      hide Grouping, IsGrouping;
      var front, last := names[..|names|-1], names[|names|-1];
      Route53Are(cfg, name, front, op);
      GroupingIs(cfg, name, last, "route53", op);
      assert forall n :: n in names <==> n in front || n == last;
    }
  }

  predicate IsTag(cfg: Config, safe: Safe, name: string, key: string, v: string, op: Op) {
    op == Push(TagGroup(safe, key, v), name)
    || (cfg.nested && op.PushGroup? && NestedTag(safe, key, v, op.key, op.element))
  }

  lemma OneValueIs(cfg: Config, safe: Safe, name: string, key: string, v: string, op: Op)
    ensures op in OneValueOps(cfg, safe, name, key, v) <==> IsTag(cfg, safe, name, key, v, op)
  {
  }

  lemma {:induction false} ValuesAre(cfg: Config, safe: Safe, name: string, key: string, values: seq<string>, op: Op)
    ensures op in TagValueOps(cfg, safe, name, key, values) <==> exists v :: v in values && IsTag(cfg, safe, name, key, v, op)
    decreases |values|
  {
    if values != [] {
      hide OneValueOps, IsTag;
      var front, last := values[..|values|-1], values[|values|-1];
      ValuesAre(cfg, safe, name, key, front, op);
      OneValueIs(cfg, safe, name, key, last, op);
      assert forall v :: v in values <==> v in front || v == last;
    }
  }

  lemma TagValuesAre(cfg: Config, tag: Tag, v: string)
    ensures v in TagValues(cfg, tag.value) <==> HasValue(cfg, tag, v)
  {
    StrippedAre(SplitCommas(tag.value), v);
    forall part
      ensures part in SplitCommas(tag.value) <==> Listed(tag.value, part)
    {
      ListIs(tag.value, part);
    }
  }

  lemma {:induction false} StrippedAre(parts: seq<string>, v: string)
    ensures v in Stripped(parts) <==> exists part :: part in parts && v == Trim(part)
    decreases |parts|
  {
    if parts != [] {
      hide Trim;
      StrippedAre(parts[1..], v);
      assert forall part :: part in parts <==> part == parts[0] || part in parts[1..];
    }
  }

  ghost predicate TagHas(cfg: Config, safe: Safe, name: string, tag: Tag, op: Op) {
    exists v :: HasValue(cfg, tag, v) && IsTag(cfg, safe, name, tag.key, v, op)
  }

  lemma {:induction false} TagsAre(cfg: Config, safe: Safe, name: string, tags: seq<Tag>, op: Op)
    ensures op in TagOps(cfg, safe, name, tags) <==> exists tag :: tag in tags && TagHas(cfg, safe, name, tag, op)
    decreases |tags|
  {
    if tags != [] {
      var front, last := tags[..|tags|-1], tags[|tags|-1];
      TagsAre(cfg, safe, name, front, op);
      OneTagIs(cfg, safe, name, last, op);
      hide TagHas;
      assert forall tag :: tag in tags <==> tag in front || tag == last;
    }
  }

  lemma OneTagIs(cfg: Config, safe: Safe, name: string, tag: Tag, op: Op)
    ensures op in TagValueOps(cfg, safe, name, tag.key, TagValues(cfg, tag.value)) <==> TagHas(cfg, safe, name, tag, op)
  {
    hide IsTag, HasValue, TagValues;
    ValuesAre(cfg, safe, name, tag.key, TagValues(cfg, tag.value), op);
    forall v
      ensures v in TagValues(cfg, tag.value) <==> HasValue(cfg, tag, v)
    {
      TagValuesAre(cfg, tag, v);
    }
  }

  // ---- All operations ----

  lemma JoinedLast(parts: seq<seq<Op>>, last: seq<Op>)
    ensures Joined(parts + [last]) == Joined(parts) + last
  {
    assert (parts + [last])[..|parts|] == parts;
  }

  lemma JoinedThree(a: seq<Op>, b: seq<Op>, c: seq<Op>)
    ensures Joined([a, b, c]) == a + b + c
  {
    assert Joined([]) == [] && [] + [a] == [a] && [] + a == a;
    hide Joined;
    JoinedLast([], a);
    JoinedLast([a], b);
    JoinedLast([a, b], c);
    assert [a] + [b] == [a, b] && [a, b] + [c] == [a, b, c];
  }

  lemma JoinedSix(a: seq<Op>, b: seq<Op>, c: seq<Op>, d: seq<Op>, e: seq<Op>, f: seq<Op>)
    ensures Joined([a, b, c, d, e, f]) == a + (b + c + d + e + f)
  {
    hide Joined;
    JoinedThree(a, b, c);
    JoinedLast([a, b, c], d);
    JoinedLast([a, b, c, d], e);
    JoinedLast([a, b, c, d, e], f);
    assert [a, b, c] + [d] == [a, b, c, d];
    assert [a, b, c, d] + [e] == [a, b, c, d, e];
    assert [a, b, c, d, e] + [f] == [a, b, c, d, e, f];
    FirstApart(a, b, c, d, e, f);
  }

  lemma FirstApart(a: seq<Op>, b: seq<Op>, c: seq<Op>, d: seq<Op>, e: seq<Op>, f: seq<Op>)
    ensures a + b + c + d + e + f == a + (b + c + d + e + f)
  {
    Apart(a, b, c);
    Apart(a, b + c, d);
    Apart(a, b + c + d, e);
    Apart(a, b + c + d + e, f);
  }

  lemma Apart(a: seq<Op>, b: seq<Op>, c: seq<Op>)
    ensures a + b + c == a + (b + c)
  {
  }

  lemma WhenIs(c: bool, ops: seq<Op>, op: Op)
    ensures op in When(c, ops) <==> c && op in ops
  {
  }

  /** The operations for an instance after its own group is assigned. */
  ghost predicate Follows(cfg: Config, safe: Safe, inst: Instance, name: string, op: Op) {
    (op.Push? && op.element == name && Pushed(cfg, safe, inst, op.key))
    || (cfg.nested && op.PushGroup? && Nested(cfg, safe, inst, op.key, op.element))
  }

  ghost predicate GeneralHas(cfg: Config, safe: Safe, inst: Instance, name: string, op: Op) {
    || (cfg.byRegion && IsGrouping(cfg, name, inst.region, "regions", op))
    || (cfg.byZone && (IsGrouping(cfg, name, inst.placement, "zones", op)
                       || (cfg.nested && cfg.byRegion && op == PushGroup(inst.region, inst.placement))))
    || (cfg.byAmi && IsGrouping(cfg, name, safe(inst.image), "images", op))
    || (cfg.byType && IsGrouping(cfg, name, safe("type_" + inst.size), "types", op))
    || (cfg.byKeyPair && inst.keyName != "" && IsGrouping(cfg, name, safe("key_" + inst.keyName), "keys", op))
  }

  ghost predicate SpecialHas(cfg: Config, safe: Safe, inst: Instance, name: string, op: Op) {
    || (cfg.byVpc && inst.vpc != "" && IsGrouping(cfg, name, safe("vpc_id_" + inst.vpc), "vpcs", op))
    || (cfg.bySecurityGroup
        && exists sg :: sg in inst.securityGroups && IsGrouping(cfg, name, safe("security_group_" + sg), "security_groups", op))
    || (cfg.byTagKeys && exists tag :: tag in inst.tags && TagHas(cfg, safe, name, tag, op))
    || (cfg.byRoute53 && exists n :: n in inst.route53 && IsGrouping(cfg, name, n, "route53", op))
    || (cfg.byTagNone && inst.tags == [] && IsGrouping(cfg, name, "tag_none", "tags", op))
    || op == Push("ec2", name)
  }

  /** The operations of an instance without the assignment of its own group. */
  lemma GeneralIs(cfg: Config, safe: Safe, inst: Instance, name: string) returns (rest: seq<Op>)
    ensures Joined(GeneralParts(cfg, safe, inst, name)) == OwnGroup(cfg, name, inst.id) + rest
    ensures forall op :: op in rest <==> GeneralHas(cfg, safe, inst, name, op)
  {
    hide When, Grouping, OwnGroup, ZoneOps, IsGrouping, Joined;
    var b := When(cfg.byRegion, Grouping(cfg, name, inst.region, "regions"));
    var c := When(cfg.byZone, ZoneOps(cfg, name, inst.region, inst.placement));
    var d := When(cfg.byAmi, Grouping(cfg, name, safe(inst.image), "images"));
    var e := When(cfg.byType, Grouping(cfg, name, safe("type_" + inst.size), "types"));
    var f := When(cfg.byKeyPair && inst.keyName != "", Grouping(cfg, name, safe("key_" + inst.keyName), "keys"));
    rest := b + c + d + e + f;
    JoinedSix(OwnGroup(cfg, name, inst.id), b, c, d, e, f);
    forall op
      ensures op in rest <==> GeneralHas(cfg, safe, inst, name, op)
    {
      WhenGrouping(cfg.byRegion, cfg, name, inst.region, "regions", op);
      WhenIs(cfg.byZone, ZoneOps(cfg, name, inst.region, inst.placement), op);
      ZoneIs(cfg, name, inst.region, inst.placement, op);
      WhenGrouping(cfg.byAmi, cfg, name, safe(inst.image), "images", op);
      WhenGrouping(cfg.byType, cfg, name, safe("type_" + inst.size), "types", op);
      WhenGrouping(cfg.byKeyPair && inst.keyName != "", cfg, name, safe("key_" + inst.keyName), "keys", op);
    }
  }

  lemma WhenGrouping(c: bool, cfg: Config, name: string, group: string, parent: string, op: Op)
    ensures op in When(c, Grouping(cfg, name, group, parent)) <==> c && IsGrouping(cfg, name, group, parent, op)
  {
    GroupingIs(cfg, name, group, parent, op);
  }

  lemma SpecialIs(cfg: Config, safe: Safe, inst: Instance, name: string, op: Op)
    ensures op in Joined(SpecialParts(cfg, safe, inst, name)) <==> SpecialHas(cfg, safe, inst, name, op)
  {
    hide When, Grouping, SecurityGroupOps, TagOps, Route53Ops, IsGrouping, TagHas, Joined;
    var a := When(cfg.byVpc && inst.vpc != "", Grouping(cfg, name, safe("vpc_id_" + inst.vpc), "vpcs"));
    var b := When(cfg.bySecurityGroup, SecurityGroupOps(cfg, safe, name, inst.securityGroups));
    var c := When(cfg.byTagKeys, TagOps(cfg, safe, name, inst.tags));
    var d := When(cfg.byRoute53, Route53Ops(cfg, name, inst.route53));
    var e := When(cfg.byTagNone && inst.tags == [], Grouping(cfg, name, "tag_none", "tags"));
    JoinedSix(a, b, c, d, e, [Push("ec2", name)]);
    WhenGrouping(cfg.byVpc && inst.vpc != "", cfg, name, safe("vpc_id_" + inst.vpc), "vpcs", op);
    WhenIs(cfg.bySecurityGroup, SecurityGroupOps(cfg, safe, name, inst.securityGroups), op);
    SecurityGroupsAre(cfg, safe, name, inst.securityGroups, op);
    WhenIs(cfg.byTagKeys, TagOps(cfg, safe, name, inst.tags), op);
    TagsAre(cfg, safe, name, inst.tags, op);
    WhenIs(cfg.byRoute53, Route53Ops(cfg, name, inst.route53), op);
    Route53Are(cfg, name, inst.route53, op);
    WhenGrouping(cfg.byTagNone && inst.tags == [], cfg, name, "tag_none", "tags", op);
  }

  lemma FollowsIs(cfg: Config, safe: Safe, inst: Instance, name: string, op: Op)
    ensures || GeneralHas(cfg, safe, inst, name, op) || SpecialHas(cfg, safe, inst, name, op)
            || (cfg.byId && cfg.nested && op == PushGroup("instances", inst.id))
            <==> Follows(cfg, safe, inst, name, op)
  {
    hide HasValue, TagGroup, NestedTag;
  }

  /** The operations of an instance: its own group first, then the others in some order. */
  lemma InstanceOpsAre(cfg: Config, safe: Safe, inst: Instance, name: string) returns (tail: seq<Op>)
    ensures InstanceOps(cfg, safe, inst, name) == When(cfg.byId, [Alone(inst.id, name)]) + tail
    ensures forall op :: op in tail <==> Follows(cfg, safe, inst, name, op)
  {
    hide Follows, GeneralHas, SpecialHas, Joined;
    var rest := GeneralIs(cfg, safe, inst, name);
    var special := Joined(SpecialParts(cfg, safe, inst, name));
    var own := When(cfg.byId && cfg.nested, [PushGroup("instances", inst.id)]);
    tail := own + rest + special;
    assert OwnGroup(cfg, name, inst.id) == When(cfg.byId, [Alone(inst.id, name)]) + own;
    forall op
      ensures op in tail <==> Follows(cfg, safe, inst, name, op)
    {
      SpecialIs(cfg, safe, inst, name, op);
      FollowsIs(cfg, safe, inst, name, op);
    }
  }

  // ---- The inventory afterwards ----

  lemma FirstLeaves(first: seq<Op>, tail: seq<Op>, op: Op)
    requires (forall other :: other in tail ==> !other.Alone?) && |first| <= 1
    ensures Leaves(first + tail, op) <==> op in first || op in tail
  {
    KeptLeft(first, tail, op);
    LeavesConcat(first, tail, op);
    NothingAssigned(tail, op);
    assert first != [] ==> first[..|first|-1] == [] && first == [first[0]];
  }

  lemma {:induction false} KeptLeft(a: seq<Op>, b: seq<Op>, op: Op)
    requires forall other :: other in b ==> !other.Alone?
    ensures Leaves(a, op) ==> Leaves(a + b, op)
    decreases |b|
  {
    if b == [] {
      assert a + b == a;
    } else {
      assert (a + b)[..|a + b|-1] == a + b[..|b|-1];
      KeptLeft(a, b[..|b|-1], op);
    }
  }

  /** Adding an instance lists it in exactly the groups that the options promise, and puts
      exactly the promised groups under each other; what the inventory had before stays, but
      for a group with the id of the instance. */
  lemma InstanceIsListed(inv: Inventory, cfg: Config, safe: Safe, inst: Instance, name: string, group: string, other: string)
    ensures var end := Run(inv, InstanceOps(cfg, safe, inst, name));
            && (name in HostsAt(end, group)
                <==> Pushed(cfg, safe, inst, group) || (cfg.byId && group == inst.id) || name in HostsAt(inv, group))
            && (other != name ==>
                  (other in HostsAt(end, group) <==> other in HostsAt(inv, group) && !(cfg.byId && group == inst.id)))
            && (other in ChildrenAt(end, group)
                <==> (cfg.nested && Nested(cfg, safe, inst, group, other))
                     || (other in ChildrenAt(inv, group) && !(cfg.byId && group == inst.id)))
  {
    hide Pushed, Nested, Run, Leaves, InstanceOps;
    var tail := InstanceOpsAre(cfg, safe, inst, name);
    var first := When(cfg.byId, [Alone(inst.id, name)]);
    var ops := first + tail;
    RunEffects(inv, ops, group, name);
    RunEffects(inv, ops, group, other);
    forall op
      ensures Leaves(ops, op) <==> op in first || op in tail
    {
      FirstLeaves(first, tail, op);
    }
    assert cfg.byId ==> Alone(inst.id, name) in ops;
    assert Assigned(ops, group) <==> cfg.byId && group == inst.id;
  }

  ghost predicate ReplicationFollows(cfg: Config, region: string, id: string, name: string, op: Op) {
    || (cfg.byId && cfg.nested && op == PushGroup("instances", id))
    || (cfg.byRegion && IsGrouping(cfg, name, region, "regions", op))
    || (cfg.byEngine && op == Push("elasticache_redis", name))
    || (cfg.byEngine && cfg.nested && op == PushGroup("elasticache_engines", "redis"))
    || op == Push("elasticache_replication_groups", id)
  }

  lemma ReplicationOpsAre(cfg: Config, region: string, id: string, name: string) returns (tail: seq<Op>)
    ensures ReplicationGroupOps(cfg, region, id, name) == When(cfg.byId, [Alone(id, name)]) + tail
    ensures forall op :: op in tail <==> ReplicationFollows(cfg, region, id, name, op)
  {
    hide Grouping, IsGrouping;
    tail := When(cfg.byId && cfg.nested, [PushGroup("instances", id)])
            + When(cfg.byRegion, Grouping(cfg, name, region, "regions"))
            + When(cfg.byEngine, [Push("elasticache_redis", name)] + When(cfg.nested, [PushGroup("elasticache_engines", "redis")]))
            + [Push("elasticache_replication_groups", id)];
    forall op
      ensures op in tail <==> ReplicationFollows(cfg, region, id, name, op)
    {
      WhenGrouping(cfg.byRegion, cfg, name, region, "regions", op);
    }
  }

  /** The same for a replication group. */
  lemma ReplicationIsListed(inv: Inventory, cfg: Config, region: string, id: string, name: string, group: string, x: string)
    ensures var end := Run(inv, ReplicationGroupOps(cfg, region, id, name));
            && (x in HostsAt(end, group)
                <==> || (x == name && cfg.byId && group == id)
                     || (x == name && cfg.byRegion && group == region)
                     || (x == name && cfg.byEngine && group == "elasticache_redis")
                     || (x == id && group == "elasticache_replication_groups")
                     || (x in HostsAt(inv, group) && !(cfg.byId && group == id)))
            && (x in ChildrenAt(end, group)
                <==> || (cfg.nested && cfg.byId && group == "instances" && x == id)
                     || (cfg.nested && cfg.byRegion && group == "regions" && x == region)
                     || (cfg.nested && cfg.byEngine && group == "elasticache_engines" && x == "redis")
                     || (x in ChildrenAt(inv, group) && !(cfg.byId && group == id)))
  {
    hide Run, Leaves, ReplicationGroupOps;
    var tail := ReplicationOpsAre(cfg, region, id, name);
    var first := When(cfg.byId, [Alone(id, name)]);
    var ops := first + tail;
    RunEffects(inv, ops, group, x);
    forall op
      ensures Leaves(ops, op) <==> op in first || op in tail
    {
      FirstLeaves(first, tail, op);
    }
    assert cfg.byId ==> Alone(id, name) in ops;
    assert Assigned(ops, group) <==> cfg.byId && group == id;
  }
}
