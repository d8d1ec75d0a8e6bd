/** `_get_obj_info`: a walk over a graph of managed objects that may have cycles. */
module ObjectWalk {
  import opened Common

  /** A Python value: a managed object, a suds object or a list with its parts, a plain value,
      or something the walk drops. Containers are finite; cycles go through managed objects. */
  datatype Value =
    | Managed(id: Id)
    | Suds(fields: seq<Part>)
    | List(items: seq<Part>)
    | Plain(text: string)
    | Foreign

  /** A part of a container; the key of a list item is not used. */
  datatype Part = Part(key: string, value: Value)

  /** A managed object: its name, if it has one, and its attributes that can be read. */
  datatype Object = Object(name: Option<string>, attributes: seq<Part>)

  /** What the walk makes of a value; `Nothing` is the empty tuple. */
  datatype Info = Nothing | Text(text: string) | Dict(entries: seq<Entry>) | Infos(infos: seq<Info>)

  datatype Entry = Entry(key: string, info: Info)

  type Graph = map<Id, Object>

  /** The result of a call: the information, the caller's `seen` afterwards, and the managed
      objects that were expanded, in order. */
  datatype Walk = Walk(info: Info, seen: set<Id>, expanded: seq<Id>)

  datatype Walks = Walks(entries: seq<Entry>, seen: set<Id>, expanded: seq<Id>)

  function NameOf(g: Graph, id: Id): Info {
    if id in g && g[id].name.Some? then Text(g[id].name.value) else Nothing
  }

  predicate Public(p: Part) {
    !("_" <= p.key)
  }

  /** The attributes a walk looks at. */
  function Attributes(g: Graph, id: Id): seq<Part> {
    if id in g then PublicOnly(g[id].attributes) else []
  }

  function PublicOnly(parts: seq<Part>): seq<Part> {
    if parts == [] then []
    else PublicOnly(parts[..|parts|-1]) + if Public(parts[|parts|-1]) then [parts[|parts|-1]] else []
  }

  /** `seen or set()`: an empty set is replaced by a new one, so that what the call adds to
      it is lost to the caller. */
  function Back(given: set<Id>, after: set<Id>): set<Id> {
    if given == {} then {} else after
  }

  function Depth(depth: int): nat {
    if depth > 0 then depth else 0
  }

  function InfoOf(g: Graph, v: Value, depth: int, seen: set<Id>): Walk
    decreases Depth(depth), v
  {
    match v
    case Managed(id) =>
      if id in seen then Walk(NameOf(g, id), seen, [])
      else if depth <= 0 then Walk(NameOf(g, id), Back(seen, seen + {id}), [])
      else
        var r := InfoOfAll(g, Attributes(g, id), depth - 1, seen + {id});
        Walk(Dict(r.entries), Back(seen, r.seen), [id] + r.expanded)
    case Suds(fields) =>
      var r := InfoOfAll(g, fields, depth, seen);
      Walk(Dict(r.entries), r.seen, r.expanded)
    case List(items) =>
      var r := InfoOfAll(g, items, depth, seen);
      Walk(Infos(ValuesOf(r.entries)), r.seen, r.expanded)
    case Plain(text) => Walk(Text(text), seen, [])
    case Foreign => Walk(Nothing, seen, [])
  }

  /** The parts one after the other, each with the `seen` that the ones before left. */
  function InfoOfAll(g: Graph, parts: seq<Part>, depth: int, seen: set<Id>): Walks
    decreases Depth(depth), parts
  {
    if parts == [] then Walks([], seen, [])
    else
      var part := parts[|parts|-1];
      var before := InfoOfAll(g, parts[..|parts|-1], depth, seen);
      var r := InfoOf(g, part.value, depth, before.seen);
      Walks(before.entries + if r.info == Nothing then [] else [Entry(part.key, r.info)], r.seen, before.expanded + r.expanded)
  }

  function ValuesOf(entries: seq<Entry>): (r: seq<Info>)
    ensures |r| == |entries|
  {
    if entries == [] then [] else ValuesOf(entries[..|entries|-1]) + [entries[|entries|-1].info]
  }

  // ---- Each object once ----

  ghost predicate Distinct(ids: seq<Id>) {
    forall i, j :: 0 <= i < j < |ids| ==> ids[i] != ids[j]
  }

  /** What the expansions of a call have to do with what was seen before and after. */
  ghost predicate Fresh(expanded: seq<Id>, seen: set<Id>, after: set<Id>) {
    seen <= after && Distinct(expanded) && forall id :: id in expanded ==> id in after && id !in seen
  }

  lemma FreshConcat(a: seq<Id>, b: seq<Id>, seen: set<Id>, middle: set<Id>, after: set<Id>)
    requires Fresh(a, seen, middle) && Fresh(b, middle, after)
    ensures Fresh(a + b, seen, after)
  {
    forall i, j | 0 <= i < j < |a + b|
      ensures (a + b)[i] != (a + b)[j]
    {
      if i < |a| <= j {
        assert a[i] in middle && b[j - |a|] !in middle;
      }
    }
  }

  lemma FreshHead(id: Id, rest: seq<Id>, seen: set<Id>, after: set<Id>)
    requires id !in seen && Fresh(rest, seen + {id}, after)
    ensures Fresh([id] + rest, seen, after)
  {
    assert Fresh([id], seen, seen + {id});
    FreshConcat([id], rest, seen, seen + {id}, after);
  }

  /** Inside a walk that has seen something, an object is expanded at most once. */
  lemma {:induction false} ExpandsOnce(g: Graph, v: Value, depth: int, seen: set<Id>)
    requires seen != {}
    ensures Fresh(InfoOf(g, v, depth, seen).expanded, seen, InfoOf(g, v, depth, seen).seen)
    decreases Depth(depth), v
  {
    match v
    case Managed(id) =>
      if id !in seen && depth > 0 {
        ExpandsOnceAll(g, Attributes(g, id), depth - 1, seen + {id});
        var r := InfoOfAll(g, Attributes(g, id), depth - 1, seen + {id});
        FreshHead(id, r.expanded, seen, r.seen);
      }
    case Suds(fields) => ExpandsOnceAll(g, fields, depth, seen);
    case List(items) => ExpandsOnceAll(g, items, depth, seen);
    case Plain(_) =>
    case Foreign =>
  }

  lemma {:induction false} ExpandsOnceAll(g: Graph, parts: seq<Part>, depth: int, seen: set<Id>)
    requires seen != {}
    ensures Fresh(InfoOfAll(g, parts, depth, seen).expanded, seen, InfoOfAll(g, parts, depth, seen).seen)
    decreases Depth(depth), parts
  {
    if parts != [] {
      var front, last := parts[..|parts|-1], parts[|parts|-1];
      ExpandsOnceAll(g, front, depth, seen);
      var before := InfoOfAll(g, front, depth, seen);
      ExpandsOnce(g, last.value, depth, before.seen);
      var r := InfoOf(g, last.value, depth, before.seen);
      FreshConcat(before.expanded, r.expanded, seen, before.seen, r.seen);
    }
  }

  /** A walk from a managed object, at any depth and on any graph, expands each object at
      most once. */
  lemma RootExpandsOnce(g: Graph, id: Id, depth: int)
    ensures Distinct(InfoOf(g, Managed(id), depth, {}).expanded)
  {
    if depth > 0 {
      ExpandsOnceAll(g, Attributes(g, id), depth - 1, {id});
      assert {} + {id} == {id};
      var r := InfoOfAll(g, Attributes(g, id), depth - 1, {id});
      FreshHead(id, r.expanded, {}, r.seen);
    }
  }

  // ---- All that can be reached ----

  /** The managed objects in a value, through containers, in order and with repetition. */
  function HeadSeq(v: Value): seq<Id>
    decreases v
  {
    match v
    case Managed(id) => [id]
    case Suds(fields) => HeadSeqOfAll(fields)
    case List(items) => HeadSeqOfAll(items)
    case Plain(_) => []
    case Foreign => []
  }

  function HeadSeqOfAll(parts: seq<Part>): seq<Id>
    decreases parts
  {
    if parts == [] then [] else HeadSeqOfAll(parts[..|parts|-1]) + HeadSeq(parts[|parts|-1].value)
  }

  function Heads(v: Value): set<Id> {
    set id | id in HeadSeq(v)
  }

  function HeadsOfAll(parts: seq<Part>): set<Id> {
    set id | id in HeadSeqOfAll(parts)
  }

  /** The objects that the public attributes of an object lead to. */
  function Next(g: Graph, id: Id): set<Id> {
    HeadsOfAll(Attributes(g, id))
  }

  ghost predicate ClosedSet(g: Graph, ids: set<Id>) {
    forall id :: id in ids ==> Next(g, id) <= ids
  }

  /** A walk stays within what can be reached. */
  lemma {:induction false} StaysWithin(g: Graph, v: Value, depth: int, seen: set<Id>, all: set<Id>)
    requires ClosedSet(g, all) && Heads(v) <= all
    ensures forall id :: id in InfoOf(g, v, depth, seen).expanded ==> id in all
    ensures InfoOf(g, v, depth, seen).seen <= seen + all
    decreases Depth(depth), v
  {
    match v
    case Managed(id) =>
      if id !in seen && depth > 0 {
        assert id in Heads(v);
        StaysWithinAll(g, Attributes(g, id), depth - 1, seen + {id}, all);
      }
    case Suds(fields) => StaysWithinAll(g, fields, depth, seen, all);
    case List(items) => StaysWithinAll(g, items, depth, seen, all);
    case Plain(_) =>
    case Foreign =>
  }

  lemma {:induction false} StaysWithinAll(g: Graph, parts: seq<Part>, depth: int, seen: set<Id>, all: set<Id>)
    requires ClosedSet(g, all) && HeadsOfAll(parts) <= all
    ensures forall id :: id in InfoOfAll(g, parts, depth, seen).expanded ==> id in all
    ensures InfoOfAll(g, parts, depth, seen).seen <= seen + all
    decreases Depth(depth), parts
  {
    if parts != [] {
      var front, last := parts[..|parts|-1], parts[|parts|-1];
      StaysWithinAll(g, front, depth, seen, all);
      StaysWithin(g, last.value, depth, InfoOfAll(g, front, depth, seen).seen, all);
    }
  }

  /** Everything newly seen was expanded, and what it leads to was seen. */
  ghost predicate Explored(g: Graph, seen: set<Id>, after: set<Id>, expanded: seq<Id>) {
    seen <= after && forall id :: id in after && id !in seen ==> id in expanded && Next(g, id) <= after
  }

  lemma {:induction false} Explores(g: Graph, v: Value, depth: int, seen: set<Id>, all: set<Id>)
    requires seen != {} && ClosedSet(g, all) && Heads(v) <= all && depth >= |all - seen|
    ensures var r := InfoOf(g, v, depth, seen);
            Heads(v) <= r.seen && Explored(g, seen, r.seen, r.expanded)
    decreases Depth(depth), v
  {
    match v
    case Managed(id) =>
      if id !in seen {
        assert id in all - seen;
        assert all - (seen + {id}) == all - seen - {id};
        ExploresAll(g, Attributes(g, id), depth - 1, seen + {id}, all);
      }
    case Suds(fields) => ExploresAll(g, fields, depth, seen, all);
    case List(items) => ExploresAll(g, items, depth, seen, all);
    case Plain(_) =>
    case Foreign =>
  }

  lemma {:induction false} ExploresAll(g: Graph, parts: seq<Part>, depth: int, seen: set<Id>, all: set<Id>)
    requires seen != {} && ClosedSet(g, all) && HeadsOfAll(parts) <= all && depth >= |all - seen|
    ensures var r := InfoOfAll(g, parts, depth, seen);
            HeadsOfAll(parts) <= r.seen && Explored(g, seen, r.seen, r.expanded)
    decreases Depth(depth), parts
  {
    if parts != [] {
      var front, last := parts[..|parts|-1], parts[|parts|-1];
      ExploresAll(g, front, depth, seen, all);
      var before := InfoOfAll(g, front, depth, seen);
      Fewer(all, seen, before.seen);
      Explores(g, last.value, depth, before.seen, all);
    }
  }

  lemma Fewer(all: set<Id>, seen: set<Id>, after: set<Id>)
    requires seen <= after
    ensures |all - after| <= |all - seen|
  {
    Subset(all - after, all - seen);
  }

  lemma {:induction false} Subset(a: set<Id>, b: set<Id>)
    requires a <= b
    ensures |a| <= |b|
    decreases |a|
  {
    if a != {} {
      var x :| x in a;
      Subset(a - {x}, b - {x});
    }
  }

  /** The objects that a walk from a managed object expands. */
  function Reached(g: Graph, id: Id, depth: int): set<Id> {
    set x | x in InfoOf(g, Managed(id), depth, {}).expanded
  }

  lemma RootResult(g: Graph, id: Id, depth: int)
    requires depth > 0
    ensures InfoOf(g, Managed(id), depth, {}).expanded == [id] + InfoOfAll(g, Attributes(g, id), depth - 1, {id}).expanded
  {
    assert {} + {id} == {id};
  }

  /** A walk from a managed object that may go as deep as there are objects to reach expands
      a set that holds the root and what its members lead to. */
  lemma ReachedIsClosed(g: Graph, id: Id, depth: int, all: set<Id>)
    requires ClosedSet(g, all) && id in all && depth >= |all|
    ensures id in Reached(g, id, depth) && ClosedSet(g, Reached(g, id, depth))
  {
    hide InfoOf, InfoOfAll, Attributes;
    assert |all - {id}| == |all| - 1;
    ExploresAll(g, Attributes(g, id), depth - 1, {id}, all);
    ExpandsOnceAll(g, Attributes(g, id), depth - 1, {id});
    RootResult(g, id, depth);
    var r := InfoOfAll(g, Attributes(g, id), depth - 1, {id});
    SameSet(g, id, r.expanded, r.seen);
    assert Reached(g, id, depth) == r.seen;
  }

  lemma SameSet(g: Graph, id: Id, expanded: seq<Id>, after: set<Id>)
    requires Fresh(expanded, {id}, after) && Explored(g, {id}, after, expanded)
    ensures (set x | x in [id] + expanded) == after
  {
  }

  /** And at any depth it expands no other object: that set is the smallest. */
  lemma ReachedIsLeast(g: Graph, id: Id, depth: int, other: set<Id>)
    requires ClosedSet(g, other) && id in other
    ensures Reached(g, id, depth) <= other
  {
    StaysWithin(g, Managed(id), depth, {}, other);
  }

  // ---- Containers ----

  /** Below a container every item starts anew: it leaves an empty `seen` empty. */
  lemma {:induction false} EmptyStaysEmpty(g: Graph, v: Value, depth: int)
    ensures InfoOf(g, v, depth, {}).seen == {}
    decreases Depth(depth), v
  {
    match v
    case Managed(_) =>
    case Suds(fields) => EmptyStaysEmptyAll(g, fields, depth);
    case List(items) => EmptyStaysEmptyAll(g, items, depth);
    case Plain(_) =>
    case Foreign =>
  }

  lemma {:induction false} EmptyStaysEmptyAll(g: Graph, parts: seq<Part>, depth: int)
    ensures InfoOfAll(g, parts, depth, {}).seen == {}
    decreases Depth(depth), parts
  {
    if parts != [] {
      EmptyStaysEmptyAll(g, parts[..|parts|-1], depth);
      EmptyStaysEmpty(g, parts[|parts|-1].value, depth);
    }
  }

  /** What separate walks from these objects expand, one after the other. */
  function Expansions(g: Graph, ids: seq<Id>, depth: int): seq<Id> {
    if ids == [] then [] else Expansions(g, ids[..|ids|-1], depth) + InfoOf(g, Managed(ids[|ids|-1]), depth, {}).expanded
  }

  lemma {:induction false} ExpansionsConcat(g: Graph, a: seq<Id>, b: seq<Id>, depth: int)
    ensures Expansions(g, a + b, depth) == Expansions(g, a, depth) + Expansions(g, b, depth)
    decreases |b|
  {
    if b == [] {
      assert a + b == a;
    } else {
      assert (a + b)[..|a + b|-1] == a + b[..|b|-1];
      ExpansionsConcat(g, a, b[..|b|-1], depth);
    }
  }

  lemma {:induction false} WalksFromHeads(g: Graph, v: Value, depth: int)
    ensures InfoOf(g, v, depth, {}).expanded == Expansions(g, HeadSeq(v), depth)
    decreases v
  {
    match v
    case Managed(id) => assert [id][..0] == [];
    case Suds(fields) => WalksFromHeadsOfAll(g, fields, depth);
    case List(items) => WalksFromHeadsOfAll(g, items, depth);
    case Plain(_) =>
    case Foreign =>
  }

  lemma {:induction false} WalksFromHeadsOfAll(g: Graph, parts: seq<Part>, depth: int)
    ensures InfoOfAll(g, parts, depth, {}).expanded == Expansions(g, HeadSeqOfAll(parts), depth)
    decreases parts
  {
    if parts != [] {
      var front, last := parts[..|parts|-1], parts[|parts|-1];
      WalksFromHeadsOfAll(g, front, depth);
      WalksFromHeads(g, last.value, depth);
      EmptyStaysEmptyAll(g, front, depth);
      ExpansionsConcat(g, HeadSeqOfAll(front), HeadSeq(last.value), depth);
    }
  }

  lemma DistinctConcat(a: seq<Id>, b: seq<Id>)
    ensures Distinct(a + b) <==> Distinct(a) && Distinct(b) && forall x :: x in a ==> x !in b
  {
    assert forall i :: 0 <= i < |a| ==> (a + b)[i] == a[i];
    assert forall j :: 0 <= j < |b| ==> (a + b)[|a| + j] == b[j];
    if Distinct(a) && Distinct(b) && forall x :: x in a ==> x !in b {
      forall i, j | 0 <= i < j < |a + b|
        ensures (a + b)[i] != (a + b)[j]
      {
        assert i < |a| <= j ==> a[i] in a && b[j - |a|] in b;
        assert i >= |a| ==> b[i - |a|] != b[j - |a|];
      }
    }
  }

  lemma {:induction false} InExpansions(g: Graph, ids: seq<Id>, depth: int, x: Id)
    ensures x in Expansions(g, ids, depth) <==> exists i :: 0 <= i < |ids| && x in Reached(g, ids[i], depth)
    decreases |ids|
  {
    if ids != [] {
      var front := ids[..|ids|-1];
      InExpansions(g, front, depth, x);
      assert forall i :: 0 <= i < |front| ==> front[i] == ids[i];
    }
  }

  ghost predicate Apart(g: Graph, ids: seq<Id>, depth: int) {
    forall i, j :: 0 <= i < j < |ids| ==> Reached(g, ids[i], depth) !! Reached(g, ids[j], depth)
  }

  lemma {:induction false} ExpansionsDistinct(g: Graph, ids: seq<Id>, depth: int)
    ensures Distinct(Expansions(g, ids, depth)) <==> Apart(g, ids, depth)
    decreases |ids|
  {
    if ids != [] {
      hide InfoOf, Distinct;
      var front, last := ids[..|ids|-1], ids[|ids|-1];
      var own := InfoOf(g, Managed(last), depth, {}).expanded;
      ExpansionsDistinct(g, front, depth);
      RootExpandsOnce(g, last, depth);
      DistinctConcat(Expansions(g, front, depth), own);
      forall x
        ensures x in Expansions(g, front, depth) <==> exists i :: 0 <= i < |front| && x in Reached(g, front[i], depth)
      {
        InExpansions(g, front, depth, x);
      }
      assert forall i :: 0 <= i < |front| ==> front[i] == ids[i];
      ApartLast(g, ids, depth);
    } else {
      assert Distinct([]);
    }
  }

  lemma ApartLast(g: Graph, ids: seq<Id>, depth: int)
    requires ids != []
    ensures var front, last := ids[..|ids|-1], ids[|ids|-1];
            Apart(g, ids, depth)
            <==> Apart(g, front, depth) && forall i :: 0 <= i < |front| ==> Reached(g, front[i], depth) !! Reached(g, last, depth)
  {
  }

  /** A walk without depth expands nothing, whatever it starts from. */
  lemma {:induction false} ShallowExpandsNothing(g: Graph, v: Value, depth: int, seen: set<Id>)
    requires depth <= 0
    ensures InfoOf(g, v, depth, seen).expanded == []
    decreases v
  {
    match v
    case Managed(_) =>
    case Suds(fields) => ShallowExpandsNothingOfAll(g, fields, depth, seen);
    case List(items) => ShallowExpandsNothingOfAll(g, items, depth, seen);
    case Plain(_) =>
    case Foreign =>
  }

  lemma {:induction false} ShallowExpandsNothingOfAll(g: Graph, parts: seq<Part>, depth: int, seen: set<Id>)
    requires depth <= 0
    ensures InfoOfAll(g, parts, depth, seen).expanded == []
    decreases parts
  {
    if parts != [] {
      ShallowExpandsNothingOfAll(g, parts[..|parts|-1], depth, seen);
      ShallowExpandsNothing(g, parts[|parts|-1].value, depth, InfoOfAll(g, parts[..|parts|-1], depth, seen).seen);
    }
  }

  /** A walk from any value, containers included, expands no object twice exactly when it has
      no depth or its managed objects reach nothing in common. */
  lemma ContainerIsExact(g: Graph, v: Value, depth: int)
    ensures Distinct(InfoOf(g, v, depth, {}).expanded) <==> depth <= 0 || Apart(g, HeadSeq(v), depth)
  {
    if depth <= 0 {
      ShallowExpandsNothing(g, v, depth, {});
    } else {
      WalksFromHeads(g, v, depth);
      ExpansionsDistinct(g, HeadSeq(v), depth);
    }
  }

  /** So at any depth but 0, the only depth the plugin asks for, a list that names an object
      twice expands it twice. */
  lemma ContainerExpandsTwice(g: Graph, id: Id, depth: int)
    requires depth > 0
    ensures !Distinct(InfoOf(g, List([Part("", Managed(id)), Part("", Managed(id))]), depth, {}).expanded)
  {
    var item := Part("", Managed(id));
    var items := [item, item];
    assert items[..1] == [item] && [item][..0] == [];
    assert HeadSeqOfAll([item]) == [id];
    assert HeadSeq(List(items)) == [id, id];
    ContainerIsExact(g, List(items), depth);
    RootResult(g, id, depth);
    assert id in Reached(g, id, depth);
    assert !(Reached(g, [id, id][0], depth) !! Reached(g, [id, id][1], depth));
  }

  // ---- The walk with a shared, mutable `seen` ----

  class Seen {
    var ids: set<Id>

    constructor ()
      ensures ids == {}
    {
      ids := {};
    }
  }

  /** The set a call starts from. */
  function Given(seen: Seen?): set<Id>
    reads seen
  {
    if seen == null then {} else seen.ids
  }

  method GetObjInfo(g: Graph, obj: Value, depth: int, seen: Seen?) returns (info: Info)
    modifies if seen == null then {} else {seen}
    ensures info == InfoOf(g, obj, depth, old(Given(seen))).info
    ensures seen != null ==> seen.ids == InfoOf(g, obj, depth, old(seen.ids)).seen
    decreases Depth(depth), obj, 1
  {
    EmptyStaysEmpty(g, obj, depth);
    if seen == null || seen.ids == {} {
      var own := new Seen();
      info := Visit(g, obj, depth, own);
    } else {
      info := Visit(g, obj, depth, seen);
    }
  }

  /** What a call adds to the set it uses, which the caller may not share. */
  function Used(g: Graph, obj: Value, depth: int, seen: set<Id>): set<Id> {
    match obj
    case Managed(id) =>
      if id in seen then seen
      else if depth <= 0 then seen + {id}
      else InfoOfAll(g, Attributes(g, id), depth - 1, seen + {id}).seen
    case _ => InfoOf(g, obj, depth, seen).seen
  }

  method Visit(g: Graph, obj: Value, depth: int, seen: Seen) returns (info: Info)
    modifies seen
    ensures info == InfoOf(g, obj, depth, old(seen.ids)).info
    ensures seen.ids == Used(g, obj, depth, old(seen.ids))
    decreases Depth(depth), obj, 0
  {
    match obj {
      case Managed(id) =>
        if id in seen.ids {
          return NameOf(g, id);
        }
        seen.ids := seen.ids + {id};
        if depth <= 0 {
          return NameOf(g, id);
        }
        var d := VisitAll(g, Attributes(g, id), depth - 1, seen);
        info := Dict(d);
      case Suds(fields) =>
        var d := VisitAll(g, fields, depth, seen);
        info := Dict(d);
      case List(items) =>
        var l := VisitAll(g, items, depth, seen);
        info := Infos(ValuesOf(l));
      case Plain(text) =>
        info := Text(text);
      case Foreign =>
        info := Nothing;
    }
  }

  /** The loop over attributes, fields or items. */
  method VisitAll(g: Graph, parts: seq<Part>, depth: int, seen: Seen) returns (d: seq<Entry>)
    modifies seen
    ensures d == InfoOfAll(g, parts, depth, old(seen.ids)).entries
    ensures seen.ids == InfoOfAll(g, parts, depth, old(seen.ids)).seen
    decreases Depth(depth), parts, 0
  {
    d := [];
    var i := 0;
    while i < |parts|
      invariant 0 <= i <= |parts|
      invariant d == InfoOfAll(g, parts[..i], depth, old(seen.ids)).entries
      invariant seen.ids == InfoOfAll(g, parts[..i], depth, old(seen.ids)).seen
    {
      assert parts[..i + 1][..i] == parts[..i];
      var val := parts[i];
      var info := GetObjInfo(g, val.value, depth, seen);
      if info != Nothing {
        d := d + [Entry(val.key, info)];
      }
      i := i + 1;
    }
    assert parts[..i] == parts;
  }
}
